# GDELT news-sentiment batch scripts, modelled in Dafny

The repository collects GDELT event files, a directory of tab-separated
`YYYYMMDD….CSV` files. It keeps the events that mention tracked companies
and writes per-company sentiment outputs. This project models the
selection, matching, grouping and keyword-file logic of six scripts. Each is
written as pure functions over already-parsed rows and file names, and
properties of those functions are proved.

- `filters/500_GDELT_fetcher.py` (module `FetcherV1`):
  - reads a ticker file and tags each event row with the first ticker its
    printed text contains;
  - groups the new files by their 8-character date prefix;
  - appends one `Week, Ticker, AvgTone, Count` line per ticker and week to
    `weekly_<TICKER>_news.csv`;
  - returns the watermark, the last processed prefix.
- `filters/500_GDELT_fetcherV2.py` (module `FetcherV2`):
  - loads the enriched keyword file;
  - writes, for every file and every ticker, the `SQLDATE, AvgTone` of the
    rows whose actor names mention one of the ticker's keywords.
- `filters/500_GDELT_fetcherV3.py` (module `FetcherV3`):
  - collects, per ticker, the matching rows of the files newer than the
    watermark;
  - resamples them into weekly bins and appends the bins;
  - stores the largest date prefix seen as the new watermark.
- `apple_fetcher.py` (module `AppleFetcher`):
  - filters rows for a fixed Apple keyword list;
  - cuts the sorted file list into chunks of seven;
  - appends one `Week, AvgTone, Count` line per chunk that has data.
- `for_test/keywords.py` (module `KeywordExpansion`) and `enricher.py`
  (module `Enricher`):
  - expand `Company:TICKER` lines into the enriched keyword lines
    `Company:TICKER:kw1:kw2:…` that the fetchers load.

The shared modules are:

- `Wrappers`: `Option` and `Result`.
- `Text`: Python's `strip`, `split`, `lower`, `upper`, `in` and `join`, for
  ASCII.
- `Seqs`: filters, maps, de-duplication and counting.
- `Sorting`: the sorted listing.
- `Dict`: an insertion-ordered Python dict.
- `Dates`: parsing `%Y%m%d`, a day count and Sunday-ending weeks.
- `Rows`: the event row, and the file reader as a function from name to rows.
- `Matching`: the three matching strategies.
- `KeywordFile`: the ticker-file and keyword-file loaders.
- `Selection`: listing, watermark filter and next watermark.
- `Batching`: same-prefix groups and chunks of seven.
- `BatchLoop`: the shared loop state of the two batch-and-flush loops.
- `Aggregate`: per-ticker weekly summary, chunk summary and weekly
  resampling.
- `Sink`: output files as a map from path to lines, where a header is
  written only when a file is created.
- `ActorSelection`: the per-ticker row selection of V2 and V3.

The loops of the V1, apple and V3 `process_*` functions are written as
methods. Their loop invariants tie them to functional definitions, and the
properties are proved about those definitions.

`filters/500_GDELT_fetcher.py` reads its ticker list from
`enriched_keywords.txt` but splits lines on `,`. A line of that file in the
`Company:TICKER:…` form therefore registers the upper-cased text up to its
first `,` as one ticker (the whole line when it has no comma): the line
`Tesla, Inc.:TSLA:…` registers `TESLA`. The model follows the code:
`KeywordFile.LoadTickers` splits on `,`. A blank line, or any line whose first
`,` field is blank, registers the empty ticker, which every row contains
(`KeywordFile.BlankLineMatchesEverything`,
`KeywordFile.EmptyTickerMatchesEverything`).

## Model

A row marked "corollary:" states a fact that follows directly from the definitions, with no induction. It is listed because it names a behaviour of the source, not as a theorem of its own.

| member | source | states |
|---|---|---|
| KeywordFile.ParseTickerLine | filters/500_GDELT_fetcher.py:23-26 | the ticker read from a line is upper case |
| KeywordFile.TickerLineReadsBack | filters/500_GDELT_fetcher.py:23-26 | a line `TICKER,Company` of stripped comma-free fields reads back as the upper-cased ticker and the company; a bare ticker reads back with an empty company |
| KeywordFile.LoadTickers | filters/500_GDELT_fetcher.py:20-26 | the loaded ticker dict has no repeated key |
| KeywordFile.TickerKeys | filters/500_GDELT_fetcher.py:20-26 | the dict's keys are exactly the tickers of the file's lines: every line's ticker is a key and every key comes from some line |
| KeywordFile.TickersUpper | filters/500_GDELT_fetcher.py:25 | every key of the ticker dict is upper case |
| KeywordFile.TickersLower | filters/500_GDELT_fetcher.py:28 | the match list has one entry per dict key, in dict order, each the key in lower case |
| KeywordFile.AssignedTickerIsKey | filters/500_GDELT_fetcher.py:58-67 | a ticker assigned from the lowered list is a key of the loaded dict (lower then upper gives the key back) |
| KeywordFile.BlankLineMatchesEverything | filters/500_GDELT_fetcher.py:23-28 | a blank line in the ticker file (whitespace only, newline included) makes every row get a ticker |
| KeywordFile.BlankTickerLine | filters/500_GDELT_fetcher.py:23-25 | a whitespace-only line reads as the empty ticker |
| KeywordFile.EmptyTickerMatchesEverything | filters/500_GDELT_fetcher.py:23-28 | any line whose ticker field is blank (a blank line, or `,Company`) makes every row get a ticker |
| Matching.FirstMatch | filters/500_GDELT_fetcher.py:64-67 | the first index whose ticker occurs in the text; None exactly when no ticker occurs; no earlier ticker occurs |
| Matching.AssignTicker | filters/500_GDELT_fetcher.py:58-67 | None exactly when no lowered ticker is a substring of the lowered text; otherwise the upper case of the first ticker, in list order, that occurs in the lowered text |
| Matching.FirstTickerWins | filters/500_GDELT_fetcher.py:64-66 | corollary: when the first listed ticker occurs, it is the one assigned, whatever else occurs |
| Matching.AnyKeywordIn | filters/500_GDELT_fetcherV2.py:60 | true exactly when some keyword, lowered, is a substring of the text, so an empty keyword list matches nothing |
| Matching.ActorNameMatch | filters/500_GDELT_fetcherV2.py:54-60 | a keyword found in the lowered Actor1Name selects the row, whatever Actor2Name is |
| ActorSelection.SelectedSound | filters/500_GDELT_fetcherV2.py:58-64 | each selected `SQLDATE, AvgTone` pair comes from a row whose actor names match |
| ActorSelection.SelectedComplete | filters/500_GDELT_fetcherV2.py:58-64 | the columns of every matching row are selected (membership only; SelectedIsFilterMap states multiplicity and order) |
| ActorSelection.SelectedIsFilterMap | filters/500_GDELT_fetcherV2.py:60-64 | the selection is the keyword mask followed by the column projection: one output line per matching row, in row order, and nothing else |
| ActorSelection.CollectedComplete | filters/500_GDELT_fetcherV3.py:84-105 | the columns of every matching row of every readable file are collected for the ticker |
| Selection.CsvFiles | filters/500_GDELT_fetcher.py:110 | the listing's `.CSV` names, sorted, each as often as it is listed and nothing else |
| Selection.ListingOrderIrrelevant | filters/500_GDELT_fetcher.py:110 | listings with the same names in any order give the same file list |
| Selection.SelectNew | filters/500_GDELT_fetcher.py:113 | a file is selected exactly when its date prefix is greater than the watermark |
| Selection.SelectionIsSuffix | filters/500_GDELT_fetcher.py:113 | on a sorted list the selected files are a suffix of it |
| Selection.ReadWatermark | filters/500_GDELT_fetcher.py:31-35 | the watermark read is stripped and comes from the stored text; a missing file gives `00000000` |
| Text.Strip | filters/500_GDELT_fetcher.py:33 | `str.strip()`: the result is a slice of the input with only whitespace cut off at both ends, and it neither starts nor ends with whitespace |
| Selection.WatermarkRoundTrip | filters/500_GDELT_fetcherV3.py:50-59 | corollary: a stored stripped watermark is read back unchanged |
| Selection.FirstRunSelectsDated | filters/500_GDELT_fetcherV3.py:50-55 | without a watermark file, every file whose prefix is a valid date is selected |
| Selection.MaxPrefix | filters/500_GDELT_fetcherV3.py:81-87 | the largest of the old watermark and the prefixes of the files |
| Selection.MaxOfSortedSelection | filters/500_GDELT_fetcherV3.py:81-87 | over a sorted selection the largest prefix is that of the last file |
| Selection.NextWatermark | filters/500_GDELT_fetcherV3.py:73-87 | the new watermark is at least the old; it equals the old exactly when nothing is selected; no listed prefix exceeds it |
| Selection.RerunSelectsNothing | filters/500_GDELT_fetcherV3.py:74-77 | a second run with the new watermark selects no file |
| Batching.GroupFiles | filters/500_GDELT_fetcher.py:121-151 | the batches concatenate back to the file list, and the last batch is the last file's week |
| Batching.GroupingShape | filters/500_GDELT_fetcher.py:126-146 | every batch shares one prefix, which is its week, and neighbouring batches have different weeks |
| Batching.GroupingUnique | filters/500_GDELT_fetcher.py:121-151 | any split of the list into such maximal same-prefix batches is the grouping |
| Batching.WeeksIncrease | filters/500_GDELT_fetcher.py:110-131 | on a sorted list the batch weeks strictly increase, so each week is flushed once |
| Batching.ChunksShape | apple_fetcher.py:93 | chunks concatenate back to the list, hold 1 to 7 files each, and all but the last hold 7 |
| Batching.ChunkCount | apple_fetcher.py:93 | there are ceil(n/7) chunks |
| Dates.ParseSqlDate | filters/500_GDELT_fetcher.py:73 | a parsed SQLDATE is an 8-character valid calendar date |
| Dates.ParseFormat | filters/500_GDELT_fetcher.py:73 | formatting a valid date and parsing it gives the date back |
| Dates.FormatParse | filters/500_GDELT_fetcher.py:73 | a parseable SQLDATE is the format of its date |
| Dates.WeekOf | filters/500_GDELT_fetcherV3.py:116 | the week index of a date is the 7-day block holding its day number |
| Dates.SundayClosesWeek | filters/500_GDELT_fetcherV3.py:116 | the next day starts a new week exactly when the day is the week's label day, and weeks advance by one |
| Aggregate.DatedTagged | filters/500_GDELT_fetcher.py:73-74 | the kept rows all have a parseable SQLDATE and none with one is dropped |
| Aggregate.GroupKeys | filters/500_GDELT_fetcher.py:77 | the group keys are sorted, distinct, and exactly the tickers of the rows |
| Aggregate.ExtractWeekly | filters/500_GDELT_fetcher.py:69-84 | one line per ticker, all with the batch's week; no ticker twice; each line's tone total and count are those of that ticker's dated rows; every dated row's ticker has a line |
| Aggregate.CountsAddUp | filters/500_GDELT_fetcher.py:76-80 | the counts of a week's lines add up to the number of dated rows |
| Aggregate.DatedTotals | apple_fetcher.py:37-44 | the tone sum and count of a chunk are those of its rows with a parseable SQLDATE |
| Aggregate.ChunkSummaryCounts | apple_fetcher.py:33-46 | a chunk line carries the chunk's week, the tone total and the count of its dated rows; the count is all rows exactly when every date parses |
| Aggregate.StampOf | filters/500_GDELT_fetcherV3.py:112-113 | a row has a week exactly when its SQLDATE parses, and the week is that date's |
| Aggregate.DatedWeeks | filters/500_GDELT_fetcherV3.py:113-116 | the weeks of the dated rows, empty exactly when no row is dated |
| Aggregate.Resample | filters/500_GDELT_fetcherV3.py:111-118 | no bin exactly when no date parses; every bin has the ticker; bin weeks are consecutive |
| Aggregate.ResampleCountsRow | filters/500_GDELT_fetcherV3.py:116 | a dated row with an AvgTone is counted in the bin of its week |
| Aggregate.BinSpan | filters/500_GDELT_fetcherV3.py:116 | the bins run from the earliest to the latest dated week, empty weeks included |
| Aggregate.BinCountsAddUp | filters/500_GDELT_fetcherV3.py:116 | the bin counts add up to the number of dated rows with an AvgTone |
| Sink.Append | filters/500_GDELT_fetcher.py:139-142 | appending adds the rows after the file's old rows; a header is written exactly when the file is new; other files are untouched |
| Sink.AppendRowsEffect | apple_fetcher.py:99 | a header-less append adds the rows, adds no header, and leaves other files alone |
| Sink.AppendRowsTwice | apple_fetcher.py:99 | two appends to one file are one append of both row lists |
| Sink.WriteOrAppend | filters/500_GDELT_fetcherV2.py:66-70 | corollary: writing a new file with a header or appending to an existing one is the header-once append |
| Sink.AppendEachContents | filters/500_GDELT_fetcher.py:137-142 | appending rows one by one leaves in each file its old rows plus the rows addressed to it, in order |
| Sink.AppendEachCreates | filters/500_GDELT_fetcher.py:141 | after the appends a file exists exactly when it did before or some row was addressed to it |
| Sink.AppendEachOneHeader | filters/500_GDELT_fetcher.py:141 | every file written this way holds exactly one header |
| Sorting.Sort | filters/500_GDELT_fetcher.py:110 | `sorted`: the result is ordered and is a permutation of the input |
| Sorting.SortedUnique | filters/500_GDELT_fetcher.py:110 | two sorted permutations of one list are equal |
| Dict.Put | filters/500_GDELT_fetcherV2.py:40 | assigning a key keeps the order of the other keys and adds a new key at the end |
| Dict.GetPut | filters/500_GDELT_fetcherV2.py:40 | after assigning a key its lookup gives the new value and other lookups are unchanged |
| Dict.LastAssignmentWins | filters/500_GDELT_fetcherV3.py:39-48 | a dict built by assignments maps each key to its last assigned value |
| KeywordFile.CleanKeywords | filters/500_GDELT_fetcherV2.py:39 | the kept keywords are stripped and non-empty, and every non-blank field is kept |
| KeywordFile.CleanIsStripFilter | filters/500_GDELT_fetcherV2.py:39 | the kept keywords are exactly the stripped fields that are not blank, one per field, in field order |
| KeywordFile.ParseKeywordLine | filters/500_GDELT_fetcherV3.py:42-47 | a line is kept exactly when it holds a `:`; company and ticker are stripped; no keyword is empty |
| KeywordFile.KeywordLineFields | filters/500_GDELT_fetcherV3.py:42-47 | of a kept line, the company is the first `:` field stripped, the ticker the second, and the keywords the remaining non-blank fields stripped, in order |
| KeywordFile.LoadEnriched | filters/500_GDELT_fetcherV3.py:39-48 | the loaded dict has no repeated ticker |
| KeywordFile.EntryOfLine | filters/500_GDELT_fetcherV3.py:42-47 | corollary: a line yields an entry for a ticker exactly when it defines that ticker |
| KeywordFile.LoadedIffDefined | filters/500_GDELT_fetcherV2.py:33-40 | a ticker is loaded exactly when some line defines it |
| KeywordFile.LastLineWins | filters/500_GDELT_fetcherV2.py:40 | a loaded ticker's entry is that of the last line defining it |
| Sink.WeeklyPathInjective | filters/500_GDELT_fetcher.py:139 | different tickers write to different files; V1 and V3 (filters/500_GDELT_fetcherV3.py:120) name them alike |
| FetcherV1.TagRow | filters/500_GDELT_fetcher.py:96-100 | a row is kept exactly when it gets a ticker and has both SQLDATE and AvgTone, and it carries those values |
| FetcherV1.TagRows | filters/500_GDELT_fetcher.py:96-100 | every kept row comes from a tagged input row, and every taggable row is kept |
| FetcherV1.TaggedTickerIsKey | filters/500_GDELT_fetcher.py:89-100 | every ticker a file's rows are tagged with is a key of the loaded ticker dict |
| FetcherV1.FlushedLinesShape | filters/500_GDELT_fetcher.py:133-135 | corollary: a flush's lines all carry the batch's week and name each ticker at most once |
| FetcherV1.FlushedLinesCover | filters/500_GDELT_fetcher.py:133-135 | a flush has a line for a ticker exactly when the batch holds a dated row of it |
| FetcherV1.FlushOneLine | filters/500_GDELT_fetcher.py:137-142 | a flush appends at most one line, of the batch's week, to a ticker's file, and one exactly when the batch holds a dated row of it |
| FetcherV1.FlushContents | filters/500_GDELT_fetcher.py:133-143 | after a flush a ticker's file holds its old rows and then the flush's line for that ticker |
| FetcherV1.RunNothing | filters/500_GDELT_fetcher.py:114-116 | corollary: with nothing selected no file changes |
| FetcherV1.RunSnoc | filters/500_GDELT_fetcher.py:128-146 | corollary: processing one more batch appends exactly that batch's lines |
| FetcherV1.FlushOpen | filters/500_GDELT_fetcher.py:153-162 | the flush after the loop completes the run over all batches, and the open week is the last batch's |
| FetcherV1.ReadFile | filters/500_GDELT_fetcher.py:121-151 | one loop step keeps the loop invariant: flushed output is the run over the closed batches and the open batch holds the current week's data |
| FetcherV1.RunFiles | filters/500_GDELT_fetcher.py:118-162 | the loop's output is the run over the same-prefix grouping, and its last week is the last file's prefix |
| FetcherV1.ProcessDirectory | filters/500_GDELT_fetcher.py:107-165 | the output is the run over the grouping of the new files, and the returned watermark is the next watermark |
| FetcherV1.WatermarkOfRun | filters/500_GDELT_fetcher.py:164-165 | when files were processed the returned watermark is the prefix of the last selected file |
| FetcherV1.RunWeeksIncrease | filters/500_GDELT_fetcher.py:110-162 | a run appends to each ticker's file its lines in strictly increasing week order, so at most one line per week |
| FetcherV1.StoreWatermark | filters/500_GDELT_fetcher.py:169-171 | the watermark file is rewritten exactly when the returned value is non-empty |
| FetcherV1.RunScript | filters/500_GDELT_fetcher.py:20-171 | the script's output and stored watermark are those of the run over the loaded tickers, and all files stay well-formed |
| FetcherV2.PathOfInjective | filters/500_GDELT_fetcherV2.py:65 | different tickers write to different files |
| FetcherV2.EmitEffect | filters/500_GDELT_fetcherV2.py:62-70 | a non-empty selection is added after the file's rows; the file then exists; other files are untouched |
| FetcherV2.TickerWritesRows | filters/500_GDELT_fetcherV2.py:58-71 | after the ticker loop a ticker's file holds its old rows then that ticker's selected rows |
| FetcherV2.FileWritesRows | filters/500_GDELT_fetcherV2.py:43-73 | after the file loop a ticker's file holds its old rows then its selected rows of every readable file, in name order |
| FetcherV2.FileWritesWellFormed | filters/500_GDELT_fetcherV2.py:66-70 | every output file keeps exactly one header at its top |
| FetcherV2.ProcessFile | filters/500_GDELT_fetcherV2.py:58-71 | the ticker loop computes the per-ticker writes |
| FetcherV2.ProcessFiles | filters/500_GDELT_fetcherV2.py:43-73 | the file loop skips unreadable files and computes the per-file writes |
| FetcherV2.Script | filters/500_GDELT_fetcherV2.py:30-73 | the script computes the run over the loaded keywords and the listing |
| FetcherV2.RunOutput | filters/500_GDELT_fetcherV2.py:30-73 | a ticker's file holds its old rows then all its selected rows, it exists exactly when it did or rows were selected, and files stay well-formed |
| FetcherV2.RowReachesEveryTicker | filters/500_GDELT_fetcherV2.py:58-61 | a row matching several tickers is written to each of their files |
| FetcherV3.EmitEffect | filters/500_GDELT_fetcherV3.py:108-122 | a ticker's file gains its bins at the end and exists afterwards exactly when it did or the ticker collected rows; other files are untouched |
| FetcherV3.WeeklyFile | filters/500_GDELT_fetcherV3.py:107-125 | a ticker's file holds its old rows then the bins of everything collected for it, and exists exactly when it did or rows were collected |
| FetcherV3.WeeklyWellFormed | filters/500_GDELT_fetcherV3.py:121-122 | the header is written only to new files, so files stay well-formed |
| FetcherV3.NothingNew | filters/500_GDELT_fetcherV3.py:107-125 | with no new file no output file changes |
| FetcherV3.MatchingRowCounted | filters/500_GDELT_fetcherV3.py:94-122 | a matching dated row with an AvgTone is counted in a bin of its week in the file of every ticker it matches |
| FetcherV3.WrittenHasBin | filters/500_GDELT_fetcherV3.py:111-117 | each collected dated row with an AvgTone has a bin of its week with a positive count |
| FetcherV3.WrittenCounts | filters/500_GDELT_fetcherV3.py:111-117 | the appended counts add up to the collected dated rows with an AvgTone |
| FetcherV3.AddFile | filters/500_GDELT_fetcherV3.py:97-105 | each ticker's collected list grows by exactly the rows the file selects for it |
| FetcherV3.CollectFiles | filters/500_GDELT_fetcherV3.py:83-105 | the collected rows per ticker are those of all files in order, and the date is the maximum prefix, unreadable files included |
| FetcherV3.WriteWeekly | filters/500_GDELT_fetcherV3.py:107-125 | the output loop performs the per-ticker weekly writes |
| FetcherV3.ProcessNewFiles | filters/500_GDELT_fetcherV3.py:71-127 | the output is the weekly writes over the newly selected files, and the returned watermark is the next watermark |
| FetcherV3.RunScript | filters/500_GDELT_fetcherV3.py:129-135 | the script writes the weekly files, always stores the next watermark, and keeps files well-formed |
| AppleFetcher.FileObservations | apple_fetcher.py:51-70 | an unreadable file gives nothing, and a readable one gives at most one observation per row |
| AppleFetcher.KeptRowsSound | apple_fetcher.py:59-65 | every kept observation comes from a row whose printed text mentions an Apple keyword |
| AppleFetcher.KeptRowsComplete | apple_fetcher.py:59-65 | corollary: every row mentioning a keyword and having both columns is kept |
| AppleFetcher.ChunkLine | apple_fetcher.py:93-100 | a chunk gives at most one line, exactly when one of its files has data |
| AppleFetcher.ChunkLineLabel | apple_fetcher.py:96 | corollary: a chunk's line is labelled with the last file's prefix |
| AppleFetcher.RunChunksLabels | apple_fetcher.py:93-100 | line `i` carries the label of a non-empty chunk at or after chunk `i` |
| AppleFetcher.RunOutput | apple_fetcher.py:72-103 | the output file holds its old rows then one line per chunk with data; a header is written only when it was absent; other files are untouched |
| AppleFetcher.ProcessFiles | apple_fetcher.py:83-103 | the flush-every-seventh-file loop appends exactly the chunk lines |
| AppleFetcher.ProcessDirectory | apple_fetcher.py:72-103 | the whole function is the header creation and then the chunked run over the sorted listing |
| AppleFetcher.NoWatermark | apple_fetcher.py:79 | the run depends only on which files are listed, never on earlier runs |
| KeywordExpansion.EnhancedCompanies | for_test/keywords.py:48-53 | extras exist exactly for the three spelled names, and they are the listed ones |
| KeywordExpansion.ExpandOutcome | for_test/keywords.py:27-31 | a line without `:` is skipped; it fails exactly when the company field is blank; otherwise company and ticker are those the loaders read |
| KeywordExpansion.ExpandedKeywords | for_test/keywords.py:34-67 | the keywords have no repeats, are exactly the candidates, keep first-occurrence order, and start with the company |
| KeywordExpansion.FormatJoin | for_test/keywords.py:70 | the output line is the `:`-join of company, ticker and keywords |
| KeywordExpansion.FormatReadsBack | for_test/keywords.py:70 | loading a formatted line gives back its company, ticker and non-empty keywords |
| KeywordExpansion.ExpandReadsBack | for_test/keywords.py:22-70 | with clean aliases, the fetchers' loader reads an expanded line back as expanded, empty keywords aside |
| KeywordExpansion.CandidatesClean | for_test/keywords.py:34-53 | with a clean company, ticker and aliases, every candidate keyword is clean |
| KeywordExpansion.ExpandFileResult | for_test/keywords.py:72-85 | the file fails exactly when some line fails; otherwise it holds the expansions of the non-skipped lines in order |
| KeywordExpansion.BlankSkipped | for_test/keywords.py:79 | corollary: a blank line is skipped |
| Seqs.Dedup | for_test/keywords.py:57-67 | the de-duplicated list has no repeats, keeps every element of the input and adds none |
| Seqs.DedupFixpoint | for_test/keywords.py:57-67 | de-duplication leaves a list unchanged exactly when it has no repeats |
| Seqs.DedupOrder | for_test/keywords.py:57-67 | de-duplicated elements keep the order of their first occurrences |
| Enricher.EnrichRow | enricher.py:14-38 | a row fails exactly when its expansion fails; the output starts with `company:ticker:` |
| Enricher.ExpandRowOutcome | enricher.py:15-20 | corollary: unpacking fails exactly when the row does not split into two fields; the first-word step fails exactly when the company is blank |
| Enricher.KeywordSetMembers | enricher.py:37 | corollary: the key set has no empty string and holds exactly the non-empty keywords |
| Enricher.ExtrasJoinSet | enricher.py:29-34 | the extras of the stripped company are all in the key set |
| Enricher.SameAsExpander | enricher.py:14-37 | on a stripped two-field row both expanders fail alike and agree on company, ticker and keyword set |
| Enricher.RowReadsBack | enricher.py:38 | the fetchers' loader reads an enriched line back with its company, ticker, and exactly the key set |
| Enricher.NonBlankLinesShape | enricher.py:41-42 | the kept lines are stripped and non-blank, and every non-blank line is kept |
| Enricher.EnrichAllResult | enricher.py:44 | the run fails exactly when some row fails, at the first failing row; otherwise line `i` is the enrichment of row `i` |
| Enricher.ScriptResult | enricher.py:41-48 | the file fails exactly when some non-blank line fails; otherwise it has one line per non-blank input line |

## Left out

- File reading: pandas `read_csv` with tab separation and `on_bad_lines='skip'` is not modelled. A file is a `Reader` result, the rows already parsed. A reader error is `None`.
- Row text: `str(row)`, the printed row that V1 and the apple filter search, is a given string field of the row.
- Missing cells: a NaN cell is `None`. `dropna` keeps the rows whose two kept columns are both present.
- Tone means: the floating-point mean of AvgTone is not modelled. Lines carry the tone sum and count over `real`, so the mean is their quotient, and no rounding is claimed.
- Text: case mapping and `isspace` are ASCII-only. There is no Unicode case folding.
- Network: the Wikidata alias lookups of `for_test/keywords.py` and `enricher.py` become the parameter `aliasesOf`. The network call and its exception handler are not modelled.
- KeywordExpansion.ExpandKeywords: `aliasesOf` returns the aliases after the `isinstance(kw, dict)` conversion of the de-duplication loop. A label that is a JSON object becomes its `value` field, or its printed form when it has none; that conversion and the JSON decoding are not modelled separately.
- Enricher.EnrichRow: `aliasesOf` returns the aliases after `str(k)`. A label that is a JSON object prints as `{'value': ...}`, which holds `:`, so its line splits into extra fields when read back. Enricher.RowReadsBack requires every key to be free of `:` and so excludes that case.
- Enricher.SameAsExpander: assumes both scripts receive the same alias strings. For a label that is a JSON object they differ: one takes its `value` field, the other its printed form.
- Enricher.EnrichRow: the iteration order of Python's `set` is a parameter `order` from the key set to a list. The proofs hold for any order that lists each key once.
- Aggregate.ExtractWeekly: the group keys are produced sorted, but pandas' exact order of output lines is not claimed. Each ticker's line goes to its own file, so only the per-file order matters.
- Filesystem: output files are a map from path to lines. `os.makedirs`, `os.listdir` (the listing is a parameter) and the watermark file (`Option<string>`) are not modelled as I/O.
- Logging: `print` calls are not modelled.
- Dates.ParseSqlDate: accepts every year from 1 to 9999. pandas before 3.0 parses dates at nanosecond precision and turns any date outside 1677-09-21 to 2262-04-11 into NaT, which drops the row. The pandas version is not pinned, so that range is not modelled.
- Dates: the resampled weeks of V3 are week indices (Sunday-ending, from a day count). The week-end dates pandas prints are not modelled.
- V2 and V3 company name: V3's loader keeps the company name and V2's discards it. The model's single loader `KeywordFile.LoadEnriched` keeps it for both scripts, and nothing downstream uses it.
- Other scripts: the download scripts, the HTTP server and the thin API wrappers of the repository are not part of this model.

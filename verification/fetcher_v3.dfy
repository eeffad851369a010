/** `500_GDELT_fetcherV3.py`: the `.CSV` files whose date prefix is above
    the watermark, in name order; each ticker of the enriched keyword file
    collects the SQLDATE and AvgTone of the rows whose actor names mention
    one of its keywords, and a ticker that collected anything has its rows
    resampled into weekly bins appended to its own file. The newest date
    prefix seen becomes the new watermark. */
module FetcherV3 {
  import opened Wrappers
  import opened Seqs
  import opened Text
  import opened Rows
  import opened Matching
  import opened Dict
  import opened KeywordFile
  import opened Selection
  import opened Aggregate
  import opened Sink
  import opened ActorSelection

  const Columns: seq<string> := ["SQLDATE", "Ticker", "AvgTone", "Count"]

  /** One ticker's output: nothing when it collected no row; otherwise its
      weekly bins, appended with the header only when the file is new. */
  function Emit(fs: Files<WeekBin>, ticker: string, rows: seq<DateTone>): Files<WeekBin> {
    if rows == [] then fs else Append(fs, WeeklyPath(ticker), Columns, Resample(rows, ticker))
  }

  /** The weekly bins a ticker's collected rows give, none when it collected
      nothing. */
  function Written(ticker: string, rows: seq<DateTone>): seq<WeekBin> {
    if rows == [] then [] else Resample(rows, ticker)
  }

  /** The ticker's file gains its bins at the end, exists afterwards when it
      did before or the ticker collected rows, every other file is as it was,
      and well-formed files stay well-formed. */
  lemma EmitEffect(fs: Files<WeekBin>, ticker: string, rows: seq<DateTone>, path: string)
    ensures RowsOf(Lines(Emit(fs, ticker, rows), path))
            == RowsOf(Lines(fs, path)) + (if path == WeeklyPath(ticker) then Written(ticker, rows) else [])
    ensures path in Emit(fs, ticker, rows) <==> path in fs || (path == WeeklyPath(ticker) && rows != [])
    ensures path != WeeklyPath(ticker) ==> Lines(Emit(fs, ticker, rows), path) == Lines(fs, path)
    ensures AllWellFormed(fs) ==> AllWellFormed(Emit(fs, ticker, rows))
  {
    if rows == [] {
      assert RowsOf(Lines(fs, path)) + [] == RowsOf(Lines(fs, path));
    }
  }

  /** The output loop over the tickers, in dict order, each with what it
      collected from `files`. */
  function WeeklyWrites(fs: Files<WeekBin>, d: Dict<string, Entry>, read: Reader, files: seq<string>): Files<WeekBin> {
    if d == [] then fs
    else Emit(WeeklyWrites(fs, DropLast(d), read, files), Last(d).0, Collected(read, Last(d).1.keywords, files))
  }

  /** A file no ticker writes to is untouched. */
  lemma {:induction false} WeeklyElsewhere(fs: Files<WeekBin>, d: Dict<string, Entry>, read: Reader, files: seq<string>, path: string)
    requires forall k :: 0 <= k < |d| ==> WeeklyPath(d[k].0) != path
    ensures Lines(WeeklyWrites(fs, d, read, files), path) == Lines(fs, path)
    ensures path in WeeklyWrites(fs, d, read, files) <==> path in fs
  {
    if d != [] {
      WeeklyElsewhere(fs, DropLast(d), read, files, path);
      EmitEffect(WeeklyWrites(fs, DropLast(d), read, files), Last(d).0, Collected(read, Last(d).1.keywords, files), path);
    }
  }

  /** The last ticker of the dict appends its bins after whatever its file
      held: no earlier ticker shares its file. */
  lemma LastTickerWeekly(fs: Files<WeekBin>, d: Dict<string, Entry>, read: Reader, files: seq<string>)
    requires d != [] && Distinct(Keys(d))
    ensures var t, rows := Last(d).0, Collected(read, Last(d).1.keywords, files);
            RowsOf(Lines(WeeklyWrites(fs, d, read, files), WeeklyPath(t)))
              == RowsOf(Lines(fs, WeeklyPath(t))) + Written(t, rows) &&
            (WeeklyPath(t) in WeeklyWrites(fs, d, read, files) <==> WeeklyPath(t) in fs || rows != [])
  {
    var front, t := DropLast(d), Last(d).0;
    DistinctKeysFront(d);
    forall k | 0 <= k < |front|
      ensures WeeklyPath(front[k].0) != WeeklyPath(t)
    {
      WeeklyPathInjective(front[k].0, t);
    }
    WeeklyElsewhere(fs, front, read, files, WeeklyPath(t));
    EmitEffect(WeeklyWrites(fs, front, read, files), t, Collected(read, Last(d).1.keywords, files), WeeklyPath(t));
  }

  /** After the output loop, the file of the ticker at `i` holds its old
      rows followed by the weekly bins of everything its keywords collected
      from the files, and it exists exactly when it did before or the ticker
      collected some row. */
  lemma {:induction false} WeeklyFile(fs: Files<WeekBin>, d: Dict<string, Entry>, read: Reader, files: seq<string>, i: nat)
    requires Distinct(Keys(d)) && i < |d|
    ensures var t, rows := d[i].0, Collected(read, d[i].1.keywords, files);
            RowsOf(Lines(WeeklyWrites(fs, d, read, files), WeeklyPath(t)))
              == RowsOf(Lines(fs, WeeklyPath(t))) + Written(t, rows) &&
            (WeeklyPath(t) in WeeklyWrites(fs, d, read, files) <==> WeeklyPath(t) in fs || rows != [])
  {
    if i == |d| - 1 {
      LastTickerWeekly(fs, d, read, files);
    } else {
      var front, t := DropLast(d), d[i].0;
      DistinctKeysFront(d);
      assert front[i] == d[i];
      WeeklyFile(fs, front, read, files, i);
      WeeklyPathInjective(Last(d).0, t);
      EmitEffect(WeeklyWrites(fs, front, read, files), Last(d).0, Collected(read, Last(d).1.keywords, files), WeeklyPath(t));
    }
  }

  /** The output loop keeps well-formed files well-formed. */
  lemma {:induction false} WeeklyWellFormed(fs: Files<WeekBin>, d: Dict<string, Entry>, read: Reader, files: seq<string>)
    requires AllWellFormed(fs)
    ensures AllWellFormed(WeeklyWrites(fs, d, read, files))
  {
    if d != [] {
      WeeklyWellFormed(fs, DropLast(d), read, files);
      EmitEffect(WeeklyWrites(fs, DropLast(d), read, files), Last(d).0, Collected(read, Last(d).1.keywords, files), "");
    }
  }

  /** With no new file nothing is collected and no file is touched. */
  lemma {:induction false} NothingNew(fs: Files<WeekBin>, d: Dict<string, Entry>, read: Reader)
    ensures WeeklyWrites(fs, d, read, []) == fs
  {
    if d != [] {
      NothingNew(fs, DropLast(d), read);
    }
  }

  /** A row of a new readable file whose actor names mention one of a
      ticker's keywords, and whose SQLDATE parses and AvgTone is present, is
      counted in a bin of its week in that ticker's file; the same row counts
      for every ticker it mentions. */
  lemma MatchingRowCounted(fs: Files<WeekBin>, d: Dict<string, Entry>, read: Reader, files: seq<string>,
                           i: nat, f: nat, r: nat)
    requires Distinct(Keys(d)) && i < |d|
    requires f < |files| && read(files[f]).Some? && r < |read(files[f]).value|
    requires ActorMatch(read(files[f]).value[r], d[i].1.keywords)
    requires Counted(StampOf(Project(read(files[f]).value[r])))
    ensures exists b :: b in RowsOf(Lines(WeeklyWrites(fs, d, read, files), WeeklyPath(d[i].0))) &&
              b.ticker == d[i].0 && b.week == StampOf(Project(read(files[f]).value[r])).week.value && b.count > 0
  {
    var t, x := d[i].0, Project(read(files[f]).value[r]);
    var rows := Collected(read, d[i].1.keywords, files);
    CollectedComplete(read, d[i].1.keywords, files, f, r);
    var j :| 0 <= j < |rows| && rows[j] == x;
    WrittenHasBin(t, rows, j);
    var b :| b in Written(t, rows) && b.ticker == t && b.week == StampOf(x).week.value && b.count > 0;
    WeeklyFile(fs, d, read, files, i);
    assert b in RowsOf(Lines(fs, WeeklyPath(t))) + Written(t, rows);
  }

  /** A collected row with a parseable SQLDATE and an AvgTone is counted in
      a written bin of its week. */
  lemma WrittenHasBin(ticker: string, rows: seq<DateTone>, j: nat)
    requires j < |rows| && Counted(StampOf(rows[j]))
    ensures exists b :: b in Written(ticker, rows) && b.ticker == ticker && b.week == StampOf(rows[j]).week.value && b.count > 0
  {
    ResampleCountsRow(rows, ticker, j);
    var k :| 0 <= k < |Resample(rows, ticker)| &&
             Resample(rows, ticker)[k].week == StampOf(rows[j]).week.value && Resample(rows, ticker)[k].count > 0;
    assert Resample(rows, ticker)[k] in Written(ticker, rows);
  }

  /** Resampling neither loses nor double-counts a row: the counts of the
      bins a ticker appends add up to the number of its collected rows with
      a parseable SQLDATE and an AvgTone. */
  lemma WrittenCounts(ticker: string, rows: seq<DateTone>)
    ensures SumOfBinCounts(Written(ticker, rows)) == |Filter(Map(rows, StampOf), Counted)|
  {
    var ss := Map(rows, StampOf);
    BinCountsAddUp(ss, ticker);
    if rows == [] {
      assert ss == [];
    }
  }

  /** The collected rows of the first `i + 1` files: those of the first `i`,
      then what file `i` selects. */
  lemma CollectedSnoc(read: Reader, keywords: seq<string>, files: seq<string>, i: nat)
    requires i < |files|
    ensures Collected(read, keywords, files[..i + 1])
            == Collected(read, keywords, files[..i]) + FileSelected(read, keywords, files[i])
  {
    assert DropLast(files[..i + 1]) == files[..i];
  }

  /** The running maximum over the first `i + 1` files: the one over the
      first `i`, raised to file `i`'s date prefix when that is above it. */
  lemma MaxPrefixSnoc(watermark: string, files: seq<string>, i: nat)
    requires i < |files|
    ensures var m, p := MaxPrefix(watermark, files[..i]), DatePrefix(files[i]);
            MaxPrefix(watermark, files[..i + 1]) == if Less(m, p) then p else m
  {
    assert DropLast(files[..i + 1]) == files[..i];
  }

  /** One readable, non-empty file: each ticker's list of frames grows by
      what the ticker's keywords select from it. */
  method AddFile(data: seq<seq<DateTone>>, d: Dict<string, Entry>, rows: seq<Row>)
    returns (data': seq<seq<DateTone>>)
    requires |data| == |d|
    ensures |data'| == |d|
    ensures forall k :: 0 <= k < |d| ==> data'[k] == data[k] + Selected(rows, d[k].1.keywords)
  {
    data' := data;
    var j := 0;
    while j < |d|
      invariant j <= |d| && |data'| == |d|
      invariant forall k :: 0 <= k < j ==> data'[k] == data[k] + Selected(rows, d[k].1.keywords)
      invariant forall k :: j <= k < |d| ==> data'[k] == data[k]
    {
      var filtered := Selected(rows, d[j].1.keywords);
      if filtered != [] {
        data' := data'[j := data'[j] + filtered];
      } else {
        assert data'[j] + filtered == data'[j];
      }
      j := j + 1;
    }
  }

  /** The file loop of `process_new_files`: the watermark is raised before
      the file is read, so an unreadable or empty file still counts; then
      every ticker takes its rows from the file. */
  method CollectFiles(d: Dict<string, Entry>, read: Reader, files: seq<string>, lastWeek: string)
    returns (data: seq<seq<DateTone>>, maxDate: string)
    ensures |data| == |d|
    ensures forall k :: 0 <= k < |d| ==> data[k] == Collected(read, d[k].1.keywords, files)
    ensures maxDate == MaxPrefix(lastWeek, files)
  {
    data := seq(|d|, _ => []);
    maxDate := lastWeek;
    var i := 0;
    while i < |files|
      invariant i <= |files| && |data| == |d|
      invariant forall k :: 0 <= k < |d| ==> data[k] == Collected(read, d[k].1.keywords, files[..i])
      invariant maxDate == MaxPrefix(lastWeek, files[..i])
    {
      var fileDate := DatePrefix(files[i]);
      MaxPrefixSnoc(lastWeek, files, i);
      if Less(maxDate, fileDate) {
        maxDate := fileDate;
      }
      var prev := data;
      match read(files[i]) {
        case None =>
        case Some(rows) =>
          if rows != [] {
            data := AddFile(data, d, rows);
          }
      }
      forall k | 0 <= k < |d|
        ensures data[k] == Collected(read, d[k].1.keywords, files[..i + 1])
      {
        CollectedSnoc(read, d[k].1.keywords, files, i);
        assert data[k] == prev[k] + FileSelected(read, d[k].1.keywords, files[i]);
      }
      i := i + 1;
    }
    TakeAll(files);
  }

  /** The output loop of `process_new_files`, ticker by ticker. */
  method WriteWeekly(fs: Files<WeekBin>, d: Dict<string, Entry>, read: Reader, files: seq<string>,
                     data: seq<seq<DateTone>>)
    returns (out: Files<WeekBin>)
    requires |data| == |d|
    requires forall k :: 0 <= k < |d| ==> data[k] == Collected(read, d[k].1.keywords, files)
    ensures out == WeeklyWrites(fs, d, read, files)
  {
    out := fs;
    var k := 0;
    while k < |d|
      invariant k <= |d|
      invariant out == WeeklyWrites(fs, d[..k], read, files)
    {
      var (ticker, _) := d[k];
      TakeSnoc(d, k);
      assert DropLast(d[..k + 1]) == d[..k];
      if data[k] != [] {
        out := Append(out, WeeklyPath(ticker), Columns, Resample(data[k], ticker));
      }
      k := k + 1;
    }
    TakeAll(d);
  }

  /** `process_new_files`: nothing is written and the watermark is kept when
      no file is new; otherwise every ticker's bins are appended and the
      newest date prefix is returned. */
  method ProcessNewFiles(fs: Files<WeekBin>, d: Dict<string, Entry>, read: Reader, listing: seq<string>, lastWeek: string)
    returns (out: Files<WeekBin>, newWeek: string)
    ensures out == WeeklyWrites(fs, d, read, SelectNew(CsvFiles(listing), lastWeek))
    ensures newWeek == NextWatermark(CsvFiles(listing), lastWeek)
  {
    var files := CsvFiles(listing);
    var newFiles := SelectNew(files, lastWeek);
    if newFiles == [] {
      NothingNew(fs, d, read);
      return fs, lastWeek;
    }
    var data;
    data, newWeek := CollectFiles(d, read, newFiles, lastWeek);
    out := WriteWeekly(fs, d, read, newFiles, data);
  }

  /** The script: load the dict, read the watermark, process the new files
      and store the returned watermark, changed or not. */
  method RunScript(keywordLines: seq<string>, stored: Option<string>, read: Reader,
                   listing: seq<string>, fs: Files<WeekBin>)
    returns (out: Files<WeekBin>, stored': Option<string>)
    ensures out == WeeklyWrites(fs, LoadEnriched(keywordLines), read, SelectNew(CsvFiles(listing), ReadWatermark(stored)))
    ensures stored' == Some(NextWatermark(CsvFiles(listing), ReadWatermark(stored)))
    ensures AllWellFormed(fs) ==> AllWellFormed(out)
  {
    var enriched := LoadEnriched(keywordLines);
    var lastWeek := ReadWatermark(stored);
    var newWeek;
    out, newWeek := ProcessNewFiles(fs, enriched, read, listing, lastWeek);
    if AllWellFormed(fs) {
      WeeklyWellFormed(fs, enriched, read, SelectNew(CsvFiles(listing), lastWeek));
    }
    stored' := Some(newWeek);
  }
}

/** `filters/500_GDELT_fetcher.py`: every matched row is attributed to the
    first ticker found in it, the new daily files are cut into batches at
    each change of date prefix, each batch adds one line per ticker to that
    ticker's weekly file, and the prefix of the newest file becomes the
    stored watermark. */
module FetcherV1 {
  import opened Wrappers
  import opened Seqs
  import opened Sorting
  import opened Dict
  import opened Dates
  import opened Rows
  import opened Matching
  import opened KeywordFile
  import opened Selection
  import opened Batching
  import opened BatchLoop
  import opened Aggregate
  import opened Sink

  /** The columns of a weekly line, `["Week", "Ticker", "AvgTone", "Count"]`. */
  const Columns: seq<string> := ["Week", "Ticker", "AvgTone", "Count"]

  /** The file a weekly line is appended to: its ticker's. */
  function PathOf(tw: TickerWeek): string {
    WeeklyPath(tw.ticker)
  }

  /** One row of `process_csv_file`: the ticker `assign_ticker` finds, and
      the row survives `dropna()` only with a date and a tone. */
  function TagRow(row: Row, tickersLower: seq<string>): (t: Option<Tagged>)
    ensures t.Some? <==> AssignTicker(row.text, tickersLower).Some? && row.sqlDate.Some? && row.avgTone.Some?
    ensures t.Some? ==> t.value.ticker == AssignTicker(row.text, tickersLower).value
                        && t.value.date == row.sqlDate.value && t.value.tone == row.avgTone.value
  {
    match AssignTicker(row.text, tickersLower)
    case None => None
    case Some(ticker) =>
      if row.sqlDate.Some? && row.avgTone.Some? then Some(Tagged(row.sqlDate.value, row.avgTone.value, ticker))
      else None
  }

  function TagOf(tickersLower: seq<string>): Row -> Option<Tagged> {
    (row: Row) => TagRow(row, tickersLower)
  }

  /** The tagged rows of one readable file: exactly the rows with a ticker,
      a date and a tone, in file order. */
  function TagRows(rows: seq<Row>, tickersLower: seq<string>): (r: seq<Tagged>)
    ensures |r| <= |rows|
    ensures forall j :: 0 <= j < |r| ==> exists i :: 0 <= i < |rows| && TagRow(rows[i], tickersLower) == Some(r[j])
    ensures forall i :: 0 <= i < |rows| && TagRow(rows[i], tickersLower).Some? ==>
              TagRow(rows[i], tickersLower).value in r
  {
    var r := FilterMap(rows, TagOf(tickersLower));
    assert forall i :: 0 <= i < |rows| ==> TagOf(tickersLower)(rows[i]) == TagRow(rows[i], tickersLower);
    r
  }

  /** `process_csv_file`: an unreadable file yields no rows. */
  function ProcessCsv(read: Reader, name: string, tickersLower: seq<string>): seq<Tagged> {
    match read(name)
    case None => []
    case Some(rows) => TagRows(rows, tickersLower)
  }

  /** Every ticker a row is attributed to is a key of the ticker file. */
  lemma TaggedTickerIsKey(read: Reader, name: string, lines: seq<string>)
    ensures var tagged := ProcessCsv(read, name, TickersLower(LoadTickers(lines)));
            forall j :: 0 <= j < |tagged| ==> tagged[j].ticker in Keys(LoadTickers(lines))
  {
    var tl := TickersLower(LoadTickers(lines));
    var tagged := ProcessCsv(read, name, tl);
    if read(name).Some? {
      var rows := read(name).value;
      forall j | 0 <= j < |tagged|
        ensures tagged[j].ticker in Keys(LoadTickers(lines))
      {
        var i :| 0 <= i < |rows| && TagRow(rows[i], tl) == Some(tagged[j]);
        AssignedTickerIsKey(lines, rows[i].text);
      }
    }
  }

  /** `process_csv_file` as the frame each file gives the batch loop. */
  function FrameOf(read: Reader, tickersLower: seq<string>): string -> seq<Tagged> {
    (name: string) => ProcessCsv(read, name, tickersLower)
  }

  /** `pd.concat(weekly_batch)`: the rows of a batch's files, in file order. */
  function BatchRows(read: Reader, tickersLower: seq<string>, files: seq<string>): seq<Tagged> {
    Gather(FrameOf(read, tickersLower), files)
  }

  /** The lines one flush appends: none for a batch without rows, else the
      per-ticker summary of the batch. */
  function FlushedLines(week: string, rows: seq<Tagged>): seq<TickerWeek> {
    if rows == [] then [] else ExtractWeekly(rows, week)
  }

  /** One flush of `process_directory`: each summary line is appended to its
      ticker's file, with a header when the file is new. */
  function Flush(fs: Files<TickerWeek>, week: string, rows: seq<Tagged>): (fs': Files<TickerWeek>)
    ensures AllWellFormed(fs) ==> AllWellFormed(fs')
  {
    AppendEach(fs, Columns, FlushedLines(week, rows), PathOf)
  }

  function ForTicker(t: string): TickerWeek -> bool {
    (tw: TickerWeek) => tw.ticker == t
  }

  lemma {:induction false} FilterSame<T>(s: seq<T>, p: T -> bool, q: T -> bool)
    requires forall i :: 0 <= i < |s| ==> p(s[i]) == q(s[i])
    ensures Filter(s, p) == Filter(s, q)
  {
    if s != [] {
      FilterSame(s[1..], p, q);
    }
  }

  /** A summary line goes to ticker `t`'s file exactly when it is `t`'s. */
  lemma SamePath(tw: TickerWeek, t: string)
    ensures AddressedTo(PathOf, WeeklyPath(t))(tw) == ForTicker(t)(tw)
  {
    WeeklyPathInjective(tw.ticker, t);
    assert AddressedTo(PathOf, WeeklyPath(t))(tw) == (PathOf(tw) == WeeklyPath(t));
    assert ForTicker(t)(tw) == (tw.ticker == t);
  }

  /** Appending summary lines one by one adds to a ticker's file exactly
      the lines of that ticker, in order. */
  lemma AppendByTicker(fs: Files<TickerWeek>, lines: seq<TickerWeek>, t: string)
    ensures RowsOf(Lines(AppendEach(fs, Columns, lines, PathOf), WeeklyPath(t)))
            == RowsOf(Lines(fs, WeeklyPath(t))) + Filter(lines, ForTicker(t))
  {
    AppendEachContents(fs, Columns, lines, PathOf, WeeklyPath(t));
    forall i | 0 <= i < |lines|
      ensures AddressedTo(PathOf, WeeklyPath(t))(lines[i]) == ForTicker(t)(lines[i])
    {
      SamePath(lines[i], t);
    }
    FilterSame(lines, AddressedTo(PathOf, WeeklyPath(t)), ForTicker(t));
  }

  /** A flush adds to a ticker's file exactly the summary lines of that
      ticker. */
  lemma FlushContents(fs: Files<TickerWeek>, week: string, rows: seq<Tagged>, t: string)
    ensures RowsOf(Lines(Flush(fs, week, rows), WeeklyPath(t)))
            == RowsOf(Lines(fs, WeeklyPath(t))) + Filter(FlushedLines(week, rows), ForTicker(t))
  {
    AppendByTicker(fs, FlushedLines(week, rows), t);
  }

  /** Among lines with distinct tickers at most one belongs to `t`. */
  lemma {:induction false} AtMostOne(lines: seq<TickerWeek>, t: string)
    requires forall i, j :: 0 <= i < j < |lines| ==> lines[i].ticker != lines[j].ticker
    ensures |Filter(lines, ForTicker(t))| <= 1
    ensures |Filter(lines, ForTicker(t))| == 1 <==> exists i :: 0 <= i < |lines| && lines[i].ticker == t
  {
    if lines != [] {
      AtMostOne(lines[1..], t);
      assert forall i :: 1 <= i < |lines| ==> lines[i] == lines[1..][i - 1];
      if lines[0].ticker == t {
        FilterNone(lines[1..], ForTicker(t));
      }
    }
  }

  /** The lines of one flush: one per ticker, all labelled with the batch's
      week. */
  predicate FlushShape(lines: seq<TickerWeek>, week: string) {
    (forall i, j :: 0 <= i < j < |lines| ==> lines[i].ticker != lines[j].ticker) &&
    (forall i :: 0 <= i < |lines| ==> lines[i].week == week)
  }

  lemma FlushedLinesShape(week: string, rows: seq<Tagged>)
    ensures FlushShape(FlushedLines(week, rows), week)
  {
  }

  /** Summary lines that count dated rows and cover every dated row name
      exactly the tickers of the dated rows. */
  lemma LinesMatchRows(rows: seq<Tagged>, out: seq<TickerWeek>, t: string)
    requires forall i :: 0 <= i < |out| ==> CountKey(DatedTagged(rows), TickerOf, out[i].ticker) > 0
    requires forall i :: 0 <= i < |rows| && ParseSqlDate(rows[i].date).Some? ==>
               exists j :: 0 <= j < |out| && out[j].ticker == rows[i].ticker
    ensures (exists j :: 0 <= j < |out| && out[j].ticker == t) <==>
            exists i :: 0 <= i < |rows| && ParseSqlDate(rows[i].date).Some? && rows[i].ticker == t
  {
    if exists j :: 0 <= j < |out| && out[j].ticker == t {
      var j :| 0 <= j < |out| && out[j].ticker == t;
      var dated := DatedTagged(rows);
      var k :| 0 <= k < |dated| && TickerOf(dated[k]) == t;
      var i :| 0 <= i < |rows| && rows[i] == dated[k];
    }
  }

  /** A flush writes a line for `t` exactly when the batch has a dated row
      of `t`. */
  lemma FlushedLinesCover(week: string, rows: seq<Tagged>, t: string)
    ensures (exists j :: 0 <= j < |FlushedLines(week, rows)| && FlushedLines(week, rows)[j].ticker == t) <==>
            exists i :: 0 <= i < |rows| && ParseSqlDate(rows[i].date).Some? && rows[i].ticker == t
  {
    if rows != [] {
      var out := ExtractWeekly(rows, week);
      assert FlushedLines(week, rows) == out;
      LinesMatchRows(rows, out, t);
    } else {
      assert FlushedLines(week, rows) == [];
    }
  }

  /** Each flush adds at most one line to a ticker's file, labelled with the
      batch's week, and adds one exactly when the batch has a dated row of
      that ticker. */
  lemma FlushOneLine(week: string, rows: seq<Tagged>, t: string)
    ensures var added := Filter(FlushedLines(week, rows), ForTicker(t));
            |added| <= 1 && forall j :: 0 <= j < |added| ==> added[j].week == week
    ensures |Filter(FlushedLines(week, rows), ForTicker(t))| == 1 <==>
            exists i :: 0 <= i < |rows| && ParseSqlDate(rows[i].date).Some? && rows[i].ticker == t
  {
    var lines := FlushedLines(week, rows);
    FlushedLinesShape(week, rows);
    AtMostOne(lines, t);
    FlushedLinesCover(week, rows, t);
  }

  /** The lines the flush of batch `b` appends. */
  function BatchLines(b: Batch, read: Reader, tickersLower: seq<string>): seq<TickerWeek> {
    FlushedLines(b.week, BatchRows(read, tickersLower, b.files))
  }

  /** The lines of every batch's flush, batch by batch. */
  function RunLines(bs: seq<Batch>, read: Reader, tickersLower: seq<string>): (gs: seq<seq<TickerWeek>>)
    ensures |gs| == |bs|
  {
    if bs == [] then [] else RunLines(DropLast(bs), read, tickersLower) + [BatchLines(Last(bs), read, tickersLower)]
  }

  /** The `i`-th group of lines is the flush of the `i`-th batch. */
  lemma {:induction false} RunLinesIndex(bs: seq<Batch>, read: Reader, tickersLower: seq<string>, i: nat)
    requires i < |bs|
    ensures RunLines(bs, read, tickersLower)[i] == BatchLines(bs[i], read, tickersLower)
  {
    if i < |bs| - 1 {
      RunLinesIndex(DropLast(bs), read, tickersLower, i);
      assert DropLast(bs)[i] == bs[i];
    }
  }

  /** The appends of a run: each group of lines in turn, line by line. */
  function AppendAll(fs: Files<TickerWeek>, gs: seq<seq<TickerWeek>>): (fs': Files<TickerWeek>)
    ensures AllWellFormed(fs) ==> AllWellFormed(fs')
  {
    if gs == [] then fs else AppendEach(AppendAll(fs, DropLast(gs)), Columns, Last(gs), PathOf)
  }

  /** The lines of ticker `t` among the groups, in order. */
  function Picked(gs: seq<seq<TickerWeek>>, t: string): seq<TickerWeek> {
    if gs == [] then [] else Picked(DropLast(gs), t) + Filter(Last(gs), ForTicker(t))
  }

  /** The appends leave every ticker file as it was, followed by that
      ticker's lines. */
  lemma {:induction false} AppendAllContents(fs: Files<TickerWeek>, gs: seq<seq<TickerWeek>>, t: string)
    ensures RowsOf(Lines(AppendAll(fs, gs), WeeklyPath(t))) == RowsOf(Lines(fs, WeeklyPath(t))) + Picked(gs, t)
  {
    if gs != [] {
      AppendAllContents(fs, DropLast(gs), t);
      AppendByTicker(AppendAll(fs, DropLast(gs)), Last(gs), t);
    }
  }

  /** Groups shaped like flushes, the `i`-th labelled `weeks[i]`. */
  predicate Labelled(gs: seq<seq<TickerWeek>>, weeks: seq<string>) {
    |gs| == |weeks| && forall i :: 0 <= i < |gs| ==> FlushShape(gs[i], weeks[i])
  }

  predicate Increasing(weeks: seq<string>) {
    forall i, j :: 0 <= i < j < |weeks| ==> Text.Less(weeks[i], weeks[j])
  }

  /** Each picked line carries one of the group labels. */
  lemma {:induction false} PickedWeeks(gs: seq<seq<TickerWeek>>, weeks: seq<string>, t: string)
    requires Labelled(gs, weeks)
    ensures forall i :: 0 <= i < |Picked(gs, t)| ==>
              exists k :: 0 <= k < |weeks| && Picked(gs, t)[i].week == weeks[k]
  {
    if gs != [] {
      var front, fw := DropLast(gs), DropLast(weeks);
      assert Labelled(front, fw) by {
        assert forall i :: 0 <= i < |front| ==> front[i] == gs[i] && fw[i] == weeks[i];
      }
      PickedWeeks(front, fw, t);
      var p0 := Picked(front, t);
      var added := Filter(Last(gs), ForTicker(t));
      var p := p0 + added;
      assert Picked(gs, t) == p;
      forall i | 0 <= i < |p|
        ensures exists k :: 0 <= k < |weeks| && p[i].week == weeks[k]
      {
        if i < |p0| {
          assert p[i] == p0[i];
          var k :| 0 <= k < |fw| && p0[i].week == fw[k];
          assert weeks[k] == fw[k];
        } else {
          assert p[i] == added[i - |p0|];
          assert p[i] in Last(gs);
          var m :| 0 <= m < |Last(gs)| && Last(gs)[m] == p[i];
          assert FlushShape(gs[|gs| - 1], weeks[|gs| - 1]);
          assert p[i].week == weeks[|gs| - 1];
        }
      }
      assert forall i :: 0 <= i < |Picked(gs, t)| ==> Picked(gs, t)[i] == p[i];
    } else {
      assert Picked(gs, t) == [];
    }
  }

  /** When the labels increase, so do the weeks of one ticker's lines: no
      week is written twice to a ticker's file. */
  lemma {:induction false} PickedIncreasing(gs: seq<seq<TickerWeek>>, weeks: seq<string>, t: string)
    requires Labelled(gs, weeks) && Increasing(weeks)
    ensures forall i, j :: 0 <= i < j < |Picked(gs, t)| ==> Text.Less(Picked(gs, t)[i].week, Picked(gs, t)[j].week)
  {
    if gs != [] {
      var front, fw := DropLast(gs), DropLast(weeks);
      assert Labelled(front, fw) && Increasing(fw) by {
        assert forall i :: 0 <= i < |front| ==> front[i] == gs[i] && fw[i] == weeks[i];
      }
      PickedIncreasing(front, fw, t);
      PickedWeeks(front, fw, t);
      var last := Last(gs);
      assert FlushShape(last, Last(weeks)) by {
        assert last == gs[|gs| - 1];
      }
      AtMostOne(last, t);
      var p0 := Picked(front, t);
      var added := Filter(last, ForTicker(t));
      var p := p0 + added;
      assert Picked(gs, t) == p;
      forall i, j | 0 <= i < j < |p|
        ensures Text.Less(p[i].week, p[j].week)
      {
        if j < |p0| {
          assert p[i] == p0[i] && p[j] == p0[j];
        } else {
          assert i < |p0| && p[i] == p0[i];
          var k :| 0 <= k < |fw| && p0[i].week == fw[k];
          assert p[j] == added[j - |p0|];
          assert p[j] in last;
          var m :| 0 <= m < |last| && last[m] == p[j];
          assert p[j].week == weeks[|weeks| - 1];
          assert Text.Less(weeks[k], weeks[|weeks| - 1]);
        }
      }
      assert forall i :: 0 <= i < |Picked(gs, t)| ==> Picked(gs, t)[i] == p[i];
    }
  }

  /** The flushes of a run, one per batch, in batch order. */
  function RunBatches(fs: Files<TickerWeek>, bs: seq<Batch>, read: Reader, tickersLower: seq<string>): (fs': Files<TickerWeek>)
    ensures AllWellFormed(fs) ==> AllWellFormed(fs')
  {
    AppendAll(fs, RunLines(bs, read, tickersLower))
  }

  /** A run with no batches leaves the files alone. */
  lemma RunNothing(fs: Files<TickerWeek>, read: Reader, tickersLower: seq<string>)
    ensures RunBatches(fs, [], read, tickersLower) == fs
  {
    assert RunLines([], read, tickersLower) == [];
  }

  /** The batch labels, in order. */
  function Weeks(bs: seq<Batch>): (ws: seq<string>)
    ensures |ws| == |bs| && forall i :: 0 <= i < |bs| ==> ws[i] == bs[i].week
  {
    if bs == [] then [] else [bs[0].week] + Weeks(bs[1..])
  }

  lemma RunLinesLabelled(bs: seq<Batch>, read: Reader, tickersLower: seq<string>)
    ensures Labelled(RunLines(bs, read, tickersLower), Weeks(bs))
  {
    forall i | 0 <= i < |bs|
      ensures FlushShape(RunLines(bs, read, tickersLower)[i], Weeks(bs)[i])
    {
      RunLinesIndex(bs, read, tickersLower, i);
      FlushedLinesShape(bs[i].week, BatchRows(read, tickersLower, bs[i].files));
    }
  }

  /** The flushes of the batches, as the batch loop sees them. */
  function RunOf(fs: Files<TickerWeek>, read: Reader, tickersLower: seq<string>): seq<Batch> -> Files<TickerWeek> {
    (bs: seq<Batch>) => RunBatches(fs, bs, read, tickersLower)
  }

  /** Running one more batch is one more flush. */
  lemma RunSnoc(fs: Files<TickerWeek>, bs: seq<Batch>, read: Reader, tickersLower: seq<string>)
    requires bs != []
    ensures RunBatches(fs, bs, read, tickersLower)
            == AppendEach(RunBatches(fs, DropLast(bs), read, tickersLower), Columns,
                          BatchLines(Last(bs), read, tickersLower), PathOf)
  {
    var gs := RunLines(bs, read, tickersLower);
    assert DropLast(gs) == RunLines(DropLast(bs), read, tickersLower);
  }

  /** The loop's flush of a non-empty open batch is the specification's
      flush of that batch. */
  lemma FlushOpenBatch(fs: Files<TickerWeek>, bs: seq<Batch>, read: Reader, tickersLower: seq<string>,
                       batch: seq<seq<Tagged>>, out: Files<TickerWeek>)
    requires bs != []
    requires forall k :: 0 <= k < |batch| ==> batch[k] != []
    requires out == RunBatches(fs, DropLast(bs), read, tickersLower)
    requires Concat(batch) == BatchRows(read, tickersLower, Last(bs).files)
    ensures (if batch != [] then AppendEach(out, Columns, ExtractWeekly(Concat(batch), Last(bs).week), PathOf) else out)
            == RunBatches(fs, bs, read, tickersLower)
  {
    ConcatEmpty(batch);
    RunSnoc(fs, bs, read, tickersLower);
  }

  /** The flush of the open batch: its summary lines, when it has rows,
      appended to the tickers' files. */
  method FlushOpen(fs: Files<TickerWeek>, ghost bs: seq<Batch>, current: Option<string>, batch: seq<seq<Tagged>>,
                   out: Files<TickerWeek>, read: Reader, tickersLower: seq<string>)
    returns (out': Files<TickerWeek>)
    requires bs != []
    requires Open(bs, current, batch, out, RunOf(fs, read, tickersLower), FrameOf(read, tickersLower))
    ensures out' == RunBatches(fs, bs, read, tickersLower)
    ensures current == Some(Last(bs).week)
  {
    assert RunOf(fs, read, tickersLower)(DropLast(bs)) == RunBatches(fs, DropLast(bs), read, tickersLower);
    FlushOpenBatch(fs, bs, read, tickersLower, batch, out);
    if batch != [] {
      out' := AppendEach(out, Columns, ExtractWeekly(Concat(batch), current.value), PathOf);
    } else {
      out' := out;
    }
  }

  /** The loop body of `process_directory` on one file: a new prefix flushes
      the open batch and opens another, and the file's rows, if any, join
      the open batch. */
  method ReadFile(fs: Files<TickerWeek>, ghost done: seq<string>, name: string, current: Option<string>,
                  batch: seq<seq<Tagged>>, out: Files<TickerWeek>, read: Reader, tickersLower: seq<string>)
    returns (current': Option<string>, batch': seq<seq<Tagged>>, out': Files<TickerWeek>)
    requires Open(GroupByPrefix(done), current, batch, out, RunOf(fs, read, tickersLower), FrameOf(read, tickersLower))
    ensures Open(GroupByPrefix(done + [name]), current', batch', out', RunOf(fs, read, tickersLower), FrameOf(read, tickersLower))
  {
    var week := DatePrefix(name);
    var data := ProcessCsv(read, name, tickersLower);
    assert FrameOf(read, tickersLower)(name) == data;
    ghost var bs := GroupByPrefix(done);
    GroupSnoc(done, name);
    if current.None? {
      StepNew(bs, name, out, RunOf(fs, read, tickersLower), FrameOf(read, tickersLower));
      current', batch', out' := Some(week), Frames(data), out;
    } else if week != current.value {
      out' := FlushOpen(fs, bs, current, batch, out, read, tickersLower);
      assert RunOf(fs, read, tickersLower)(bs) == out';
      StepNew(bs, name, out', RunOf(fs, read, tickersLower), FrameOf(read, tickersLower));
      current', batch' := Some(week), Frames(data);
    } else {
      StepSame(bs, name, batch, out, RunOf(fs, read, tickersLower), FrameOf(read, tickersLower));
      current', batch', out' := current, batch + Frames(data), out;
    }
  }

  /** The loop of `process_directory` over the selected files, then the
      flush of the last batch; the prefix of the last file is what the
      loop's `current_week` holds at the end. */
  method RunFiles(fs: Files<TickerWeek>, todo: seq<string>, read: Reader, tickersLower: seq<string>)
    returns (out: Files<TickerWeek>, last: string)
    requires todo != []
    ensures out == RunBatches(fs, GroupByPrefix(todo), read, tickersLower)
    ensures last == DatePrefix(Last(todo))
  {
    var batch: seq<seq<Tagged>> := [];
    var current: Option<string> := None;
    out := fs;
    RunNothing(fs, read, tickersLower);
    assert RunOf(fs, read, tickersLower)([]) == fs;
    var idx := 0;
    ghost var done: seq<string> := [];
    while idx < |todo|
      invariant 0 <= idx <= |todo| && done == todo[..idx]
      invariant Open(GroupByPrefix(done), current, batch, out, RunOf(fs, read, tickersLower), FrameOf(read, tickersLower))
    {
      current, batch, out := ReadFile(fs, done, todo[idx], current, batch, out, read, tickersLower);
      TakeSnoc(todo, idx);
      done := done + [todo[idx]];
      idx := idx + 1;
    }
    TakeAll(todo);
    GroupFiles(todo);
    out := FlushOpen(fs, GroupByPrefix(done), current, batch, out, read, tickersLower);
    last := current.value;
  }

  /** `process_directory`: the new files in name order, batched by date
      prefix and flushed batch by batch; returns the prefix of the last file
      processed, or the old watermark when there is nothing new. */
  method ProcessDirectory(read: Reader, tickersLower: seq<string>, listing: seq<string>,
                          watermark: string, fs: Files<TickerWeek>)
    returns (out: Files<TickerWeek>, newWatermark: string)
    ensures out == RunBatches(fs, GroupByPrefix(SelectNew(CsvFiles(listing), watermark)), read, tickersLower)
    ensures newWatermark == NextWatermark(CsvFiles(listing), watermark)
  {
    var files := CsvFiles(listing);
    var todo := SelectNew(files, watermark);
    if todo == [] {
      RunNothing(fs, read, tickersLower);
      assert GroupByPrefix(todo) == [];
      return fs, watermark;
    }
    out, newWatermark := RunFiles(fs, todo, read, tickersLower);
    WatermarkOfRun(files, watermark);
  }

  /** On the sorted listing the newest processed prefix is the prefix of
      the last selected file. */
  lemma WatermarkOfRun(files: seq<string>, watermark: string)
    requires Sorted(files)
    requires SelectNew(files, watermark) != []
    ensures NextWatermark(files, watermark) == DatePrefix(Last(SelectNew(files, watermark)))
  {
    var todo := SelectNew(files, watermark);
    SelectionIsSuffix(files, watermark);
    assert Sorted(todo);
    MaxOfSortedSelection(watermark, todo);
  }

  /** A run never appends two lines for the same week to a ticker's file:
      the file gets its old lines followed by the ticker's lines of the run,
      whose weeks strictly increase. */
  lemma RunWeeksIncrease(read: Reader, tickersLower: seq<string>, listing: seq<string>,
                         watermark: string, fs: Files<TickerWeek>, t: string)
    ensures var bs := GroupByPrefix(SelectNew(CsvFiles(listing), watermark));
            var added := Picked(RunLines(bs, read, tickersLower), t);
            RowsOf(Lines(RunBatches(fs, bs, read, tickersLower), WeeklyPath(t)))
              == RowsOf(Lines(fs, WeeklyPath(t))) + added &&
            forall i, j :: 0 <= i < j < |added| ==> Text.Less(added[i].week, added[j].week)
  {
    var files := CsvFiles(listing);
    var todo := SelectNew(files, watermark);
    SelectionIsSuffix(files, watermark);
    assert Sorted(todo);
    WeeksIncrease(todo);
    var bs := GroupByPrefix(todo);
    RunLinesLabelled(bs, read, tickersLower);
    PickedIncreasing(RunLines(bs, read, tickersLower), Weeks(bs), t);
    AppendAllContents(fs, RunLines(bs, read, tickersLower), t);
  }

  /** The script's last step: the returned watermark is written only when it
      is not empty. */
  function StoreWatermark(stored: Option<string>, newWatermark: string): (r: Option<string>)
    ensures newWatermark != "" ==> r == Some(newWatermark)
    ensures newWatermark == "" ==> r == stored
  {
    if newWatermark != "" then Some(newWatermark) else stored
  }

  /** The whole script: load the tickers, read the watermark, process the new
      files, store the new watermark. */
  method RunScript(tickerLines: seq<string>, stored: Option<string>, read: Reader,
                   listing: seq<string>, fs: Files<TickerWeek>)
    returns (out: Files<TickerWeek>, stored': Option<string>)
    ensures var wm := ReadWatermark(stored);
            var tl := TickersLower(LoadTickers(tickerLines));
            out == RunBatches(fs, GroupByPrefix(SelectNew(CsvFiles(listing), wm)), read, tl)
    ensures AllWellFormed(fs) ==> AllWellFormed(out)
    ensures stored' == StoreWatermark(stored, NextWatermark(CsvFiles(listing), ReadWatermark(stored)))
  {
    var tl := TickersLower(LoadTickers(tickerLines));
    var wm := ReadWatermark(stored);
    var w;
    out, w := ProcessDirectory(read, tl, listing, wm, fs);
    stored' := StoreWatermark(stored, w);
  }
}

/** `500_GDELT_fetcherV2.py`: every `.CSV` file of the directory, in name
    order; for each ticker of the enriched keyword file, the SQLDATE and
    AvgTone of the rows whose actor names mention one of the ticker's
    keywords go to the ticker's own file, row for row. There is no watermark
    and no aggregation. */
module FetcherV2 {
  import opened Wrappers
  import opened Seqs
  import opened Rows
  import opened Matching
  import opened Dict
  import opened KeywordFile
  import opened Selection
  import opened Sink
  import opened ActorSelection

  const Columns: seq<string> := ["SQLDATE", "AvgTone"]

  /** `f"{ticker}_news.csv"` in the output directory. */
  function PathOf(ticker: string): string {
    ticker + "_news.csv"
  }

  /** Two tickers never share an output file. */
  lemma PathOfInjective(a: string, b: string)
    ensures PathOf(a) == PathOf(b) <==> a == b
  {
    if PathOf(a) == PathOf(b) {
      assert |a| == |b|;
      assert a == PathOf(a)[..|a|] && b == PathOf(b)[..|b|];
    }
  }

  /** One ticker on one file: nothing when no row matches; otherwise a new
      file is written with the header and an existing one appended to
      without it. */
  function Emit(fs: Files<DateTone>, ticker: string, sel: seq<DateTone>): Files<DateTone> {
    if sel == [] then fs
    else if PathOf(ticker) !in fs then Write(fs, PathOf(ticker), Columns, sel)
    else AppendRows(fs, PathOf(ticker), sel)
  }

  /** The ticker's file gains the selected rows at its end, a file exists
      afterwards when it did before or was just given rows, every other file
      is as it was, and well-formed files stay well-formed. */
  lemma EmitEffect(fs: Files<DateTone>, ticker: string, sel: seq<DateTone>, path: string)
    ensures RowsOf(Lines(Emit(fs, ticker, sel), path))
            == RowsOf(Lines(fs, path)) + (if path == PathOf(ticker) then sel else [])
    ensures path in Emit(fs, ticker, sel) <==> path in fs || (path == PathOf(ticker) && sel != [])
    ensures path != PathOf(ticker) ==> Lines(Emit(fs, ticker, sel), path) == Lines(fs, path)
    ensures AllWellFormed(fs) ==> AllWellFormed(Emit(fs, ticker, sel))
  {
    if sel != [] {
      WriteOrAppend(fs, PathOf(ticker), Columns, sel);
      var fs' := Append(fs, PathOf(ticker), Columns, sel);
      assert Emit(fs, ticker, sel) == fs';
      if path != PathOf(ticker) && path in fs {
        assert fs'[path] == fs[path];
      }
    } else {
      assert RowsOf(Lines(fs, path)) + [] == RowsOf(Lines(fs, path));
    }
  }

  /** The ticker loop over one readable file, in dict order. */
  function TickerWrites(fs: Files<DateTone>, d: Dict<string, Entry>, rows: seq<Row>): Files<DateTone> {
    if d == [] then fs
    else Emit(TickerWrites(fs, DropLast(d), rows), Last(d).0, Selected(rows, Last(d).1.keywords))
  }

  /** The file loop: an unreadable file is skipped. */
  function FileWrites(fs: Files<DateTone>, d: Dict<string, Entry>, read: Reader, files: seq<string>): Files<DateTone> {
    if files == [] then fs
    else
      var before := FileWrites(fs, d, read, DropLast(files));
      match read(Last(files))
      case None => before
      case Some(rows) => TickerWrites(before, d, rows)
  }

  /** The whole script: the keyword file's dict, then the sorted `.CSV`
      files of the listing. */
  function Run(fs: Files<DateTone>, keywordLines: seq<string>, read: Reader, listing: seq<string>): Files<DateTone> {
    FileWrites(fs, LoadEnriched(keywordLines), read, CsvFiles(listing))
  }

  /** A file no ticker writes to is untouched by the ticker loop. */
  lemma {:induction false} TickerWritesElsewhere(fs: Files<DateTone>, d: Dict<string, Entry>, rows: seq<Row>, path: string)
    requires forall k :: 0 <= k < |d| ==> PathOf(d[k].0) != path
    ensures Lines(TickerWrites(fs, d, rows), path) == Lines(fs, path)
    ensures path in TickerWrites(fs, d, rows) <==> path in fs
  {
    if d != [] {
      TickerWritesElsewhere(fs, DropLast(d), rows, path);
      EmitEffect(TickerWrites(fs, DropLast(d), rows), Last(d).0, Selected(rows, Last(d).1.keywords), path);
    }
  }

  /** The last ticker of the dict writes its selected rows after whatever
      its file held: no earlier ticker shares its file. */
  lemma LastTickerRows(fs: Files<DateTone>, d: Dict<string, Entry>, rows: seq<Row>)
    requires d != [] && Distinct(Keys(d))
    ensures RowsOf(Lines(TickerWrites(fs, d, rows), PathOf(Last(d).0)))
            == RowsOf(Lines(fs, PathOf(Last(d).0))) + Selected(rows, Last(d).1.keywords)
    ensures PathOf(Last(d).0) in TickerWrites(fs, d, rows)
            <==> PathOf(Last(d).0) in fs || Selected(rows, Last(d).1.keywords) != []
  {
    var front, t := DropLast(d), Last(d).0;
    DistinctKeysFront(d);
    forall k | 0 <= k < |front|
      ensures PathOf(front[k].0) != PathOf(t)
    {
      PathOfInjective(front[k].0, t);
    }
    TickerWritesElsewhere(fs, front, rows, PathOf(t));
    EmitEffect(TickerWrites(fs, front, rows), t, Selected(rows, Last(d).1.keywords), PathOf(t));
  }

  /** After the ticker loop on one file, the file of the ticker at `i`
      holds its old rows followed by the rows its keywords select. */
  lemma {:induction false} TickerWritesRows(fs: Files<DateTone>, d: Dict<string, Entry>, rows: seq<Row>, i: nat)
    requires Distinct(Keys(d)) && i < |d|
    ensures RowsOf(Lines(TickerWrites(fs, d, rows), PathOf(d[i].0)))
            == RowsOf(Lines(fs, PathOf(d[i].0))) + Selected(rows, d[i].1.keywords)
    ensures PathOf(d[i].0) in TickerWrites(fs, d, rows)
            <==> PathOf(d[i].0) in fs || Selected(rows, d[i].1.keywords) != []
  {
    if i == |d| - 1 {
      LastTickerRows(fs, d, rows);
    } else {
      var front, t := DropLast(d), d[i].0;
      DistinctKeysFront(d);
      assert front[i] == d[i];
      TickerWritesRows(fs, front, rows, i);
      PathOfInjective(Last(d).0, t);
      EmitEffect(TickerWrites(fs, front, rows), Last(d).0, Selected(rows, Last(d).1.keywords), PathOf(t));
    }
  }

  /** The ticker loop keeps well-formed files well-formed. */
  lemma {:induction false} TickerWritesWellFormed(fs: Files<DateTone>, d: Dict<string, Entry>, rows: seq<Row>)
    requires AllWellFormed(fs)
    ensures AllWellFormed(TickerWrites(fs, d, rows))
  {
    if d != [] {
      TickerWritesWellFormed(fs, DropLast(d), rows);
      EmitEffect(TickerWrites(fs, DropLast(d), rows), Last(d).0, Selected(rows, Last(d).1.keywords), "");
    }
  }

  /** After the whole run, the file of the ticker at `i` holds its old rows
      followed by everything its keywords collect from the readable files:
      the tickers are matched independently, so a row can reach several
      files. */
  lemma {:induction false} FileWritesRows(fs: Files<DateTone>, d: Dict<string, Entry>, read: Reader, files: seq<string>, i: nat)
    requires Distinct(Keys(d)) && i < |d|
    ensures RowsOf(Lines(FileWrites(fs, d, read, files), PathOf(d[i].0)))
            == RowsOf(Lines(fs, PathOf(d[i].0))) + Collected(read, d[i].1.keywords, files)
    ensures PathOf(d[i].0) in FileWrites(fs, d, read, files)
            <==> PathOf(d[i].0) in fs || Collected(read, d[i].1.keywords, files) != []
  {
    if files != [] {
      var p := PathOf(d[i].0);
      var before := FileWrites(fs, d, read, DropLast(files));
      var start := RowsOf(Lines(fs, p));
      var prev := Collected(read, d[i].1.keywords, DropLast(files));
      FileWritesRows(fs, d, read, DropLast(files), i);
      match read(Last(files))
      case None =>
        assert Collected(read, d[i].1.keywords, files) == prev + [];
      case Some(rows) =>
        assert Collected(read, d[i].1.keywords, files) == prev + Selected(rows, d[i].1.keywords);
        TickerWritesRows(before, d, rows, i);
        AppendAssoc(start, prev, Selected(rows, d[i].1.keywords));
    }
  }

  /** The whole run keeps well-formed files well-formed: each file has its
      header line first and data after it. */
  lemma {:induction false} FileWritesWellFormed(fs: Files<DateTone>, d: Dict<string, Entry>, read: Reader, files: seq<string>)
    requires AllWellFormed(fs)
    ensures AllWellFormed(FileWrites(fs, d, read, files))
  {
    if files != [] {
      FileWritesWellFormed(fs, d, read, DropLast(files));
      match read(Last(files))
      case None =>
      case Some(rows) =>
        TickerWritesWellFormed(FileWrites(fs, d, read, DropLast(files)), d, rows);
    }
  }

  /** The ticker loop on one readable file, in dict order. */
  method ProcessFile(fs: Files<DateTone>, d: Dict<string, Entry>, rows: seq<Row>) returns (out: Files<DateTone>)
    ensures out == TickerWrites(fs, d, rows)
  {
    out := fs;
    var i := 0;
    while i < |d|
      invariant i <= |d|
      invariant out == TickerWrites(fs, d[..i], rows)
    {
      var (ticker, entry) := d[i];
      var result := Selected(rows, entry.keywords);
      TakeSnoc(d, i);
      assert DropLast(d[..i + 1]) == d[..i];
      if result != [] {
        if PathOf(ticker) !in out {
          out := Write(out, PathOf(ticker), Columns, result);
        } else {
          out := AppendRows(out, PathOf(ticker), result);
        }
      }
      i := i + 1;
    }
    TakeAll(d);
  }

  /** The file loop of the script: an unreadable file is skipped. */
  method ProcessFiles(fs: Files<DateTone>, d: Dict<string, Entry>, read: Reader, files: seq<string>)
    returns (out: Files<DateTone>)
    ensures out == FileWrites(fs, d, read, files)
  {
    out := fs;
    var i := 0;
    while i < |files|
      invariant i <= |files|
      invariant out == FileWrites(fs, d, read, files[..i])
    {
      TakeSnoc(files, i);
      assert DropLast(files[..i + 1]) == files[..i];
      match read(files[i]) {
        case None =>
        case Some(rows) =>
          out := ProcessFile(out, d, rows);
      }
      i := i + 1;
    }
    TakeAll(files);
  }

  /** The script: load the dict, list the directory, run the file loop. */
  method Script(fs: Files<DateTone>, keywordLines: seq<string>, read: Reader, listing: seq<string>)
    returns (out: Files<DateTone>)
    ensures out == Run(fs, keywordLines, read, listing)
  {
    var d := LoadEnriched(keywordLines);
    out := ProcessFiles(fs, d, read, CsvFiles(listing));
  }

  /** What the script leaves in a ticker's file: its old rows, then the
      selected rows of every readable file in name order; and every output
      file well-formed when all were before. */
  lemma RunOutput(fs: Files<DateTone>, keywordLines: seq<string>, read: Reader, listing: seq<string>, i: nat)
    requires i < |LoadEnriched(keywordLines)|
    ensures var d := LoadEnriched(keywordLines);
            RowsOf(Lines(Run(fs, keywordLines, read, listing), PathOf(d[i].0)))
            == RowsOf(Lines(fs, PathOf(d[i].0))) + Collected(read, d[i].1.keywords, CsvFiles(listing))
    ensures var d := LoadEnriched(keywordLines);
            PathOf(d[i].0) in Run(fs, keywordLines, read, listing)
            <==> PathOf(d[i].0) in fs || Collected(read, d[i].1.keywords, CsvFiles(listing)) != []
    ensures AllWellFormed(fs) ==> AllWellFormed(Run(fs, keywordLines, read, listing))
  {
    var d := LoadEnriched(keywordLines);
    FileWritesRows(fs, d, read, CsvFiles(listing), i);
    if AllWellFormed(fs) {
      FileWritesWellFormed(fs, d, read, CsvFiles(listing));
    }
  }

  /** A row of a readable listed file whose actor names mention keywords of
      several tickers is written to the file of each of them. */
  lemma RowReachesEveryTicker(fs: Files<DateTone>, keywordLines: seq<string>, read: Reader, listing: seq<string>,
                              f: nat, r: nat, i: nat)
    requires f < |CsvFiles(listing)| && read(CsvFiles(listing)[f]).Some?
    requires r < |read(CsvFiles(listing)[f]).value| && i < |LoadEnriched(keywordLines)|
    requires ActorMatch(read(CsvFiles(listing)[f]).value[r], LoadEnriched(keywordLines)[i].1.keywords)
    ensures Project(read(CsvFiles(listing)[f]).value[r])
            in RowsOf(Lines(Run(fs, keywordLines, read, listing), PathOf(LoadEnriched(keywordLines)[i].0)))
  {
    var d, files := LoadEnriched(keywordLines), CsvFiles(listing);
    CollectedComplete(read, d[i].1.keywords, files, f, r);
    RunOutput(fs, keywordLines, read, listing, i);
  }
}

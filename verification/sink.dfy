/** The output CSV files as the scripts use them: `os.path.exists` decides
    whether a header is written, and `to_csv(mode='a')` adds lines at the end.
    A file is its sequence of lines; the directory maps paths to files. */
module Sink {
  import opened Seqs

  datatype Line<R> = Header(columns: seq<string>) | Data(row: R)

  type Files<R> = map<string, seq<Line<R>>>

  /** `weekly_{ticker}_news.csv`: the per-ticker output file of the GDELT
      fetchers. */
  function WeeklyPath(ticker: string): string {
    "weekly_" + ticker + "_news.csv"
  }

  /** Two tickers share an output file only when they are the same ticker. */
  lemma WeeklyPathInjective(a: string, b: string)
    ensures WeeklyPath(a) == WeeklyPath(b) <==> a == b
  {
    if WeeklyPath(a) == WeeklyPath(b) {
      assert |a| == |b|;
      assert a == WeeklyPath(a)[7..7 + |a|] && b == WeeklyPath(b)[7..7 + |b|];
    }
  }

  /** The lines of `path`, none when the file does not exist. */
  function Lines<R>(fs: Files<R>, path: string): seq<Line<R>> {
    if path in fs then fs[path] else []
  }

  function DataLines<R>(rows: seq<R>): (ls: seq<Line<R>>)
    ensures |ls| == |rows|
    ensures forall i :: 0 <= i < |rows| ==> ls[i] == Data(rows[i])
  {
    if rows == [] then [] else [Data(rows[0])] + DataLines(rows[1..])
  }

  /** The rows a file holds, read back without its header lines. */
  function RowsOf<R>(ls: seq<Line<R>>): seq<R> {
    if ls == [] then []
    else (if ls[0].Data? then [ls[0].row] else []) + RowsOf(ls[1..])
  }

  /** How many header lines a file holds. */
  function Headers<R>(ls: seq<Line<R>>): nat {
    if ls == [] then 0 else (if ls[0].Header? then 1 else 0) + Headers(ls[1..])
  }

  lemma {:induction false} RowsConcat<R>(a: seq<Line<R>>, b: seq<Line<R>>)
    ensures RowsOf(a + b) == RowsOf(a) + RowsOf(b)
    ensures Headers(a + b) == Headers(a) + Headers(b)
  {
    if a == [] {
      assert a + b == b;
    } else {
      assert (a + b)[1..] == a[1..] + b;
      RowsConcat(a[1..], b);
    }
  }

  lemma {:induction false} RowsOfData<R>(rows: seq<R>)
    ensures RowsOf(DataLines(rows)) == rows
    ensures Headers(DataLines(rows)) == 0
  {
    if rows != [] {
      assert DataLines(rows)[1..] == DataLines(rows[1..]);
      RowsOfData(rows[1..]);
    }
  }

  /** A well-formed output file: one header line, then data lines only. */
  predicate WellFormed<R>(ls: seq<Line<R>>) {
    ls != [] && ls[0].Header? && forall i :: 0 < i < |ls| ==> ls[i].Data?
  }

  predicate AllWellFormed<R>(fs: Files<R>) {
    forall p :: p in fs ==> WellFormed(fs[p])
  }

  /** A well-formed file holds exactly one header. */
  lemma WellFormedOneHeader<R>(ls: seq<Line<R>>)
    requires WellFormed(ls)
    ensures Headers(ls) == 1
  {
    assert ls == [ls[0]] + ls[1..];
    assert ls[1..] == DataLines(RowsOf(ls[1..])) by {
      DataOnly(ls[1..]);
    }
    RowsOfData(RowsOf(ls[1..]));
  }

  lemma {:induction false} DataOnly<R>(ls: seq<Line<R>>)
    requires forall i :: 0 <= i < |ls| ==> ls[i].Data?
    ensures ls == DataLines(RowsOf(ls))
  {
    if ls != [] {
      DataOnly(ls[1..]);
    }
  }

  /** `to_csv(path, mode='a', header=not os.path.exists(path))`: a new file
      starts with the header, an existing one only grows by the rows. */
  function Append<R>(fs: Files<R>, path: string, columns: seq<string>, rows: seq<R>): (fs': Files<R>)
    ensures fs'.Keys == fs.Keys + {path}
    ensures forall p :: p in fs && p != path ==> fs'[p] == fs[p]
    ensures RowsOf(fs'[path]) == RowsOf(Lines(fs, path)) + rows
    ensures Headers(fs'[path]) == if path in fs then Headers(fs[path]) else 1
    ensures path !in fs ==> fs'[path][0] == Header(columns)
    ensures AllWellFormed(fs) ==> AllWellFormed(fs')
  {
    var created: seq<Line<R>> := [Header(columns)];
    var start := if path in fs then fs[path] else created;
    var ls := start + DataLines(rows);
    RowsConcat(start, DataLines(rows));
    RowsOfData(rows);
    HeaderOnly<R>(columns);
    fs[path := ls]
  }

  /** A file holding only the header line has no rows and one header. */
  lemma HeaderOnly<R>(columns: seq<string>)
    ensures RowsOf<R>([Header(columns)]) == [] && Headers<R>([Header(columns)]) == 1
  {
    var ls: seq<Line<R>> := [Header(columns)];
    assert ls[1..] == [];
  }

  /** `to_csv(path, index=False)`: the file is (re)written with a header. */
  function Write<R>(fs: Files<R>, path: string, columns: seq<string>, rows: seq<R>): Files<R> {
    fs[path := [Header(columns)] + DataLines(rows)]
  }

  /** `to_csv(path, mode='a', header=False)`: rows only, whether or not the
      file existed. */
  function AppendRows<R>(fs: Files<R>, path: string, rows: seq<R>): Files<R> {
    fs[path := Lines(fs, path) + DataLines(rows)]
  }

  /** A header-less append adds the rows at the end of its file, adds no
      header, keeps a well-formed file well-formed and touches no other
      file. */
  lemma AppendRowsEffect<R>(fs: Files<R>, path: string, rows: seq<R>)
    ensures AppendRows(fs, path, rows).Keys == fs.Keys + {path}
    ensures forall p :: p in fs && p != path ==> AppendRows(fs, path, rows)[p] == fs[p]
    ensures RowsOf(AppendRows(fs, path, rows)[path]) == RowsOf(Lines(fs, path)) + rows
    ensures Headers(AppendRows(fs, path, rows)[path]) == Headers(Lines(fs, path))
    ensures path in fs && WellFormed(fs[path]) ==> WellFormed(AppendRows(fs, path, rows)[path])
  {
    RowsConcat(Lines(fs, path), DataLines(rows));
    RowsOfData(rows);
  }

  lemma {:induction false} DataLinesConcat<R>(a: seq<R>, b: seq<R>)
    ensures DataLines(a + b) == DataLines(a) + DataLines(b)
  {
    if a != [] {
      assert (a + b)[1..] == a[1..] + b;
      DataLinesConcat(a[1..], b);
    } else {
      assert a + b == b;
    }
  }

  /** Two header-less appends to one file are one append of both row lists. */
  lemma AppendRowsTwice<R>(fs: Files<R>, path: string, a: seq<R>, b: seq<R>)
    ensures AppendRows(AppendRows(fs, path, a), path, b) == AppendRows(fs, path, a + b)
  {
    DataLinesConcat(a, b);
    AppendAssoc(Lines(fs, path), DataLines(a), DataLines(b));
  }

  /** Writing a new file when the path is absent and appending without a
      header otherwise is the same as the header-once append. */
  lemma WriteOrAppend<R>(fs: Files<R>, path: string, columns: seq<string>, rows: seq<R>)
    ensures (if path !in fs then Write(fs, path, columns, rows) else AppendRows(fs, path, rows))
            == Append(fs, path, columns, rows)
  {
  }

  /** One header-once append per row, each row to the file `pathOf` names. */
  function AppendEach<R>(fs: Files<R>, columns: seq<string>, rows: seq<R>, pathOf: R -> string): (fs': Files<R>)
    ensures AllWellFormed(fs) ==> AllWellFormed(fs')
    decreases |rows|
  {
    if rows == [] then fs
    else AppendEach(Append(fs, pathOf(rows[0]), columns, [rows[0]]), columns, rows[1..], pathOf)
  }

  /** The rows `pathOf` sends to `path`. */
  function AddressedTo<R>(pathOf: R -> string, path: string): R -> bool {
    (r: R) => pathOf(r) == path
  }

  /** After the per-row appends, each file holds its old rows followed by
      the rows addressed to it, in order. */
  lemma {:induction false} AppendEachContents<R>(fs: Files<R>, columns: seq<string>, rows: seq<R>,
                                                 pathOf: R -> string, path: string)
    ensures RowsOf(Lines(AppendEach(fs, columns, rows, pathOf), path))
            == RowsOf(Lines(fs, path)) + Filter(rows, AddressedTo(pathOf, path))
    decreases |rows|
  {
    if rows != [] {
      var fs1 := Append(fs, pathOf(rows[0]), columns, [rows[0]]);
      var to := AddressedTo(pathOf, path);
      var here: seq<R> := if pathOf(rows[0]) == path then [rows[0]] else [];
      var before, middle := RowsOf(Lines(fs, path)), RowsOf(Lines(fs1, path));
      var later := Filter(rows[1..], to);
      assert to(rows[0]) == (pathOf(rows[0]) == path);
      FilterCons(rows, to);
      assert AppendEach(fs, columns, rows, pathOf) == AppendEach(fs1, columns, rows[1..], pathOf);
      AppendEachContents(fs1, columns, rows[1..], pathOf, path);
      AppendOne(fs, columns, rows[0], pathOf, path);
      assert middle == before + here;
      AppendAssoc(before, here, later);
    }
  }

  /** One row's append reaches its own file only. */
  lemma AppendOne<R>(fs: Files<R>, columns: seq<string>, r: R, pathOf: R -> string, path: string)
    ensures RowsOf(Lines(Append(fs, pathOf(r), columns, [r]), path))
            == RowsOf(Lines(fs, path)) + (if pathOf(r) == path then [r] else [])
  {
    var fs1 := Append(fs, pathOf(r), columns, [r]);
    if pathOf(r) != path {
      assert Lines(fs1, path) == Lines(fs, path);
    }
  }

  /** A file exists afterwards exactly when it existed before or some row was
      addressed to it. */
  lemma {:induction false} AppendEachCreates<R>(fs: Files<R>, columns: seq<string>, rows: seq<R>,
                                                pathOf: R -> string, path: string)
    ensures path in AppendEach(fs, columns, rows, pathOf) <==>
            path in fs || exists i :: 0 <= i < |rows| && pathOf(rows[i]) == path
    decreases |rows|
  {
    if rows != [] {
      var fs1 := Append(fs, pathOf(rows[0]), columns, [rows[0]]);
      AppendEachCreates(fs1, columns, rows[1..], pathOf, path);
      assert forall i :: 0 < i < |rows| ==> rows[i] == rows[1..][i - 1];
    }
  }

  /** Each file written by per-row appends has a header exactly when it is
      there at all, and only one. */
  lemma {:induction false} AppendEachOneHeader<R>(fs: Files<R>, columns: seq<string>, rows: seq<R>,
                                                  pathOf: R -> string, path: string)
    requires AllWellFormed(fs)
    requires path in AppendEach(fs, columns, rows, pathOf)
    ensures Headers(AppendEach(fs, columns, rows, pathOf)[path]) == 1
  {
    WellFormedOneHeader(AppendEach(fs, columns, rows, pathOf)[path]);
  }
}

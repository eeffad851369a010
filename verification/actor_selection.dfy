/** The per-ticker row selection of the V2 and V3 fetchers: the SQLDATE
    and AvgTone of the rows whose actor names mention one of a ticker's
    keywords, file after file. */
module ActorSelection {
  import opened Wrappers
  import opened Seqs
  import opened Rows
  import opened Matching

  /** `df[mask][['SQLDATE', 'AvgTone']]`: the two columns of the rows whose
      actor names mention a keyword, in file order. */
  function Selected(rows: seq<Row>, keywords: seq<string>): seq<DateTone> {
    if rows == [] then []
    else (if ActorMatch(rows[0], keywords) then [Project(rows[0])] else []) + Selected(rows[1..], keywords)
  }

  /** Every selected line is the projection of a matching row. */
  lemma {:induction false} SelectedSound(rows: seq<Row>, keywords: seq<string>, j: nat)
    requires j < |Selected(rows, keywords)|
    ensures exists i :: 0 <= i < |rows| && ActorMatch(rows[i], keywords) && Selected(rows, keywords)[j] == Project(rows[i])
  {
    var head: seq<DateTone> := if ActorMatch(rows[0], keywords) then [Project(rows[0])] else [];
    var rest := Selected(rows[1..], keywords);
    assert Selected(rows, keywords) == head + rest;
    if j < |head| {
      assert Selected(rows, keywords)[j] == Project(rows[0]);
    } else {
      SelectedSound(rows[1..], keywords, j - |head|);
      var i :| 0 <= i < |rows[1..]| && ActorMatch(rows[1..][i], keywords) && rest[j - |head|] == Project(rows[1..][i]);
      assert rows[1..][i] == rows[i + 1];
    }
  }

  /** Every matching row is selected. */
  lemma {:induction false} SelectedComplete(rows: seq<Row>, keywords: seq<string>, i: nat)
    requires i < |rows| && ActorMatch(rows[i], keywords)
    ensures Project(rows[i]) in Selected(rows, keywords)
  {
    var head: seq<DateTone> := if ActorMatch(rows[0], keywords) then [Project(rows[0])] else [];
    var rest := Selected(rows[1..], keywords);
    assert Selected(rows, keywords) == head + rest;
    if i > 0 {
      assert rows[1..][i - 1] == rows[i];
      SelectedComplete(rows[1..], keywords, i - 1);
      assert Project(rows[i]) in rest;
    }
  }

  /** The row mask `df[mask]` applies. */
  function MatchWith(keywords: seq<string>): Row -> bool {
    (r: Row) => ActorMatch(r, keywords)
  }

  /** The selection is the mask followed by the column projection: one
      output line per matching row, in row order. */
  lemma {:induction false} SelectedIsFilterMap(rows: seq<Row>, keywords: seq<string>)
    ensures Selected(rows, keywords) == Map(Filter(rows, MatchWith(keywords)), Project)
  {
    if rows != [] {
      SelectedIsFilterMap(rows[1..], keywords);
    }
  }

  /** The rows a keyword list collects from the readable files, in file
      order and row order. */
  function Collected(read: Reader, keywords: seq<string>, files: seq<string>): seq<DateTone> {
    if files == [] then []
    else
      Collected(read, keywords, DropLast(files)) + FileSelected(read, keywords, Last(files))
  }

  /** What one keyword list selects from one file: nothing when it cannot be
      read. */
  function FileSelected(read: Reader, keywords: seq<string>, name: string): seq<DateTone> {
    match read(name)
    case None => []
    case Some(rows) => Selected(rows, keywords)
  }

  /** What one file selects is part of what the files collect. */
  lemma {:induction false} CollectedHas(read: Reader, keywords: seq<string>, files: seq<string>, f: nat, x: DateTone)
    requires f < |files| && x in FileSelected(read, keywords, files[f])
    ensures x in Collected(read, keywords, files)
  {
    var front := DropLast(files);
    var before, here := Collected(read, keywords, front), FileSelected(read, keywords, Last(files));
    assert Collected(read, keywords, files) == before + here;
    if f < |front| {
      assert front[f] == files[f];
      CollectedHas(read, keywords, front, f, x);
      assert x in before;
    } else {
      assert x in here;
    }
  }

  /** A matching row of a readable file reaches the collected rows of every
      ticker whose keywords it mentions. */
  lemma CollectedComplete(read: Reader, keywords: seq<string>, files: seq<string>, f: nat, r: nat)
    requires f < |files| && read(files[f]).Some?
    requires r < |read(files[f]).value| && ActorMatch(read(files[f]).value[r], keywords)
    ensures Project(read(files[f]).value[r]) in Collected(read, keywords, files)
  {
    SelectedComplete(read(files[f]).value, keywords, r);
    CollectedHas(read, keywords, files, f, Project(read(files[f]).value[r]));
  }
}

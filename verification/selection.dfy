/** Which of the extracted daily files a run processes, and the watermark
    (the `YYYYMMDD` date of the newest processed file) stored afterwards. */
module Selection {
  import opened Wrappers
  import opened Text
  import opened Seqs
  import opened Sorting
  import opened Dates

  /** The watermark when no watermark file exists yet: below every date. */
  const Epoch: string := "00000000"

  predicate IsCsv(name: string) {
    EndsWith(name, ".CSV")
  }

  /** `f[:8]`: the `YYYYMMDD` date a daily file's name starts with. */
  function DatePrefix(name: string): string {
    Prefix(name, 8)
  }

  /** Masking keeps every passing element as often as it occurs. */
  lemma {:induction false} FilterMultiset<T>(s: seq<T>, p: T -> bool, x: T)
    ensures multiset(Filter(s, p))[x] == if p(x) then multiset(s)[x] else 0
  {
    if s != [] {
      FilterMultiset(s[1..], p, x);
      assert s == [s[0]] + s[1..];
    }
  }

  /** `sorted(f for f in os.listdir(d) if f.endswith(".CSV"))`: every `.CSV`
      name of the listing, as often as it is listed, in ascending order. */
  function CsvFiles(listing: seq<string>): (r: seq<string>)
    ensures Sorted(r)
    ensures forall i :: 0 <= i < |r| ==> IsCsv(r[i])
    ensures forall name :: multiset(r)[name] == if IsCsv(name) then multiset(listing)[name] else 0
  {
    var r := Sort(Filter(listing, IsCsv));
    forall name
      ensures multiset(r)[name] == if IsCsv(name) then multiset(listing)[name] else 0
    {
      FilterMultiset(listing, IsCsv, name);
    }
    assert forall i :: 0 <= i < |r| ==> r[i] in multiset(Filter(listing, IsCsv));
    r
  }

  /** The files a run processes depend on which names the directory holds,
      never on the order in which the listing returns them. */
  lemma ListingOrderIrrelevant(a: seq<string>, b: seq<string>)
    requires multiset(a) == multiset(b)
    ensures CsvFiles(a) == CsvFiles(b)
  {
    SortedUnique(CsvFiles(a), CsvFiles(b));
  }

  /** `[f for f in files if f[:8] > watermark]`. */
  function SelectNew(files: seq<string>, watermark: string): (r: seq<string>)
    ensures forall i :: 0 <= i < |r| ==> r[i] in files && Less(watermark, DatePrefix(r[i]))
    ensures forall i :: 0 <= i < |files| && Less(watermark, DatePrefix(files[i])) ==> files[i] in r
  {
    Filter(files, (f: string) => Less(watermark, DatePrefix(f)))
  }

  /** A later name never has an earlier date prefix. */
  lemma SortedPrefixes(files: seq<string>, i: nat, j: nat)
    requires Sorted(files) && i <= j < |files|
    ensures LessEq(DatePrefix(files[i]), DatePrefix(files[j]))
  {
    SortedPairwise(files, i, j);
    PrefixMonotone(files[i], files[j], 8);
  }

  lemma LessLessEq(a: string, b: string, c: string)
    requires Less(a, b) && LessEq(b, c)
    ensures Less(a, c)
  {
    if b != c {
      LessTransitive(a, b, c);
    }
  }

  /** The position of the first file newer than the watermark, or the
      length of the list when there is none. */
  function FirstNew(files: seq<string>, watermark: string): (k: nat)
    ensures k <= |files|
    ensures forall i :: 0 <= i < k ==> !Less(watermark, DatePrefix(files[i]))
    ensures k < |files| ==> Less(watermark, DatePrefix(files[k]))
  {
    if files == [] || Less(watermark, DatePrefix(files[0])) then 0
    else 1 + FirstNew(files[1..], watermark)
  }

  /** In a sorted list, every file after a new one is new too. */
  lemma NewStaysNew(files: seq<string>, watermark: string, k: nat)
    requires Sorted(files) && k < |files| && Less(watermark, DatePrefix(files[k]))
    ensures forall i :: k <= i < |files| ==> Less(watermark, DatePrefix(files[i]))
  {
    forall i | k <= i < |files|
      ensures Less(watermark, DatePrefix(files[i]))
    {
      SortedPrefixes(files, k, i);
      LessLessEq(watermark, DatePrefix(files[k]), DatePrefix(files[i]));
    }
  }

  /** On a sorted listing the selected files are exactly a suffix: once one
      file is newer than the watermark, so is every file after it. */
  lemma SelectionIsSuffix(files: seq<string>, watermark: string)
    requires Sorted(files)
    ensures SelectNew(files, watermark) == files[FirstNew(files, watermark)..]
  {
    var k := FirstNew(files, watermark);
    if k < |files| {
      NewStaysNew(files, watermark, k);
    }
    FilterSuffix(files, (f: string) => Less(watermark, DatePrefix(f)), k);
  }

  /** `get_last_processed_week`: the stripped contents of the watermark file,
      or the epoch when there is no such file. */
  function ReadWatermark(stored: Option<string>): (w: string)
    ensures IsStripped(w)
    ensures stored.Some? ==> Contains(stored.value, w)
    ensures stored.None? ==> w == "00000000"
  {
    match stored
    case None => Epoch
    case Some(text) => Strip(text)
  }

  /** A stored watermark reads back as written, as long as it has no
      surrounding whitespace. */
  lemma WatermarkRoundTrip(w: string)
    requires IsStripped(w)
    ensures ReadWatermark(Some(w)) == w
  {
    StripStripped(w);
  }

  /** A string of zeros is below every other digit string of its length. */
  lemma {:induction false} ZerosLess(z: string, p: string)
    requires |z| == |p| && AllDigits(p) && p != z
    requires forall i :: 0 <= i < |z| ==> z[i] == '0'
    ensures Less(z, p)
  {
    if p[0] == '0' {
      assert p[1..] != z[1..] by {
        assert p == [p[0]] + p[1..] && z == [z[0]] + z[1..];
      }
      ZerosLess(z[1..], p[1..]);
    }
  }

  /** On the first run every file named after a real date is selected. */
  lemma FirstRunSelectsDated(name: string)
    requires ParseSqlDate(DatePrefix(name)).Some?
    ensures Less(ReadWatermark(None), DatePrefix(name))
  {
    var p := DatePrefix(name);
    var d := ParseSqlDate(p).value;
    assert Value(p[..4]) == d.year >= 1;
    ZerosLess(Epoch, p);
  }

  /** The running maximum of `process_new_files`: start at the old watermark
      and raise it to each file's date prefix that exceeds it. */
  function MaxPrefix(watermark: string, files: seq<string>): (m: string)
    ensures LessEq(watermark, m)
    ensures forall i :: 0 <= i < |files| ==> LessEq(DatePrefix(files[i]), m)
    ensures m == watermark || exists i :: 0 <= i < |files| && m == DatePrefix(files[i])
  {
    if files == [] then watermark
    else
      var p := DropLast(files);
      var m := MaxPrefix(watermark, p);
      var d := DatePrefix(Last(files));
      assert forall i :: 0 <= i < |p| ==> files[i] == p[i];
      LessTotal(m, d);
      if Less(m, d) then
        RaiseBounds(watermark, Map(p, DatePrefix), m, d);
        d
      else
        m
  }

  /** Raising a maximum keeps it above everything it was above. */
  lemma RaiseBounds(w: string, ps: seq<string>, m: string, d: string)
    requires LessEq(w, m) && Less(m, d)
    requires forall i :: 0 <= i < |ps| ==> LessEq(ps[i], m)
    ensures LessEq(w, d)
    ensures forall i :: 0 <= i < |ps| ==> LessEq(ps[i], d)
  {
    LessEqTransitive(w, m, d);
    forall i | 0 <= i < |ps|
      ensures LessEq(ps[i], d)
    {
      LessEqTransitive(ps[i], m, d);
    }
  }

  lemma LessEqAntisymmetric(a: string, b: string)
    requires LessEq(a, b) && LessEq(b, a)
    ensures a == b
  {
    if a != b {
      LessAsymmetric(a, b);
    }
  }

  /** On a sorted selection the running maximum is simply the date prefix of
      the last selected file. */
  lemma MaxOfSortedSelection(watermark: string, files: seq<string>)
    requires Sorted(files) && files != []
    requires forall i :: 0 <= i < |files| ==> Less(watermark, DatePrefix(files[i]))
    ensures MaxPrefix(watermark, files) == DatePrefix(Last(files))
  {
    var m := MaxPrefix(watermark, files);
    var last := DatePrefix(Last(files));
    if m == watermark {
      LessAsymmetric(watermark, last);
      assert false;
    }
    var i :| 0 <= i < |files| && m == DatePrefix(files[i]);
    SortedPrefixes(files, i, |files| - 1);
    LessEqAntisymmetric(m, last);
  }

  /** The watermark after a run that selects from `files`: unchanged when
      nothing is new, otherwise the newest selected date prefix. */
  function NextWatermark(files: seq<string>, watermark: string): (w: string)
    ensures LessEq(watermark, w)
    ensures w == watermark <==> SelectNew(files, watermark) == []
    ensures forall i :: 0 <= i < |files| ==> !Less(w, DatePrefix(files[i]))
  {
    var sel := SelectNew(files, watermark);
    if sel == [] then
      watermark
    else
      var w := MaxPrefix(watermark, sel);
      LessLessEq(watermark, DatePrefix(sel[0]), w);
      LessIrreflexive(watermark);
      forall i | 0 <= i < |files|
        ensures !Less(w, DatePrefix(files[i]))
      {
        var d := DatePrefix(files[i]);
        if Less(watermark, d) {
          var j :| 0 <= j < |sel| && sel[j] == files[i];
          assert LessEq(d, w);
          if Less(w, d) { LessAsymmetric(w, d); }
        } else if Less(w, d) {
          LessTotal(watermark, d);
          LessLessEq(w, d, watermark);
          LessAsymmetric(watermark, w);
        }
      }
      w
  }

  /** Running again on the same directory with the new watermark selects
      nothing: no file is processed twice by two consecutive runs. */
  lemma RerunSelectsNothing(files: seq<string>, watermark: string)
    ensures SelectNew(files, NextWatermark(files, watermark)) == []
  {
    var w := NextWatermark(files, watermark);
    FilterNone(files, (f: string) => Less(w, DatePrefix(f)));
  }
}

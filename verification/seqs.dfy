/** Generic sequence operations: filtering, order-preserving de-duplication
    and counting by key, as the dataframe code uses them. */
module Seqs {
  import opened Wrappers

  function First<T>(s: seq<T>): T
    requires s != []
  {
    s[0]
  }

  function Last<T>(s: seq<T>): T
    requires s != []
  {
    s[|s| - 1]
  }

  function DropLast<T>(s: seq<T>): seq<T>
    requires s != []
  {
    s[..|s| - 1]
  }

  /** A non-empty sequence is its front followed by its last element. */
  lemma SplitLast<T>(s: seq<T>)
    requires s != []
    ensures s == DropLast(s) + [Last(s)]
  {
  }

  /** `f` applied to every element, in order. */
  function Map<A, B>(s: seq<A>, f: A -> B): (r: seq<B>)
    ensures |r| == |s|
    ensures forall i :: 0 <= i < |s| ==> r[i] == f(s[i])
  {
    if s == [] then [] else [f(s[0])] + Map(s[1..], f)
  }

  /** A boolean mask applied to a frame: the elements satisfying `p`, in order. */
  function Filter<T(==)>(s: seq<T>, p: T -> bool): (r: seq<T>)
    ensures |r| <= |s|
    ensures forall i :: 0 <= i < |r| ==> p(r[i])
    ensures forall i :: 0 <= i < |r| ==> r[i] in s
    ensures forall i :: 0 <= i < |s| && p(s[i]) ==> s[i] in r
  {
    if s == [] then []
    else (if p(s[0]) then [s[0]] else []) + Filter(s[1..], p)
  }

  /** Apply `f` to each element and keep the values it yields, in order. */
  function FilterMap<A, B>(s: seq<A>, f: A -> Option<B>): (r: seq<B>)
    ensures |r| <= |s|
    ensures forall j :: 0 <= j < |r| ==> exists i :: 0 <= i < |s| && f(s[i]) == Some(r[j])
    ensures forall i :: 0 <= i < |s| && f(s[i]).Some? ==> f(s[i]).value in r
  {
    if s == [] then []
    else
      var rest := FilterMap(s[1..], f);
      assert forall i :: 1 <= i < |s| ==> s[i] == s[1..][i - 1];
      forall j | 0 <= j < |rest|
        ensures exists i :: 0 <= i < |s| && f(s[i]) == Some(rest[j])
      {
        var i :| 0 <= i < |s[1..]| && f(s[1..][i]) == Some(rest[j]);
        assert f(s[i + 1]) == Some(rest[j]);
      }
      match f(s[0])
      case None => rest
      case Some(b) => [b] + rest
  }

  /** Filter-mapping one more element adds its value, if it has one. */
  lemma {:induction false} FilterMapSnoc<A, B>(s: seq<A>, x: A, f: A -> Option<B>)
    ensures FilterMap(s + [x], f) == FilterMap(s, f) + (match f(x) case None => [] case Some(b) => [b])
  {
    if s == [] {
      assert [] + [x] == [x];
      assert [x][1..] == [];
    } else {
      assert (s + [x])[1..] == s[1..] + [x];
      FilterMapSnoc(s[1..], x, f);
    }
  }

  lemma AppendAssoc<T>(a: seq<T>, b: seq<T>, c: seq<T>)
    ensures a + b + c == a + (b + c)
  {
  }

  /** Masking a non-empty sequence: its head, when it passes, then the rest. */
  lemma FilterCons<T>(s: seq<T>, p: T -> bool)
    requires s != []
    ensures Filter(s, p) == (if p(s[0]) then [s[0]] else []) + Filter(s[1..], p)
  {
  }

  lemma {:induction false} FilterAppend<T>(a: seq<T>, b: seq<T>, p: T -> bool)
    ensures Filter(a + b, p) == Filter(a, p) + Filter(b, p)
  {
    if a == [] {
      assert a + b == b;
    } else {
      assert (a + b)[1..] == a[1..] + b;
      FilterAppend(a[1..], b, p);
    }
  }

  /** A mask that every element passes keeps the frame whole. */
  lemma {:induction false} FilterAll<T>(s: seq<T>, p: T -> bool)
    requires forall i :: 0 <= i < |s| ==> p(s[i])
    ensures Filter(s, p) == s
  {
    if s != [] {
      FilterAll(s[1..], p);
    }
  }

  /** A mask that no element passes leaves nothing. */
  lemma {:induction false} FilterNone<T>(s: seq<T>, p: T -> bool)
    requires forall i :: 0 <= i < |s| ==> !p(s[i])
    ensures Filter(s, p) == []
  {
    if s != [] {
      FilterNone(s[1..], p);
    }
  }

  /** A mask keeps the whole frame exactly when every element passes. */
  lemma {:induction false} FilterKeepsAll<T>(s: seq<T>, p: T -> bool)
    ensures |Filter(s, p)| == |s| <==> forall i :: 0 <= i < |s| ==> p(s[i])
  {
    if s != [] {
      FilterKeepsAll(s[1..], p);
      assert forall i :: 1 <= i < |s| ==> s[i] == s[1..][i - 1];
    }
  }

  /** A mask that fails on a prefix and passes on the rest keeps that rest. */
  lemma {:induction false} FilterSuffix<T>(s: seq<T>, p: T -> bool, k: nat)
    requires k <= |s|
    requires forall i :: 0 <= i < k ==> !p(s[i])
    requires forall i :: k <= i < |s| ==> p(s[i])
    ensures Filter(s, p) == s[k..]
  {
    if k == 0 {
      FilterAll(s, p);
    } else {
      assert forall i :: 0 <= i < |s| - 1 ==> s[1..][i] == s[i + 1];
      FilterSuffix(s[1..], p, k - 1);
      assert s[1..][k - 1..] == s[k..];
    }
  }

  /** `pd.concat` of a list of frames: the frames one after the other. */
  function Concat<T>(ss: seq<seq<T>>): (r: seq<T>)
    ensures |ss| == 1 ==> r == ss[0]
  {
    if ss == [] then [] else Concat(DropLast(ss)) + Last(ss)
  }

  lemma {:induction false} ConcatAppend<T>(a: seq<seq<T>>, b: seq<seq<T>>)
    ensures Concat(a + b) == Concat(a) + Concat(b)
  {
    if b != [] {
      assert DropLast(a + b) == a + DropLast(b);
      ConcatAppend(a, DropLast(b));
    } else {
      assert a + b == a;
    }
  }

  predicate Distinct<T(==)>(s: seq<T>) {
    forall i, j :: 0 <= i < j < |s| ==> s[i] != s[j]
  }

  /** A duplicate-free sequence holds every element at most once. */
  lemma {:induction false} DistinctMultiplicity<T>(s: seq<T>, x: T)
    requires Distinct(s)
    ensures multiset(s)[x] <= 1
  {
    if s != [] {
      assert s == [s[0]] + s[1..];
      assert Distinct(s[1..]);
      DistinctMultiplicity(s[1..], x);
      if x == s[0] {
        assert x !in s[1..];
      }
    }
  }

  /** An element found at two positions occurs at least twice. */
  lemma RepeatMultiplicity<T>(s: seq<T>, i: nat, j: nat)
    requires i < j < |s|
    ensures s[i] == s[j] ==> multiset(s)[s[i]] >= 2
  {
    assert s == s[..j] + [s[j]] + s[j + 1..];
    assert s[i] in multiset(s[..j]);
  }

  /** Re-arranging a duplicate-free sequence leaves it duplicate-free. */
  lemma DistinctPermutation<T>(a: seq<T>, b: seq<T>)
    requires Distinct(a)
    requires multiset(a) == multiset(b)
    ensures Distinct(b)
  {
    forall i, j | 0 <= i < j < |b|
      ensures b[i] != b[j]
    {
      DistinctMultiplicity(a, b[i]);
      RepeatMultiplicity(b, i, j);
    }
  }

  /** Two arrangements of the same elements have the same members. */
  lemma SameMembers<T>(a: seq<T>, b: seq<T>)
    requires multiset(a) == multiset(b)
    ensures forall x :: x in a <==> x in b
  {
    forall x
      ensures x in a <==> x in b
    {
      assert x in a <==> x in multiset(a);
      assert x in b <==> x in multiset(b);
    }
  }

  /** The position of the first occurrence of `x` in `s`. */
  function FirstIndex<T(==)>(s: seq<T>, x: T): (i: nat)
    requires x in s
    ensures i < |s| && s[i] == x && x !in s[..i]
  {
    if x in DropLast(s) then FirstIndex(DropLast(s), x) else |s| - 1
  }

  /** Drop repeated elements, keeping each one where it first occurs (the
      loop over a `seen` set). */
  function Dedup<T(==)>(s: seq<T>): (r: seq<T>)
    ensures Distinct(r)
    ensures forall i :: 0 <= i < |r| ==> r[i] in s
    ensures forall i :: 0 <= i < |s| ==> s[i] in r
  {
    if s == [] then []
    else
      var d := Dedup(DropLast(s));
      var x := Last(s);
      assert s == DropLast(s) + [x];
      if x in d then d else d + [x]
  }

  /** Some element satisfies `p`. */
  predicate Any<T>(s: seq<T>, p: T -> bool) {
    exists i :: 0 <= i < |s| && p(s[i])
  }

  /** Appending an element: some element satisfies `p` when one did before
      or the new one does. */
  lemma AnySnoc<T>(s: seq<T>, x: T, p: T -> bool)
    ensures Any(s + [x], p) <==> Any(s, p) || p(x)
  {
    var t := s + [x];
    assert t[|s|] == x;
    if Any(s, p) {
      var i :| 0 <= i < |s| && p(s[i]);
      assert t[i] == s[i];
    }
    if Any(t, p) && !p(x) {
      var i :| 0 <= i < |t| && p(t[i]);
      assert s[i] == t[i];
    }
  }

  /** Some element satisfies `p` when the first does or one of the rest. */
  lemma AnyCons<T>(s: seq<T>, p: T -> bool)
    requires s != []
    ensures Any(s, p) <==> p(s[0]) || Any(s[1..], p)
  {
    if Any(s[1..], p) {
      var i :| 0 <= i < |s[1..]| && p(s[1..][i]);
      assert s[i + 1] == s[1..][i];
    }
    if Any(s, p) && !p(s[0]) {
      var i :| 0 <= i < |s| && p(s[i]);
      assert s[1..][i - 1] == s[i];
    }
  }

  /** A list comprehension whose body may raise: `f` applied to every
      element in order, the first error stopping it. */
  function MapResult<A, B, E>(s: seq<A>, f: A -> Result<B, E>): Result<seq<B>, E> {
    if s == [] then Ok([])
    else
      match f(s[0])
      case Err(e) => Err(e)
      case Ok(b) =>
        match MapResult(s[1..], f)
        case Err(e) => Err(e)
        case Ok(rest) => Ok([b] + rest)
  }

  /** Whether `f` fails on an element. */
  function Raises<A, B, E>(f: A -> Result<B, E>): A -> bool {
    (a: A) => f(a).Err?
  }

  /** The comprehension fails exactly when `f` fails on some element, with
      the error of the first such element; otherwise it holds every value,
      in order. */
  lemma {:induction false} MapResultFacts<A, B, E>(s: seq<A>, f: A -> Result<B, E>)
    ensures MapResult(s, f).Err? <==> Any(s, Raises(f))
    ensures MapResult(s, f).Err? ==>
              exists i :: 0 <= i < |s| && f(s[i]) == Err(MapResult(s, f).error) &&
                          forall j :: 0 <= j < i ==> f(s[j]).Ok?
    ensures MapResult(s, f).Ok? ==>
              |MapResult(s, f).value| == |s| && forall i :: 0 <= i < |s| ==> f(s[i]) == Ok(MapResult(s, f).value[i])
  {
    if s != [] {
      var rest := s[1..];
      MapResultFacts(rest, f);
      AnyCons(s, Raises(f));
      var r := MapResult(s, f);
      if r.Err? && f(s[0]).Ok? {
        var i :| 0 <= i < |rest| && f(rest[i]) == Err(MapResult(rest, f).error) &&
                 forall j :: 0 <= j < i ==> f(rest[j]).Ok?;
        assert s[i + 1] == rest[i];
        assert forall j :: 1 <= j < i + 1 ==> s[j] == rest[j - 1];
      }
      if r.Ok? {
        assert forall i :: 1 <= i < |s| ==> s[i] == rest[i - 1];
      }
    }
  }

  /** What holds of every element still holds after de-duplication. */
  lemma DedupKeeps<T>(s: seq<T>, p: T -> bool)
    requires forall i :: 0 <= i < |s| ==> p(s[i])
    ensures forall i :: 0 <= i < |Dedup(s)| ==> p(Dedup(s)[i])
  {
    var d := Dedup(s);
    forall i | 0 <= i < |d|
      ensures p(d[i])
    {
      var j :| 0 <= j < |s| && s[j] == d[i];
    }
  }

  lemma DedupMembers<T>(s: seq<T>)
    ensures forall x :: x in Dedup(s) <==> x in s
  {
  }

  /** De-duplication keeps the elements in the order of their first
      occurrences. */
  lemma {:induction false} DedupOrder<T>(s: seq<T>)
    ensures forall i, j :: 0 <= i < j < |Dedup(s)| ==> FirstIndex(s, Dedup(s)[i]) < FirstIndex(s, Dedup(s)[j])
  {
    if s != [] {
      var p, x := DropLast(s), Last(s);
      DedupOrder(p);
      var d := Dedup(p);
      assert s == p + [x];
      forall i | 0 <= i < |d|
        ensures FirstIndex(s, d[i]) == FirstIndex(p, d[i]) < |p|
      {
        FirstIndexPrefix(p, x, d[i]);
      }
      if x !in d {
        assert x !in p;
        assert FirstIndex(s, x) == |p|;
        var r := d + [x];
        assert Dedup(s) == r;
        forall i, j | 0 <= i < j < |r|
          ensures FirstIndex(s, r[i]) < FirstIndex(s, r[j])
        {
          if j < |d| {
            assert r[i] == d[i] && r[j] == d[j];
          } else {
            assert r[i] == d[i] && r[j] == x;
          }
        }
      } else {
        assert Dedup(s) == d;
      }
    }
  }

  /** Appending an element leaves first occurrences in the prefix alone. */
  lemma FirstIndexPrefix<T>(p: seq<T>, x: T, y: T)
    requires y in p
    ensures FirstIndex(p + [x], y) == FirstIndex(p, y) < |p|
  {
    assert DropLast(p + [x]) == p;
  }

  /** The prefix of a list without repeats has none either, and misses the
      last element. */
  lemma DistinctPrefix<T>(s: seq<T>)
    requires Distinct(s) && s != []
    ensures Distinct(DropLast(s)) && Last(s) !in DropLast(s)
  {
    var p := DropLast(s);
    assert forall i :: 0 <= i < |p| ==> p[i] == s[i];
  }

  /** De-duplication changes nothing exactly when there is nothing to drop. */
  lemma {:induction false} DedupFixpoint<T>(s: seq<T>)
    ensures Dedup(s) == s <==> Distinct(s)
  {
    if s != [] && Distinct(s) {
      var p, x := DropLast(s), Last(s);
      DistinctPrefix(s);
      DedupFixpoint(p);
      assert Dedup(s) == p + [x];
      assert p + [x] == s;
    }
  }

  /** Frames that are all non-empty concatenate to nothing only when there
      are none. */
  lemma ConcatEmpty<T>(batch: seq<seq<T>>)
    requires forall k :: 0 <= k < |batch| ==> batch[k] != []
    ensures Concat(batch) == [] <==> batch == []
  {
    if batch != [] {
      assert Concat(batch) == Concat(DropLast(batch)) + Last(batch);
    }
  }

  /** How many elements of `s` have key `k`. */
  function CountKey<T, K(==)>(s: seq<T>, key: T -> K, k: K): (n: nat)
    ensures n <= |s|
    ensures n > 0 <==> exists i :: 0 <= i < |s| && key(s[i]) == k
  {
    if s == [] then 0
    else (if key(s[0]) == k then 1 else 0) + CountKey(s[1..], key, k)
  }

  /** Masking keeps exactly as many elements as pass the test. */
  lemma {:induction false} FilterCount<T>(s: seq<T>, p: T -> bool)
    ensures |Filter(s, p)| == CountKey(s, p, true)
  {
    if s != [] {
      FilterCons(s, p);
      FilterCount(s[1..], p);
    }
  }

  /** How many elements of `s` have their key in `ks`. */
  function CountKeysIn<T, K(==)>(s: seq<T>, key: T -> K, ks: set<K>): nat {
    if s == [] then 0
    else (if key(s[0]) in ks then 1 else 0) + CountKeysIn(s[1..], key, ks)
  }

  /** The per-key counts of the keys in `ks`, added up. */
  function SumCounts<T, K(==)>(s: seq<T>, key: T -> K, ks: seq<K>): nat {
    if ks == [] then 0 else CountKey(s, key, ks[0]) + SumCounts(s, key, ks[1..])
  }

  lemma {:induction false} CountKeysInSplit<T, K>(s: seq<T>, key: T -> K, k: K, ks: set<K>)
    requires k !in ks
    ensures CountKeysIn(s, key, {k} + ks) == CountKey(s, key, k) + CountKeysIn(s, key, ks)
  {
    if s != [] {
      CountKeysInSplit(s[1..], key, k, ks);
    }
  }

  lemma {:induction false} CountKeysInAll<T, K>(s: seq<T>, key: T -> K, ks: set<K>)
    requires forall i :: 0 <= i < |s| ==> key(s[i]) in ks
    ensures CountKeysIn(s, key, ks) == |s|
  {
    if s != [] {
      CountKeysInAll(s[1..], key, ks);
    }
  }

  /** Grouping by key loses no element and counts none twice: when every key
      of `s` is listed once in `ks`, the group sizes add up to `|s|`. */
  lemma {:induction false} GroupCountsPartition<T, K>(s: seq<T>, key: T -> K, ks: seq<K>)
    requires Distinct(ks)
    requires forall i :: 0 <= i < |s| ==> key(s[i]) in ks
    ensures SumCounts(s, key, ks) == |s|
  {
    SumCountsDistinct(s, key, ks);
    CountKeysInAll(s, key, set k | k in ks);
  }

  lemma {:induction false} SumCountsDistinct<T, K>(s: seq<T>, key: T -> K, ks: seq<K>)
    requires Distinct(ks)
    ensures SumCounts(s, key, ks) == CountKeysIn(s, key, set k | k in ks)
  {
    if ks == [] {
      assert (set k | k in ks) == {};
      CountKeysInNone(s, key);
    } else {
      var rest := ks[1..];
      assert Distinct(rest);
      SumCountsDistinct(s, key, rest);
      assert (set k | k in ks) == {ks[0]} + (set k | k in rest);
      CountKeysInSplit(s, key, ks[0], set k | k in rest);
    }
  }

  lemma {:induction false} CountKeysInNone<T, K>(s: seq<T>, key: T -> K)
    ensures CountKeysIn(s, key, {}) == 0
  {
    if s != [] {
      CountKeysInNone(s[1..], key);
    }
  }

  lemma TakeSnoc<T>(s: seq<T>, i: nat)
    requires i < |s|
    ensures s[..i + 1] == s[..i] + [s[i]]
  {
  }

  lemma SliceSnoc<T>(s: seq<T>, i: nat, j: nat)
    requires i <= j < |s|
    ensures s[i..j + 1] == s[i..j] + [s[j]]
  {
  }

  lemma TakeAll<T>(s: seq<T>)
    ensures s[..|s|] == s
  {
  }
}

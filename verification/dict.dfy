/** Python dicts: entries in insertion order, at most one per key. */
module Dict {
  import opened Wrappers
  import opened Seqs

  type Dict<K, V> = seq<(K, V)>

  function Keys<K, V>(d: Dict<K, V>): (ks: seq<K>)
    ensures |ks| == |d|
    ensures forall i :: 0 <= i < |d| ==> ks[i] == d[i].0
  {
    if d == [] then [] else [d[0].0] + Keys(d[1..])
  }

  /** The keys of a dict without its last entry are still distinct and do
      not include the last key. */
  lemma DistinctKeysFront<K, V>(d: Dict<K, V>)
    requires d != [] && Distinct(Keys(d))
    ensures Distinct(Keys(DropLast(d)))
    ensures forall k :: 0 <= k < |d| - 1 ==> d[k].0 != Last(d).0
  {
    var ks, front := Keys(d), Keys(DropLast(d));
    forall i, j | 0 <= i < j < |front|
      ensures front[i] != front[j]
    {
      assert front[i] == ks[i] && front[j] == ks[j];
    }
    forall k | 0 <= k < |d| - 1
      ensures d[k].0 != Last(d).0
    {
      assert ks[k] != ks[|d| - 1];
    }
  }

  /** `d.get(k)`. */
  function Get<K(==), V>(d: Dict<K, V>, k: K): (r: Option<V>)
    ensures r.None? <==> k !in Keys(d)
    ensures r.Some? ==> (k, r.value) in d
  {
    if d == [] then None
    else if d[0].0 == k then Some(d[0].1)
    else Get(d[1..], k)
  }

  /** `d[k] = v`: an existing key keeps its position and takes the new value,
      a new key goes to the end. */
  function Put<K(==), V>(d: Dict<K, V>, k: K, v: V): (r: Dict<K, V>)
    ensures |r| == if k in Keys(d) then |d| else |d| + 1
    ensures k !in Keys(d) ==> r == d + [(k, v)]
    ensures forall i :: 0 <= i < |d| && d[i].0 != k ==> r[i] == d[i]
    ensures Keys(r) == if k in Keys(d) then Keys(d) else Keys(d) + [k]
  {
    if d == [] then [(k, v)]
    else if d[0].0 == k then [(k, v)] + d[1..]
    else
      var rest := Put(d[1..], k, v);
      KeysCons(d[0], d[1..]);
      KeysCons(d[0], rest);
      [d[0]] + rest
  }

  lemma KeysCons<K, V>(e: (K, V), d: Dict<K, V>)
    ensures Keys([e] + d) == [e.0] + Keys(d)
  {
    assert ([e] + d)[1..] == d;
  }

  /** After `d[k] = v`, looking up `k` gives `v` and every other key reads as
      before. */
  lemma {:induction false} GetPut<K, V>(d: Dict<K, V>, k: K, v: V, q: K)
    ensures Get(Put(d, k, v), q) == if q == k then Some(v) else Get(d, q)
  {
    if d != [] && d[0].0 != k {
      GetPut(d[1..], k, v, q);
    }
  }

  /** Putting keeps the keys duplicate-free. */
  lemma PutDistinct<K, V>(d: Dict<K, V>, k: K, v: V)
    requires Distinct(Keys(d))
    ensures Distinct(Keys(Put(d, k, v)))
  {
    var ks := Keys(d);
    if k !in ks {
      assert forall i :: 0 <= i < |ks| ==> ks[i] != k;
    }
  }

  /** A dict filled by a loop of `d[k] = v` assignments, one per entry, None
      entries being skipped. */
  function FromEntries<K(==), V>(es: seq<Option<(K, V)>>): (d: Dict<K, V>)
    ensures Distinct(Keys(d))
  {
    if es == [] then []
    else
      var d := FromEntries(DropLast(es));
      match Last(es)
      case None => d
      case Some(e) =>
        PutDistinct(d, e.0, e.1);
        Put(d, e.0, e.1)
  }

  predicate HasKey<K(==), V>(e: Option<(K, V)>, k: K) {
    e.Some? && e.value.0 == k
  }

  /** The value of the last entry assigning `k`, scanning from the end. */
  function LastAssigned<K(==), V>(es: seq<Option<(K, V)>>, k: K): (r: Option<V>)
    ensures r.None? <==> forall i :: 0 <= i < |es| ==> !HasKey(es[i], k)
    ensures r.Some? ==> exists i :: 0 <= i < |es| && es[i] == Some((k, r.value))
                                    && forall j :: i < j < |es| ==> !HasKey(es[j], k)
  {
    if es == [] then None
    else if HasKey(Last(es), k) then
      assert es[|es| - 1] == Some((k, Last(es).value.1));
      Some(Last(es).value.1)
    else
      var p := DropLast(es);
      assert forall i :: 0 <= i < |p| ==> p[i] == es[i];
      LastAssigned(p, k)
  }

  /** Looking a key up in the filled dict gives the value of the last entry
      that assigns it, and nothing when no entry does. */
  lemma {:induction false} LastAssignmentWins<K, V>(es: seq<Option<(K, V)>>, k: K)
    ensures Get(FromEntries(es), k) == LastAssigned(es, k)
  {
    if es != [] {
      var p := DropLast(es);
      LastAssignmentWins(p, k);
      match Last(es)
      case None =>
      case Some(e) =>
        GetPut(FromEntries(p), e.0, e.1, k);
    }
  }
}

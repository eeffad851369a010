/** How the processed files are cut into weekly batches: runs of files with
    the same date prefix (`500_GDELT_fetcher.py`), or consecutive chunks of
    seven files (`apple_fetcher.py`). */
module Batching {
  import opened Text
  import opened Seqs
  import opened Sorting
  import opened Selection

  /** A run of files flushed together, labelled with their shared prefix. */
  datatype Batch = Batch(week: string, files: seq<string>)

  /** The files of the batches, in order. */
  function Files(bs: seq<Batch>): seq<string> {
    if bs == [] then [] else Files(DropLast(bs)) + Last(bs).files
  }

  /** A batch is non-empty and all its files carry the batch's prefix. */
  predicate Uniform(b: Batch) {
    b.files != [] && forall j :: 0 <= j < |b.files| ==> DatePrefix(b.files[j]) == b.week
  }

  predicate Homogeneous(bs: seq<Batch>) {
    forall i :: 0 <= i < |bs| ==> Uniform(bs[i])
  }

  /** Neighbouring batches have different prefixes, so every batch is a
      maximal run. */
  predicate Maximal(bs: seq<Batch>) {
    forall i :: 0 < i < |bs| ==> bs[i - 1].week != bs[i].week
  }

  lemma FilesSnoc(bs: seq<Batch>, b: Batch)
    ensures Files(bs + [b]) == Files(bs) + b.files
  {
    assert DropLast(bs + [b]) == bs;
  }

  /** The batches of `process_directory`: a file with the current prefix joins
      the open batch, a file with another prefix closes it and opens a new
      one. */
  function GroupByPrefix(files: seq<string>): seq<Batch> {
    if files == [] then []
    else
      var bs := GroupByPrefix(DropLast(files));
      var f := Last(files);
      if bs != [] && Last(bs).week == DatePrefix(f) then
        DropLast(bs) + [Batch(Last(bs).week, Last(bs).files + [f])]
      else
        bs + [Batch(DatePrefix(f), [f])]
  }

  /** The batches hold the files in order, and the last batch carries the
      prefix of the last file. */
  lemma {:induction false} GroupFiles(files: seq<string>)
    ensures Files(GroupByPrefix(files)) == files
    ensures files != [] ==> GroupByPrefix(files) != [] && Last(GroupByPrefix(files)).week == DatePrefix(Last(files))
  {
    if files != [] {
      var bs := GroupByPrefix(DropLast(files));
      var f := Last(files);
      GroupFiles(DropLast(files));
      assert files == DropLast(files) + [f];
      if bs != [] && Last(bs).week == DatePrefix(f) {
        var b := Batch(Last(bs).week, Last(bs).files + [f]);
        FilesSnoc(DropLast(bs), b);
        FilesSnoc(DropLast(bs), Last(bs));
        assert DropLast(bs) + [Last(bs)] == bs;
      } else {
        FilesSnoc(bs, Batch(DatePrefix(f), [f]));
      }
    }
  }

  /** One more file either joins the last batch or opens a new one. */
  lemma GroupSnoc(files: seq<string>, f: string)
    ensures var bs := GroupByPrefix(files);
            GroupByPrefix(files + [f]) ==
              if bs != [] && Last(bs).week == DatePrefix(f) then DropLast(bs) + [Batch(Last(bs).week, Last(bs).files + [f])]
              else bs + [Batch(DatePrefix(f), [f])]
  {
    assert DropLast(files + [f]) == files;
  }

  /** Every batch the loop flushes is a non-empty run of one prefix, and two
      neighbouring batches never share their prefix. */
  lemma {:induction false} GroupingShape(files: seq<string>)
    ensures Homogeneous(GroupByPrefix(files)) && Maximal(GroupByPrefix(files))
  {
    if files != [] {
      var p := DropLast(files);
      GroupingShape(p);
      var bs := GroupByPrefix(p);
      var f := Last(files);
      if bs != [] && Last(bs).week == DatePrefix(f) {
        var b := Batch(Last(bs).week, Last(bs).files + [f]);
        assert GroupByPrefix(files) == DropLast(bs) + [b];
        assert forall i :: 0 <= i < |bs| - 1 ==> DropLast(bs)[i] == bs[i];
        assert Last(bs) == bs[|bs| - 1];
      } else {
        assert GroupByPrefix(files) == bs + [Batch(DatePrefix(f), [f])];
        if bs != [] {
          assert Last(bs) == bs[|bs| - 1];
        }
      }
    }
  }

  lemma FrontShape(bs: seq<Batch>)
    requires bs != [] && Homogeneous(bs) && Maximal(bs)
    ensures Homogeneous(DropLast(bs)) && Maximal(DropLast(bs))
    ensures Uniform(Last(bs))
    ensures |bs| > 1 ==> Last(DropLast(bs)).week != Last(bs).week
  {
    assert forall i :: 0 <= i < |bs| - 1 ==> DropLast(bs)[i] == bs[i];
  }

  /** Taking the last file off a batch of several keeps the cutting valid. */
  lemma ShortenLast(bs: seq<Batch>) returns (bs': seq<Batch>)
    requires bs != [] && Homogeneous(bs) && Maximal(bs) && |Last(bs).files| > 1
    ensures Homogeneous(bs') && Maximal(bs')
    ensures Files(bs') == DropLast(Files(bs))
    ensures bs' != [] && DropLast(bs') == DropLast(bs)
    ensures Last(bs').week == Last(bs).week
    ensures Last(bs').files + [Last(Files(bs))] == Last(bs).files
  {
    var b := Last(bs);
    var front := DropLast(bs);
    FrontShape(bs);
    var b' := Batch(b.week, DropLast(b.files));
    bs' := front + [b'];
    FilesSnoc(front, b');
    FilesSnoc(front, b);
    assert bs == front + [b];
    assert b.files == b'.files + [Last(b.files)];
    assert Uniform(b') by {
      assert forall j :: 0 <= j < |b'.files| ==> b'.files[j] == b.files[j];
    }
    assert forall i :: 0 <= i < |front| ==> bs'[i] == bs[i];
    assert DropLast(bs') == front;
  }

  /** The grouping is the only one with non-empty, single-prefix, maximal
      batches: any such cutting of the files is the one the loop makes. */
  lemma {:induction false} GroupingUnique(bs: seq<Batch>, files: seq<string>)
    requires Files(bs) == files
    requires Homogeneous(bs) && Maximal(bs)
    ensures bs == GroupByPrefix(files)
    decreases |files|
  {
    if bs == [] {
      assert files == [];
    } else {
      var b := Last(bs);
      var front := DropLast(bs);
      FrontShape(bs);
      assert bs == front + [b];
      FilesSnoc(front, b);
      if |b.files| == 1 {
        assert DropLast(files) == Files(front);
        GroupingUnique(front, DropLast(files));
        assert b.files == [Last(files)];
      } else {
        var bs' := ShortenLast(bs);
        GroupingUnique(bs', DropLast(files));
        assert bs == DropLast(bs') + [Batch(Last(bs').week, Last(bs').files + [Last(files)])];
      }
    }
  }

  predicate IncreasingWeeks(bs: seq<Batch>) {
    forall i, j :: 0 <= i < j < |bs| ==> Less(bs[i].week, bs[j].week)
  }

  /** On a sorted listing the batch prefixes strictly increase, so no prefix
      is flushed twice in one run. */
  lemma {:induction false} WeeksIncrease(files: seq<string>)
    requires Sorted(files)
    ensures IncreasingWeeks(GroupByPrefix(files))
  {
    if files != [] {
      var p := DropLast(files);
      assert Sorted(p);
      WeeksIncrease(p);
      var bs := GroupByPrefix(p);
      var f := Last(files);
      if bs != [] && Last(bs).week == DatePrefix(f) {
        JoinIncreasing(bs, Last(bs).files + [f]);
      } else {
        if bs != [] {
          GroupFiles(p);
          SortedPrefixes(files, |files| - 2, |files| - 1);
        }
        OpenIncreasing(bs, DatePrefix(f), [f]);
      }
    }
  }

  /** Growing the last batch keeps the prefixes increasing. */
  lemma JoinIncreasing(bs: seq<Batch>, files: seq<string>)
    requires bs != [] && IncreasingWeeks(bs)
    ensures IncreasingWeeks(DropLast(bs) + [Batch(Last(bs).week, files)])
  {
    var all := DropLast(bs) + [Batch(Last(bs).week, files)];
    assert forall i :: 0 <= i < |all| ==> all[i].week == bs[i].week;
  }

  /** A batch whose prefix is above the last one keeps the prefixes
      increasing. */
  lemma OpenIncreasing(bs: seq<Batch>, w: string, files: seq<string>)
    requires IncreasingWeeks(bs)
    requires bs != [] ==> Less(Last(bs).week, w)
    ensures IncreasingWeeks(bs + [Batch(w, files)])
  {
    var all := bs + [Batch(w, files)];
    forall i, j | 0 <= i < j < |all|
      ensures Less(all[i].week, all[j].week)
    {
      if j < |bs| {
        assert all[i] == bs[i] && all[j] == bs[j];
      } else if i < |bs| - 1 {
        assert all[i] == bs[i];
        LessTransitive(bs[i].week, bs[|bs| - 1].week, w);
      } else {
        assert all[i] == bs[|bs| - 1];
      }
    }
  }

  /** The chunk length of `apple_fetcher.py`. */
  const ChunkSize: nat := 7

  /** Consecutive chunks of seven, the last one holding the one to seven
      files left over. */
  function Chunks<T>(xs: seq<T>): seq<seq<T>>
    decreases |xs|
  {
    if |xs| <= ChunkSize then
      if xs == [] then [] else [xs]
    else
      [xs[..ChunkSize]] + Chunks(xs[ChunkSize..])
  }

  /** The chunks, put back together, are the input; each holds one to seven
      elements, and all but the last hold exactly seven. */
  lemma {:induction false} ChunksShape<T>(xs: seq<T>)
    ensures Concat(Chunks(xs)) == xs
    ensures forall i :: 0 <= i < |Chunks(xs)| ==> 1 <= |Chunks(xs)[i]| <= ChunkSize
    ensures forall i :: 0 <= i < |Chunks(xs)| - 1 ==> |Chunks(xs)[i]| == ChunkSize
    decreases |xs|
  {
    if |xs| > ChunkSize {
      var rest := Chunks(xs[ChunkSize..]);
      ChunksShape(xs[ChunkSize..]);
      ConcatAppend([xs[..ChunkSize]], rest);
      assert xs == xs[..ChunkSize] + xs[ChunkSize..];
      assert Chunks(xs) == [xs[..ChunkSize]] + rest;
    }
  }

  /** `n` elements make ceil(n / 7) chunks. */
  lemma {:induction false} ChunkCount<T>(xs: seq<T>)
    ensures |Chunks(xs)| == (|xs| + ChunkSize - 1) / ChunkSize
    decreases |xs|
  {
    if |xs| > ChunkSize {
      ChunkCount(xs[ChunkSize..]);
    }
  }

  /** Adding one to seven elements after a whole number of chunks adds
      exactly one chunk. */
  lemma {:induction false} ChunksSnoc<T>(xs: seq<T>, ys: seq<T>)
    requires |xs| % ChunkSize == 0
    requires 1 <= |ys| <= ChunkSize
    ensures Chunks(xs + ys) == Chunks(xs) + [ys]
    decreases |xs|
  {
    if xs == [] {
      assert xs + ys == ys;
    } else {
      var head, tail := xs[..ChunkSize], xs[ChunkSize..];
      assert (xs + ys)[ChunkSize..] == tail + ys;
      assert (xs + ys)[..ChunkSize] == head;
      assert |tail| % ChunkSize == 0;
      ChunksSnoc(tail, ys);
      assert Chunks(xs + ys) == [head] + Chunks(tail + ys);
      if tail == [] {
        assert Chunks(xs) == [head];
      } else {
        assert Chunks(xs) == [head] + Chunks(tail);
      }
    }
  }

  /** The label `apple_fetcher.py` gives a chunk: the prefix of its last
      file. */
  function ChunkLabel(chunk: seq<string>): string
    requires chunk != []
  {
    DatePrefix(Last(chunk))
  }
}

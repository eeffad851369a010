/** The loop shape `process_directory` follows, independent of what a file
    yields and of what a flush writes: files are read in order, a file
    whose date prefix differs from the open batch's closes that batch, and
    each file's non-empty frame joins the open batch. */
module BatchLoop {
  import opened Wrappers
  import opened Seqs
  import opened Selection
  import opened Batching

  /** The rows of a batch's files, file by file, each file giving
      `frame(f)`. */
  function Gather<T>(frame: string -> seq<T>, files: seq<string>): seq<T> {
    if files == [] then [] else Gather(frame, DropLast(files)) + frame(Last(files))
  }

  lemma GatherSnoc<T>(frame: string -> seq<T>, files: seq<string>, name: string)
    ensures Gather(frame, files + [name]) == Gather(frame, files) + frame(name)
  {
    assert DropLast(files + [name]) == files;
  }

  /** The frames a file adds to the open batch: its own, unless empty. */
  function Frames<T>(data: seq<T>): (fr: seq<seq<T>>)
    ensures Concat(fr) == data
    ensures forall k :: 0 <= k < |fr| ==> fr[k] != []
  {
    if data == [] then []
    else
      assert DropLast([data]) == [];
      [data]
  }

  /** The loop state once the files read so far are cut into `bs`: `out` is
      `run` of the closed batches, `current` is the open batch's prefix,
      and `batch` holds the open batch's non-empty frames. */
  ghost predicate Open<T, F>(bs: seq<Batch>, current: Option<string>, batch: seq<seq<T>>, out: F,
                           run: seq<Batch> -> F, frame: string -> seq<T>)
  {
    (forall k :: 0 <= k < |batch| ==> batch[k] != []) &&
    if bs == [] then current.None? && batch == [] && out == run([])
    else
      current == Some(Last(bs).week) && out == run(DropLast(bs)) &&
      Concat(batch) == Gather(frame, Last(bs).files)
  }

  /** A file with the open batch's prefix joins it. */
  lemma StepSame<T, F>(bs: seq<Batch>, name: string, batch: seq<seq<T>>, out: F,
                           run: seq<Batch> -> F, frame: string -> seq<T>)
    requires bs != [] && DatePrefix(name) == Last(bs).week
    requires Open(bs, Some(Last(bs).week), batch, out, run, frame)
    ensures Open(DropLast(bs) + [Batch(Last(bs).week, Last(bs).files + [name])], Some(DatePrefix(name)),
                 batch + Frames(frame(name)), out, run, frame)
  {
    var fr := Frames(frame(name));
    ConcatAppend(batch, fr);
    GatherSnoc(frame, Last(bs).files, name);
    var bs' := DropLast(bs) + [Batch(Last(bs).week, Last(bs).files + [name])];
    assert DropLast(bs') == DropLast(bs);
    assert forall k :: 0 <= k < |batch + fr| ==> (batch + fr)[k] != [] by {
      assert forall k :: |batch| <= k < |batch + fr| ==> (batch + fr)[k] == fr[k - |batch|];
    }
  }

  /** A file with a new prefix opens a new batch, once the old one is
      flushed into `out`. */
  lemma StepNew<T, F>(bs: seq<Batch>, name: string, out: F, run: seq<Batch> -> F, frame: string -> seq<T>)
    requires out == run(bs)
    ensures Open(bs + [Batch(DatePrefix(name), [name])], Some(DatePrefix(name)), Frames(frame(name)), out, run, frame)
  {
    var bs' := bs + [Batch(DatePrefix(name), [name])];
    assert DropLast(bs') == bs;
    GatherSnoc(frame, [], name);
    assert [] + [name] == [name];
  }
}

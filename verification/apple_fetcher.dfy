/** `apple_fetcher.py`: every `.CSV` file of the directory, read in name
    order and cut into chunks of seven; the rows of a chunk that mention one
    of the fixed keywords are summarised into one line of the output file,
    labelled with the date prefix of the chunk's last file. There is no
    watermark: every run reads every file. */
module AppleFetcher {
  import opened Wrappers
  import opened Seqs
  import opened Rows
  import opened Matching
  import opened Selection
  import opened Batching
  import opened BatchLoop
  import opened Aggregate
  import opened Sink

  const OutputPath: string := "weekly_apple_news.csv"

  const Columns: seq<string> := ["Week", "AvgTone", "Count"]

  /** What `process_csv_file` keeps of one row: its SQLDATE and AvgTone, when
      the printed row mentions a keyword and both cells are present. */
  function Observe(keywords: seq<string>, row: Row): Option<Observation> {
    if FullRowMatch(row, keywords) && row.sqlDate.Some? && row.avgTone.Some? then
      Some(Observation(row.sqlDate.value, row.avgTone.value))
    else None
  }

  function ObserveWith(keywords: seq<string>): Row -> Option<Observation> {
    (row: Row) => Observe(keywords, row)
  }

  /** `process_csv_file`: the kept rows of a file in file order; nothing
      when the file cannot be read. */
  function FileObservations(read: Reader, keywords: seq<string>, name: string): (obs: seq<Observation>)
    ensures read(name).None? ==> obs == []
    ensures read(name).Some? ==> |obs| <= |read(name).value|
  {
    match read(name)
    case None => []
    case Some(rows) => FilterMap(rows, ObserveWith(keywords))
  }

  /** Every kept row comes from a row that mentions a keyword and has both
      cells. */
  lemma KeptRowsSound(rows: seq<Row>, keywords: seq<string>)
    ensures forall j :: 0 <= j < |FilterMap(rows, ObserveWith(keywords))| ==>
              exists i :: 0 <= i < |rows| && FullRowMatch(rows[i], keywords)
                          && rows[i].sqlDate == Some(FilterMap(rows, ObserveWith(keywords))[j].date)
                          && rows[i].avgTone == Some(FilterMap(rows, ObserveWith(keywords))[j].tone)
  {
    var obs := FilterMap(rows, ObserveWith(keywords));
    forall j | 0 <= j < |obs|
      ensures exists i :: 0 <= i < |rows| && FullRowMatch(rows[i], keywords)
                          && rows[i].sqlDate == Some(obs[j].date) && rows[i].avgTone == Some(obs[j].tone)
    {
      var i :| 0 <= i < |rows| && ObserveWith(keywords)(rows[i]) == Some(obs[j]);
      assert Observe(keywords, rows[i]) == Some(obs[j]);
    }
  }

  /** Every row that mentions a keyword and has both cells is kept. */
  lemma KeptRowsComplete(rows: seq<Row>, keywords: seq<string>)
    ensures forall i :: 0 <= i < |rows| && FullRowMatch(rows[i], keywords)
                        && rows[i].sqlDate.Some? && rows[i].avgTone.Some? ==>
              Observation(rows[i].sqlDate.value, rows[i].avgTone.value) in FilterMap(rows, ObserveWith(keywords))
  {
    forall i | 0 <= i < |rows| && FullRowMatch(rows[i], keywords) && rows[i].sqlDate.Some? && rows[i].avgTone.Some?
      ensures Observation(rows[i].sqlDate.value, rows[i].avgTone.value) in FilterMap(rows, ObserveWith(keywords))
    {
      assert ObserveWith(keywords)(rows[i]) == Observe(keywords, rows[i]);
    }
  }

  /** The rows each file contributes. */
  function ObservationsOf(read: Reader, keywords: seq<string>): string -> seq<Observation> {
    (name: string) => FileObservations(read, keywords, name)
  }

  /** The line a chunk adds to the output: none when no file of the chunk
      kept a row, otherwise the summary of all its rows under the prefix of
      the chunk's last file. */
  function ChunkLines(frame: string -> seq<Observation>, chunk: seq<string>): (ls: seq<ChunkWeek>)
  {
    var data := Gather(frame, chunk);
    if data == [] then [] else [ChunkSummary(data, ChunkLabel(chunk))]
  }

  /** The lines of the chunks, one after the other. */
  function RunChunks(frame: string -> seq<Observation>, cs: seq<seq<string>>): (ls: seq<ChunkWeek>)
  {
    if cs == [] then []
    else RunChunks(frame, DropLast(cs)) + ChunkLines(frame, Last(cs))
  }

  /** The output file before the loop: created with the header when it is
      absent, left alone otherwise. */
  function Prepared(fs: Files<ChunkWeek>): Files<ChunkWeek> {
    if OutputPath in fs then fs else Write(fs, OutputPath, Columns, [])
  }

  /** The effect of `process_directory`: the lines of the chunks of the
      sorted `.CSV` files, appended to the prepared output without header. */
  function Run(fs: Files<ChunkWeek>, frame: string -> seq<Observation>, files: seq<string>): Files<ChunkWeek> {
    AppendRows(Prepared(fs), OutputPath, RunChunks(frame, Chunks(files)))
  }

  /** A chunk contributes a line exactly when one of its files kept a row;
      the line is labelled with the prefix of the chunk's last file and
      counts the kept rows whose SQLDATE parses. */
  lemma ChunkLine(frame: string -> seq<Observation>, chunk: seq<string>)
    requires chunk != []
    ensures |ChunkLines(frame, chunk)| <= 1
    ensures ChunkLines(frame, chunk) != [] <==> exists i :: 0 <= i < |chunk| && frame(chunk[i]) != []
    ensures ChunkLines(frame, chunk) != [] ==>
              var data := Gather(frame, chunk);
              ChunkLines(frame, chunk)[0].week == DatePrefix(chunk[|chunk| - 1])
              && ChunkLines(frame, chunk)[0].count == CountKey(data, HasDate, true)
  {
    GatherEmpty(frame, chunk);
    ChunkSummaryCounts(Gather(frame, chunk), ChunkLabel(chunk));
  }

  /** A chunk's line, if any, is labelled with the chunk. */
  lemma ChunkLineLabel(frame: string -> seq<Observation>, chunk: seq<string>)
    ensures |ChunkLines(frame, chunk)| <= 1
    ensures ChunkLines(frame, chunk) != [] ==> chunk != [] && ChunkLines(frame, chunk)[0].week == ChunkLabel(chunk)
  {
  }

  /** The gathered rows are empty exactly when every file's rows are. */
  lemma {:induction false} GatherEmpty<T>(frame: string -> seq<T>, files: seq<string>)
    ensures Gather(frame, files) == [] <==> forall i :: 0 <= i < |files| ==> frame(files[i]) == []
  {
    if files != [] {
      GatherEmpty(frame, DropLast(files));
      assert forall i :: 0 <= i < |files| - 1 ==> DropLast(files)[i] == files[i];
    }
  }

  /** At most one line per chunk: ceil(n / 7) lines for n files at most. */
  lemma {:induction false} RunChunksBound(frame: string -> seq<Observation>, cs: seq<seq<string>>)
    ensures |RunChunks(frame, cs)| <= |cs|
  {
    if cs != [] {
      RunChunksBound(frame, DropLast(cs));
      ChunkLineLabel(frame, Last(cs));
    }
  }

  /** Every line carries the label of a chunk, in chunk order: line `i`
      comes from a chunk at or after chunk `i`. */
  predicate Labelled(ls: seq<ChunkWeek>, cs: seq<seq<string>>) {
    forall i :: 0 <= i < |ls| ==> LabelFrom(ls[i].week, cs, i)
  }

  /** `week` is the label of a chunk at or after chunk `i`. */
  predicate LabelFrom(week: string, cs: seq<seq<string>>, i: nat) {
    exists k :: i <= k < |cs| && cs[k] != [] && week == ChunkLabel(cs[k])
  }

  /** The labelling survives one more chunk and its line, if any. */
  lemma LabelledSnoc(prev: seq<ChunkWeek>, line: seq<ChunkWeek>, cs: seq<seq<string>>)
    requires cs != [] && Labelled(prev, DropLast(cs)) && |prev| <= |cs| - 1
    requires |line| <= 1 && (line != [] ==> Last(cs) != [] && line[0].week == ChunkLabel(Last(cs)))
    ensures Labelled(prev + line, cs)
  {
    var ls, front := prev + line, DropLast(cs);
    forall i | 0 <= i < |ls|
      ensures LabelFrom(ls[i].week, cs, i)
    {
      if i < |prev| {
        assert ls[i] == prev[i] && LabelFrom(prev[i].week, front, i);
        var k :| i <= k < |front| && front[k] != [] && prev[i].week == ChunkLabel(front[k]);
        assert cs[k] == front[k];
      } else {
        assert ls[i] == line[0];
      }
    }
  }

  lemma {:induction false} RunChunksLabels(frame: string -> seq<Observation>, cs: seq<seq<string>>)
    ensures Labelled(RunChunks(frame, cs), cs)
  {
    if cs != [] {
      var front := DropLast(cs);
      RunChunksLabels(frame, front);
      RunChunksBound(frame, front);
      ChunkLineLabel(frame, Last(cs));
      LabelledSnoc(RunChunks(frame, front), ChunkLines(frame, Last(cs)), cs);
    }
  }

  /** The output file afterwards: its old rows followed by one line per
      chunk with kept rows, a header exactly when the file was new, and no
      other file touched. */
  lemma RunOutput(fs: Files<ChunkWeek>, frame: string -> seq<Observation>, files: seq<string>)
    ensures OutputPath in Run(fs, frame, files)
    ensures RowsOf(Run(fs, frame, files)[OutputPath]) == RowsOf(Lines(fs, OutputPath)) + RunChunks(frame, Chunks(files))
    ensures Headers(Run(fs, frame, files)[OutputPath]) == if OutputPath in fs then Headers(fs[OutputPath]) else 1
    ensures OutputPath !in fs ==> WellFormed(Run(fs, frame, files)[OutputPath])
    ensures forall p :: p in fs && p != OutputPath ==> Run(fs, frame, files)[p] == fs[p]
  {
    AppendRowsEffect(Prepared(fs), OutputPath, RunChunks(frame, Chunks(files)));
    HeaderOnly<ChunkWeek>(Columns);
    assert DataLines<ChunkWeek>([]) == [];
  }

  /** The flush condition of the loop, after the file at `idx` of `n`. */
  predicate FlushAfter(idx: nat, n: nat) {
    (idx + 1) % ChunkSize == 0 || idx + 1 == n
  }

  /** The loop state after `idx` files: they split into the files `done`
      of the flushed chunks, whose lines are in `out`, and the files `open`
      of the open chunk, whose non-empty frames `batch` holds. The flushed
      files are whole chunks of seven, except once the last file is
      flushed; then nothing is open. */
  ghost predicate Looping(fs: Files<ChunkWeek>, frame: string -> seq<Observation>, files: seq<string>, idx: nat,
                          done: seq<string>, open: seq<string>, batch: seq<seq<Observation>>, out: Files<ChunkWeek>)
  {
    idx <= |files| && done + open == files[..idx] &&
    ((|done| % ChunkSize == 0 && |open| < ChunkSize) || idx == |files|) &&
    (idx == |files| ==> open == []) &&
    out == AppendRows(fs, OutputPath, RunChunks(frame, Chunks(done))) &&
    (forall k :: 0 <= k < |batch| ==> batch[k] != []) &&
    Concat(batch) == Gather(frame, open)
  }

  /** The loop body on the file at `idx`: its kept rows join the batch, and
      at a flush point the batch, when not empty, is summarised under the
      file's prefix and appended, and the batch is reset. */
  method ReadFile(fs: Files<ChunkWeek>, frame: string -> seq<Observation>, files: seq<string>, idx: nat,
                  ghost done: seq<string>, ghost open: seq<string>, batch: seq<seq<Observation>>, out: Files<ChunkWeek>)
    returns (ghost done': seq<string>, ghost open': seq<string>, batch': seq<seq<Observation>>, out': Files<ChunkWeek>)
    requires idx < |files|
    requires Looping(fs, frame, files, idx, done, open, batch, out)
    ensures Looping(fs, frame, files, idx + 1, done', open', batch', out')
  {
    var name := files[idx];
    var grown := batch + Frames(frame(name));
    if FlushAfter(idx, |files|) {
      FlushStep(fs, frame, files, idx, done, open, batch, out);
      done', open', batch', out' := done + (open + [name]), [], [], Flush(out, grown, name);
    } else {
      OpenStep(fs, frame, files, idx, done, open, batch, out);
      done', open', batch', out' := done, open + [name], grown, out;
    }
  }

  /** Reading the file at `idx` extends the files read and the batch. */
  lemma ReadStep(frame: string -> seq<Observation>, files: seq<string>, idx: nat,
                 done: seq<string>, open: seq<string>, batch: seq<seq<Observation>>)
    requires idx < |files| && done + open == files[..idx]
    requires forall k :: 0 <= k < |batch| ==> batch[k] != []
    requires Concat(batch) == Gather(frame, open)
    ensures done + (open + [files[idx]]) == files[..idx + 1]
    ensures forall k :: 0 <= k < |batch + Frames(frame(files[idx]))| ==> (batch + Frames(frame(files[idx])))[k] != []
    ensures Concat(batch + Frames(frame(files[idx]))) == Gather(frame, open + [files[idx]])
  {
    var data := frame(files[idx]);
    TakeSnoc(files, idx);
    AppendAssoc(done, open, [files[idx]]);
    GatherSnoc(frame, open, files[idx]);
    ConcatAppend(batch, Frames(data));
    var grown := batch + Frames(data);
    assert forall k :: |batch| <= k < |grown| ==> grown[k] == Frames(data)[k - |batch|];
  }

  /** A file joins the open chunk. */
  lemma OpenStep(fs: Files<ChunkWeek>, frame: string -> seq<Observation>, files: seq<string>, idx: nat,
                 done: seq<string>, open: seq<string>, batch: seq<seq<Observation>>, out: Files<ChunkWeek>)
    requires idx < |files| && !FlushAfter(idx, |files|)
    requires Looping(fs, frame, files, idx, done, open, batch, out)
    ensures Looping(fs, frame, files, idx + 1, done, open + [files[idx]], batch + Frames(frame(files[idx])), out)
  {
    ReadStep(frame, files, idx, done, open, batch);
    assert |done| + |open| == idx;
    ChunkGap(|done|, |open|);
  }

  /** An open chunk shorter than seven that does not end at a multiple of
      seven stays shorter than seven. */
  lemma ChunkGap(d: nat, n: nat)
    requires d % ChunkSize == 0 && n < ChunkSize && (d + n + 1) % ChunkSize != 0
    ensures n + 1 < ChunkSize
  {
  }

  /** The file that completes a chunk: the chunk is flushed and the batch
      starts afresh. */
  lemma FlushStep(fs: Files<ChunkWeek>, frame: string -> seq<Observation>, files: seq<string>, idx: nat,
                  done: seq<string>, open: seq<string>, batch: seq<seq<Observation>>, out: Files<ChunkWeek>)
    requires idx < |files| && FlushAfter(idx, |files|)
    requires Looping(fs, frame, files, idx, done, open, batch, out)
    ensures Looping(fs, frame, files, idx + 1, done + (open + [files[idx]]), [], [],
                    Flush(out, batch + Frames(frame(files[idx])), files[idx]))
  {
    var chunk := open + [files[idx]];
    ReadStep(frame, files, idx, done, open, batch);
    assert |done| + |open| == idx && |done + chunk| == idx + 1;
    FlushChunk(fs, frame, done, chunk, batch + Frames(frame(files[idx])), out);
    assert Last(chunk) == files[idx];
    assert done + chunk + [] == done + chunk;
  }

  /** The loop of `process_directory` after the header check: a file's kept
      rows join the batch, and after every seventh file and after the last
      one the batch, when not empty, is summarised and appended. */
  method ProcessFiles(fs: Files<ChunkWeek>, frame: string -> seq<Observation>, files: seq<string>)
    returns (out: Files<ChunkWeek>)
    requires OutputPath in fs
    ensures out == AppendRows(fs, OutputPath, RunChunks(frame, Chunks(files)))
  {
    var batch: seq<seq<Observation>> := [];
    out := fs;
    var idx := 0;
    ghost var done, open := [], [];
    LoopStart(fs, frame, files);
    while idx < |files|
      invariant idx <= |files|
      invariant Looping(fs, frame, files, idx, done, open, batch, out)
    {
      done, open, batch, out := ReadFile(fs, frame, files, idx, done, open, batch, out);
      idx := idx + 1;
    }
    LoopEnd(fs, frame, files, done, open, batch, out);
  }

  lemma LoopStart(fs: Files<ChunkWeek>, frame: string -> seq<Observation>, files: seq<string>)
    requires OutputPath in fs
    ensures Looping(fs, frame, files, 0, [], [], [], fs)
  {
    assert files[..0] == [] && Chunks<string>([]) == [];
    assert Lines(fs, OutputPath) + DataLines<ChunkWeek>([]) == fs[OutputPath];
  }

  lemma LoopEnd(fs: Files<ChunkWeek>, frame: string -> seq<Observation>, files: seq<string>,
                done: seq<string>, open: seq<string>, batch: seq<seq<Observation>>, out: Files<ChunkWeek>)
    requires Looping(fs, frame, files, |files|, done, open, batch, out)
    ensures out == AppendRows(fs, OutputPath, RunChunks(frame, Chunks(files)))
  {
    TakeAll(files);
    assert done + [] == done;
  }

  lemma RunChunksSnoc(frame: string -> seq<Observation>, cs: seq<seq<string>>, c: seq<string>)
    ensures RunChunks(frame, cs + [c]) == RunChunks(frame, cs) + ChunkLines(frame, c)
  {
    assert DropLast(cs + [c]) == cs;
  }

  /** The flush at the file `name`: a non-empty batch is summarised under
      the file's date prefix and appended without header. */
  function Flush(out: Files<ChunkWeek>, batch: seq<seq<Observation>>, name: string): Files<ChunkWeek> {
    if batch != [] then AppendRows(out, OutputPath, [ChunkSummary(Concat(batch), DatePrefix(name))]) else out
  }

  /** One flush of the loop: after whole chunks `done`, the one to seven
      files `chunk` are the next chunk, and flushing their batch continues
      the run. */
  lemma FlushChunk(fs: Files<ChunkWeek>, frame: string -> seq<Observation>, done: seq<string>, chunk: seq<string>,
                   batch: seq<seq<Observation>>, out: Files<ChunkWeek>)
    requires |done| % ChunkSize == 0 && 1 <= |chunk| <= ChunkSize
    requires out == AppendRows(fs, OutputPath, RunChunks(frame, Chunks(done)))
    requires forall k :: 0 <= k < |batch| ==> batch[k] != []
    requires Concat(batch) == Gather(frame, chunk)
    ensures Flush(out, batch, Last(chunk)) == AppendRows(fs, OutputPath, RunChunks(frame, Chunks(done + chunk)))
  {
    var prev := RunChunks(frame, Chunks(done));
    var line := ChunkLines(frame, chunk);
    FlushLine(frame, chunk, batch, out);
    AppendRowsTwice(fs, OutputPath, prev, line);
    ChunksSnoc(done, chunk);
    RunChunksSnoc(frame, Chunks(done), chunk);
  }

  /** Flushing the batch of a chunk appends the chunk's line, if any. */
  lemma FlushLine(frame: string -> seq<Observation>, chunk: seq<string>, batch: seq<seq<Observation>>, out: Files<ChunkWeek>)
    requires chunk != [] && OutputPath in out
    requires forall k :: 0 <= k < |batch| ==> batch[k] != []
    requires Concat(batch) == Gather(frame, chunk)
    ensures Flush(out, batch, Last(chunk)) == AppendRows(out, OutputPath, ChunkLines(frame, chunk))
  {
    ConcatEmpty(batch);
    if batch == [] {
      assert Lines(out, OutputPath) + DataLines<ChunkWeek>([]) == out[OutputPath];
    }
  }

  /** `process_directory`: prepare the output file, then run the loop over
      the sorted `.CSV` names with the fixed keyword list. */
  method ProcessDirectory(fs: Files<ChunkWeek>, read: Reader, listing: seq<string>)
    returns (out: Files<ChunkWeek>)
    ensures out == Run(fs, ObservationsOf(read, AppleKeywords), CsvFiles(listing))
  {
    out := fs;
    if OutputPath !in fs {
      out := Write(fs, OutputPath, Columns, []);
    }
    out := ProcessFiles(out, ObservationsOf(read, AppleKeywords), CsvFiles(listing));
  }

  /** Without a watermark the result depends only on which files the
      directory holds: reordering the listing changes nothing. */
  lemma NoWatermark(fs: Files<ChunkWeek>, frame: string -> seq<Observation>, a: seq<string>, b: seq<string>)
    requires multiset(a) == multiset(b)
    ensures Run(fs, frame, CsvFiles(a)) == Run(fs, frame, CsvFiles(b))
  {
    ListingOrderIrrelevant(a, b);
  }
}

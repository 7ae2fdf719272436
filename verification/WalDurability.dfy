/**
 What the flusher leaves behind: the log on disk is the history of its writes, and the
 table is the run's initial table with every successfully written batch applied in LSN
 order.
 */
module WalDurability {
  import opened Sorting
  import opened Records
  import opened Segments
  import opened Recovery
  import opened WalMachine
  import opened WalOwnership
  import opened WalAnswers

  /** Everything the writes left on disk, in order. */
  function Left(fs: seq<Flush>): seq<Stream> {
    if fs == [] then [] else Left(fs[..|fs| - 1]) + fs[|fs| - 1].left
  }

  /** The batches of the successful writes, in order. */
  function Oks(fs: seq<Flush>): seq<Batch> {
    if fs == [] then []
    else Oks(fs[..|fs| - 1]) + (if fs[|fs| - 1].ok then [fs[|fs| - 1].batch] else [])
  }

  /** A write holds a batch in push order; it is on disk when acknowledged and may be when not. */
  ghost predicate FlushShape(f: Flush) {
    && f.batch != [] && |f.left| <= 1
    && (f.ok ==> |f.left| == 1)
    && (f.left != [] ==> f.left[0].data == Logs(f.batch) && f.left[0].acked == f.ok)
  }

  ghost predicate DiskOk(files: seq<LogFile>, baseLog: seq<Stream>, fs: seq<Flush>) {
    && AllChunks(files) == baseLog + Left(fs)
    && forall j :: 0 <= j < |fs| ==> FlushShape(fs[j])
  }

  /** A successful write whose records are not all applied yet. */
  predicate MidFlush(f: Flusher) { f.Applying? || (f.Notifying? && f.ok) }

  ghost predicate DoneOk(f: Flusher, fs: seq<Flush>, done: seq<Batch>) {
    && |Oks(fs)| == |done| + (if MidFlush(f) then 1 else 0)
    && forall i :: 0 <= i < |done| ==> IsSorting(RequestLeq, Oks(fs)[i], done[i])
  }

  /** The requests applied so far, in order. */
  function Applied(f: Flusher, done: seq<Batch>): Batch {
    Concat(done) + (if f.Applying? && f.at <= |f.sorted| then AsPushed(f.sorted)[..f.at] else [])
  }

  ghost predicate TableOk(s: State) {
    s.table == ApplyAll(s.base, Logs(Applied(s.flusher, s.done)))
  }

  ghost predicate Durable(s: State) {
    DiskOk(s.disk.files, s.baseLog, s.flushes) && DoneOk(s.flusher, s.flushes, s.done) && TableOk(s)
  }

  // ---------------------------------------------------------------- preservation

  lemma LeftAppend(fs: seq<Flush>, f: Flush)
    ensures Left(fs + [f]) == Left(fs) + f.left
    ensures Oks(fs + [f]) == Oks(fs) + (if f.ok then [f.batch] else [])
  {
    assert (fs + [f])[..|fs|] == fs;
  }

  lemma WriteShape(disk: Segment<seq<Log>>, b: Batch, size: nat, fate: Fate)
    requires (disk.hasFile ==> disk.files != []) && b != []
    ensures var w := Persist(disk, Logs(b), size, fate); var left := Persisted(disk, Logs(b), size, fate);
      AllChunks(w.seg.files) == AllChunks(disk.files) + left && FlushShape(Flush(b, w.ok, left))
  {
    PersistExtendsLog(disk, Logs(b), size, fate);
  }

  lemma DiskOkMore(files: seq<LogFile>, now: seq<LogFile>, baseLog: seq<Stream>, fs: seq<Flush>, f: Flush)
    requires DiskOk(files, baseLog, fs) && FlushShape(f) && AllChunks(now) == AllChunks(files) + f.left
    ensures DiskOk(now, baseLog, fs + [f])
  {
    LeftAppend(fs, f);
    assert baseLog + Left(fs) + f.left == baseLog + (Left(fs) + f.left);
  }

  lemma WriteKeepsDiskOk(s: State, fate: Fate)
    requires DiskOk(s.disk.files, s.baseLog, s.flushes) && Enabled(s, Write(fate)) && FlusherOk(s)
    ensures var s' := DoWrite(s, fate); DiskOk(s'.disk.files, s'.baseLog, s'.flushes)
  {
    var s', b := DoWrite(s, fate), s.flusher.batch;
    WriteShape(s.disk, b, s.cfg.streamSize(Logs(b)), fate);
    DiskOkMore(s.disk.files, s'.disk.files, s.baseLog, s.flushes, s'.flushes[|s.flushes|]);
  }

  lemma WriteKeepsDoneOk(s: State, fate: Fate)
    requires DoneOk(s.flusher, s.flushes, s.done) && Enabled(s, Write(fate))
    ensures var s' := DoWrite(s, fate); DoneOk(s'.flusher, s'.flushes, s'.done)
  {
    LeftAppend(s.flushes, DoWrite(s, fate).flushes[|s.flushes|]);
  }

  lemma OksLast(fs: seq<Flush>)
    requires fs != [] && fs[|fs| - 1].ok
    ensures Oks(fs) != [] && Oks(fs)[|Oks(fs)| - 1] == fs[|fs| - 1].batch
  {
  }

  lemma LogsConcat(a: Batch, b: Batch)
    ensures Logs(a + b) == Logs(a) + Logs(b)
  {
  }

  lemma AppliedOneMore(mode: Mode, sorted: Batch, at: nat, done: seq<Batch>)
    requires at < |sorted|
    ensures Applied(Applying(mode, sorted, at + 1), done) == Applied(Applying(mode, sorted, at), done) + [AsPushed(sorted)[at]]
  {
    var b := AsPushed(sorted);
    assert b[..at + 1] == b[..at] + [b[at]];
  }

  lemma ApplyOneMore(t: Table, b: Batch, x: Request)
    ensures ApplyAll(t, Logs(b + [x])) == ApplyOrSkip(ApplyAll(t, Logs(b)), x.log)
  {
    var rs := Logs(b + [x]);
    assert rs[..|rs| - 1] == Logs(b) && rs[|rs| - 1] == x.log;
  }

  lemma ApplyNextKeepsTable(s: State)
    requires TableOk(s) && Enabled(s, ApplyNext)
    ensures TableOk(Do(s, ApplyNext))
  {
    AppliedOneMore(s.flusher.mode, s.flusher.sorted, s.flusher.at, s.done);
    ApplyOneMore(s.base, Applied(s.flusher, s.done), AsPushed(s.flusher.sorted)[s.flusher.at]);
  }

  lemma DoneOkMore(f: Flusher, fs: seq<Flush>, done: seq<Batch>)
    requires DoneOk(f, fs, done) && FlusherFits(f, fs) && f.Applying?
    ensures DoneOk(AfterFlush(f.mode), fs, done + [AsPushed(f.sorted)])
  {
    OksLast(fs);
  }

  lemma AppliedAll(f: Flusher, done: seq<Batch>)
    requires f.Applying? && f.at == |f.sorted|
    ensures Applied(AfterFlush(f.mode), done + [AsPushed(f.sorted)]) == Applied(f, done)
  {
    var b := AsPushed(f.sorted);
    ConcatAppend(done, b);
    assert b[..f.at] == b;
  }

  lemma FinishKeepsDurable(s: State)
    requires Durable(s) && FlusherOk(s) && Enabled(s, Finish)
    ensures Durable(Do(s, Finish))
  {
    if s.flusher.Applying? {
      DoneOkMore(s.flusher, s.flushes, s.done);
      AppliedAll(s.flusher, s.done);
    } else {
      DurableFrame(s, Do(s, Finish));
    }
  }

  lemma SortKeepsTable(s: State, sorted: Batch)
    requires TableOk(s) && Enabled(s, SortBatch(sorted))
    ensures TableOk(Do(s, SortBatch(sorted)))
  {
    assert AsPushed(sorted)[..0] == [];
  }

  /** Steps that neither write nor apply. */
  ghost predicate SameLogAndTable(s: State, s': State) {
    && s'.disk == s.disk && s'.baseLog == s.baseLog && s'.flushes == s.flushes
    && s'.table == s.table && s'.base == s.base && s'.done == s.done
    && (s'.flusher == s.flusher ||
        (!s.flusher.Applying? && !s'.flusher.Applying? && MidFlush(s.flusher) == MidFlush(s'.flusher)))
  }

  lemma DurableFrame(s: State, s': State)
    requires Durable(s) && SameLogAndTable(s, s')
    ensures Durable(s')
  {
  }

  lemma WriteKeepsDurable(s: State, fate: Fate)
    requires Durable(s) && FlusherOk(s) && Enabled(s, Write(fate))
    ensures Durable(DoWrite(s, fate))
  {
    WriteKeepsDiskOk(s, fate);
    WriteKeepsDoneOk(s, fate);
    assert Applied(DoWrite(s, fate).flusher, s.done) == Applied(s.flusher, s.done);
  }

  predicate TouchesLogOrTable(step: Step) { step.Write? || step.SortBatch? || step.ApplyNext? || step.Finish? }

  lemma QuietLeft(s: State, step: Step)
    requires Enabled(s, step) && LeavesCalls(step) && !TouchesLogOrTable(step)
    ensures SameLogAndTable(s, Do(s, step))
  {
  }

  lemma QuietStep(s: State, step: Step)
    requires Enabled(s, step) && !TouchesLogOrTable(step)
    ensures SameLogAndTable(s, Do(s, step))
  {
    if LeavesCalls(step) { QuietLeft(s, step); }
  }

  lemma StepKeepsDurable(s: State, step: Step)
    requires Durable(s) && FlusherOk(s) && Enabled(s, step)
    ensures Durable(Do(s, step))
  {
    if !TouchesLogOrTable(step) {
      QuietStep(s, step);
      DurableFrame(s, Do(s, step));
    } else {
      match step
      case Write(fate) => WriteKeepsDurable(s, fate);
      case SortBatch(sorted) => SortKeepsTable(s, sorted);
      case ApplyNext => ApplyNextKeepsTable(s);
      case Finish => FinishKeepsDurable(s);
    }
  }
}

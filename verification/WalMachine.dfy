/**
 The write-ahead log as a step machine: engine calls that draw an LSN, append to the
 active batch, hand sealed batches to a channel and wait on a promise; and one flusher
 that takes or seals batches, writes them to a segment, resolves the promises, sorts by
 LSN and applies to the table. Each step is one atomic operation of the code; scheduling,
 the ticker, disk faults and the choices of sort.Slice are the parameters of the steps.
 */
module WalMachine {
  import opened Sorting
  import opened Records
  import opened Segments
  import opened Recovery
  import Ids = IdGenerator

  const CHANNEL_CAPACITY := 5

  /** The codec is known by the sizes it produces: of one record alone and of a whole flush. */
  datatype Config = Config(batchCount: int, batchVolume: int, recordSize: Log -> nat, streamSize: seq<Log> -> nat)

  /** A WriteRequest copied by value: chan names the channel all copies share, promised is the copy's own flag. */
  datatype Request = Request(log: Log, chan: nat, promised: bool)

  type Batch = seq<Request>

  /** A promise's channel: open and empty, closed holding the outcome, or closed and drained. */
  datatype Cell = Unset | Full(err: bool) | Drained

  /** Rejected calls drew LSN 0; Handing calls hold a sealed batch to send. */
  datatype Phase = Begun | Drawn | Rejected | Handing | Waiting | Returned(err: bool)

  datatype Call = Call(op: Op, lsn: int, phase: Phase, cell: Cell)

  /** Closing: the drain saw the channel empty, the last seal and flush follow. */
  datatype Mode = Serving | Draining | Closing

  datatype Flusher =
    | Select(mode: Mode)
    | Writing(mode: Mode, batch: Batch)
    | Notifying(mode: Mode, batch: Batch, next: nat, ok: bool)
    | Applying(mode: Mode, sorted: Batch, at: nat)
    | Exited

  /** History of one segment write: its batch in push order, its outcome and what it left on disk. */
  datatype Flush = Flush(batch: Batch, ok: bool, left: seq<Stream>)

  /** flushes, done, base and baseLog are history: all writes of this run, the batches applied, and what the run started from. */
  datatype State = State(
    cfg: Config, gen: Ids.Gen, calls: seq<Call>,
    batch: Batch, volume: int, hands: seq<Batch>, queue: seq<Batch>,
    flusher: Flusher, cancelled: bool, disk: Segment<seq<Log>>, table: Table, panicked: bool,
    flushes: seq<Flush>, done: seq<Batch>, base: Table, baseLog: seq<Stream>)

  /** What becomes of one write of the WAL writer: the batch does not encode, or the disk decides. */
  datatype Fate = Unencoded | Encoded(env: Env)

  datatype Step =
    | Begin(op: Op) | Draw(call: nat) | Append(call: nat) | Send(hand: nat) | Get(call: nat)
    | Cancel
    | Take | Tick | SeeCancel | SeeEmpty | FinalSeal
    | Write(fate: Fate) | Notify | SortBatch(sorted: Batch) | ApplyNext | Finish

  /** The records of a batch, one by one. */
  function Logs(b: Batch): seq<Log> { seq(|b|, i requires 0 <= i < |b| => b[i].log) }

  predicate RequestLeq(a: Request, b: Request) { LsnLeq(a.log, b.log) }

  /** A batch as it was before any flag of its copies was set. */
  function AsPushed(b: Batch): Batch { seq(|b|, i requires 0 <= i < |b| => b[i].(promised := false)) }

  /** The request a call pushes. */
  function Req(calls: seq<Call>, i: nat): Request
    requires i < |calls|
  {
    Request(ToLog(calls[i].op, calls[i].lsn), i, false)
  }

  datatype Accepted<+R> = Accepted(batch: seq<R>, volume: int, sealed: seq<R>)

  /** The locked section of push: append, add the size, seal on either threshold. */
  function Accept<R>(count: int, limit: int, batch: seq<R>, volume: int, r: R, size: nat): Accepted<R> {
    var b, v := batch + [r], volume + size;
    if |b| >= count || v >= limit then Accepted([], 0, b) else Accepted(b, v, [])
  }

  function AfterFlush(mode: Mode): Flusher { if mode == Closing then Exited else Select(mode) }

  /** flushBatch returns at once on an empty batch. */
  function StartFlush(mode: Mode, b: Batch): Flusher {
    if b == [] then AfterFlush(mode) else Writing(mode, b)
  }

  /** The producer whose append sealed a batch is the owner of its last request. */
  function Owner(b: Batch): nat
    requires b != []
  {
    b[|b| - 1].chan
  }

  ghost predicate Enabled(s: State, step: Step) {
    match step
    case Begin(_) => true
    case Draw(i) => i < |s.calls| && s.calls[i].phase == Begun && Ids.Enabled(s.gen, Ids.DrawId(i))
    case Append(i) => i < |s.calls| && s.calls[i].phase == Drawn
    case Send(k) => k < |s.hands| && s.hands[k] != [] && Owner(s.hands[k]) < |s.calls| && |s.queue| < CHANNEL_CAPACITY
    case Get(i) => i < |s.calls| && s.calls[i].phase == Waiting && s.calls[i].cell.Full?
    case Cancel => !s.cancelled
    case Take => (s.flusher == Select(Serving) || s.flusher == Select(Draining)) && s.queue != []
    case Tick => s.flusher == Select(Serving)
    case SeeCancel => s.flusher == Select(Serving) && s.cancelled
    case SeeEmpty => s.flusher == Select(Draining) && s.queue == []
    case FinalSeal => s.flusher == Select(Closing)
    case Write(_) => s.flusher.Writing? && (s.disk.hasFile ==> s.disk.files != [])
    case Notify =>
      s.flusher.Notifying? && s.flusher.next < |s.flusher.batch| && s.flusher.batch[s.flusher.next].chan < |s.calls|
    case SortBatch(sorted) =>
      && s.flusher.Notifying? && s.flusher.next == |s.flusher.batch| && s.flusher.ok
      && IsSorting(RequestLeq, s.flusher.batch, sorted)
    case ApplyNext => s.flusher.Applying? && s.flusher.at < |s.flusher.sorted|
    case Finish =>
      || (s.flusher.Notifying? && s.flusher.next == |s.flusher.batch| && !s.flusher.ok)
      || (s.flusher.Applying? && s.flusher.at == |s.flusher.sorted|)
  }

  function DoAppend(s: State, i: nat): State
    requires i < |s.calls|
  {
    var r := Req(s.calls, i);
    var a := Accept(s.cfg.batchCount, s.cfg.batchVolume, s.batch, s.volume, r, s.cfg.recordSize(r.log));
    if a.sealed == [] then
      s.(batch := a.batch, volume := a.volume, calls := s.calls[i := s.calls[i].(phase := Waiting)])
    else
      s.(batch := a.batch, volume := a.volume, hands := s.hands + [a.sealed],
         calls := s.calls[i := s.calls[i].(phase := Handing)])
  }

  /** An encoding error ends the write before the segment is touched. */
  function Persist(disk: Segment<seq<Log>>, data: seq<Log>, size: nat, fate: Fate): Written<seq<Log>>
    requires disk.hasFile ==> disk.files != []
  {
    match fate
    case Unencoded => Written(disk, false)
    case Encoded(env) => Segments.Write(disk, data, size, env)
  }

  /** What that leaves on disk. */
  function Persisted(disk: Segment<seq<Log>>, data: seq<Log>, size: nat, fate: Fate): seq<Stream> {
    match fate
    case Unencoded => []
    case Encoded(env) => Added(disk, data, size, env)
  }

  function DoWrite(s: State, fate: Fate): State
    requires s.flusher.Writing? && (s.disk.hasFile ==> s.disk.files != [])
  {
    var b := s.flusher.batch;
    var data := Logs(b);
    var size := s.cfg.streamSize(data);
    var w := Persist(s.disk, data, size, fate);
    s.(disk := w.seg, flusher := Notifying(s.flusher.mode, b, 0, w.ok),
       flushes := s.flushes + [Flush(b, w.ok, Persisted(s.disk, data, size, fate))])
  }

  /** A write of the writer adds exactly its stream on success, and nothing or its unacknowledged stream on an error. */
  lemma PersistExtendsLog(disk: Segment<seq<Log>>, data: seq<Log>, size: nat, fate: Fate)
    requires disk.hasFile ==> disk.files != []
    ensures var w, left := Persist(disk, data, size, fate), Persisted(disk, data, size, fate);
      && (w.seg.hasFile ==> w.seg.files != [])
      && AllChunks(w.seg.files) == AllChunks(disk.files) + left
      && (w.ok <==> left == [Chunk(data, size, true)])
      && (!w.ok ==> left == [] || left == [Chunk(data, size, false)])
  {
    if fate.Encoded? { WriteExtendsLog(disk, data, size, fate.env); }
  }

  /**
   When the write of a batch succeeds: its records encode, the data is stored, and either a
   file has to be started, can be, and its name is not taken, or none has to be and the
   current one is not closed. A batch that does not encode leaves the disk alone.
   */
  lemma PersistSucceedsIff(disk: Segment<seq<Log>>, data: seq<Log>, size: nat, fate: Fate)
    requires disk.hasFile ==> disk.files != []
    ensures Persist(disk, data, size, fate).ok <==>
      && fate.Encoded? && fate.env.io == Stored
      && (if !disk.hasFile || (disk.maxSegmentSize > 0 && disk.segmentSize > 0 && disk.segmentSize + size > disk.maxSegmentSize)
          then fate.env.creates && forall i :: 0 <= i < |disk.files| ==> disk.files[i].stamp != fate.env.stamp
          else !disk.closed)
    ensures fate.Unencoded? ==> Persist(disk, data, size, fate).seg == disk && Persisted(disk, data, size, fate) == []
  {
    if fate.Encoded? { WriteSucceedsIff(disk, data, size, fate.env); }
  }

  /** promise.Set on the batch's copy: nothing when its flag is set, a panic when the channel is closed. */
  function Notified(calls: seq<Call>, r: Request, ok: bool): seq<Call>
    requires r.chan < |calls|
  {
    if r.promised || calls[r.chan].cell != Unset then calls
    else calls[r.chan := calls[r.chan].(cell := Full(!ok))]
  }

  /** Set marks the batch's own copy. */
  function Flagged(b: Batch, k: nat): Batch
    requires k < |b|
  {
    b[k := b[k].(promised := true)]
  }

  function DoNotify(s: State): State
    requires s.flusher.Notifying? && s.flusher.next < |s.flusher.batch| && s.flusher.batch[s.flusher.next].chan < |s.calls|
  {
    var r := s.flusher.batch[s.flusher.next];
    s.(flusher := Notifying(s.flusher.mode, Flagged(s.flusher.batch, s.flusher.next), s.flusher.next + 1, s.flusher.ok),
       calls := Notified(s.calls, r, s.flusher.ok),
       panicked := s.panicked || (!r.promised && s.calls[r.chan].cell != Unset))
  }

  function Do(s: State, step: Step): State
    requires Enabled(s, step)
  {
    match step
    case Begin(op) => s.(gen := Ids.Do(s.gen, Ids.StartCall), calls := s.calls + [Call(op, 0, Begun, Unset)])
    case Draw(i) =>
      var g := Ids.Do(s.gen, Ids.DrawId(i));
      var phase := if g.counter == 0 then Rejected else Drawn;
      s.(gen := g, calls := s.calls[i := s.calls[i].(lsn := g.counter, phase := phase)])
    case Append(i) => DoAppend(s, i)
    case Send(k) =>
      var b := s.hands[k];
      s.(hands := s.hands[..k] + s.hands[k + 1..], queue := s.queue + [b],
         calls := s.calls[Owner(b) := s.calls[Owner(b)].(phase := Waiting)])
    case Get(i) => s.(calls := s.calls[i := s.calls[i].(phase := Returned(s.calls[i].cell.err), cell := Drained)])
    case Cancel => s.(cancelled := true)
    case Take => s.(queue := s.queue[1..], flusher := StartFlush(s.flusher.mode, s.queue[0]))
    case Tick => s.(batch := [], volume := 0, flusher := StartFlush(Serving, s.batch))
    case SeeCancel => s.(flusher := Select(Draining))
    case SeeEmpty => s.(flusher := Select(Closing))
    case FinalSeal => s.(batch := [], volume := 0, flusher := StartFlush(Closing, s.batch))
    case Write(fate) => DoWrite(s, fate)
    case Notify => DoNotify(s)
    case SortBatch(sorted) => s.(flusher := Applying(s.flusher.mode, sorted, 0))
    case ApplyNext =>
      s.(table := ApplyOrSkip(s.table, s.flusher.sorted[s.flusher.at].log),
         flusher := Applying(s.flusher.mode, s.flusher.sorted, s.flusher.at + 1))
    case Finish =>
      s.(flusher := AfterFlush(s.flusher.mode),
         done := if s.flusher.Applying? then s.done + [AsPushed(s.flusher.sorted)] else s.done)
  }

  /** A run starts with nothing pending, the LSN counter at 0, on any directory. */
  ghost predicate Initial(s: State) {
    && s.gen == Ids.NewGen(0) && s.calls == [] && s.batch == [] && s.volume == 0 && s.hands == [] && s.queue == []
    && s.flusher == Select(Serving) && !s.cancelled && !s.panicked && s.flushes == [] && s.done == []
    && s.base == s.table && s.baseLog == AllChunks(s.disk.files) && (s.disk.hasFile ==> s.disk.files != [])
  }

  ghost predicate Legal(s: State, steps: seq<Step>)
    decreases |steps|, 0
  {
    steps == [] || (Legal(s, steps[..|steps| - 1]) && Enabled(Run(s, steps[..|steps| - 1]), steps[|steps| - 1]))
  }

  ghost function Run(s: State, steps: seq<Step>): State
    requires Legal(s, steps)
    decreases |steps|, 1
  {
    if steps == [] then s else Do(Run(s, steps[..|steps| - 1]), steps[|steps| - 1])
  }

  lemma {:induction false} LegalPrefix(s: State, steps: seq<Step>, k: nat)
    requires Legal(s, steps) && k <= |steps|
    ensures Legal(s, steps[..k])
  {
    if k == |steps| {
      assert steps[..k] == steps;
    } else {
      LegalPrefix(s, steps[..|steps| - 1], k);
      assert steps[..|steps| - 1][..k] == steps[..k];
    }
  }

  /** The state after the first k steps of a run. */
  ghost function StateAt(s: State, steps: seq<Step>, k: nat): State
    requires Legal(s, steps) && k <= |steps|
  {
    LegalPrefix(s, steps, k);
    Run(s, steps[..k])
  }

  lemma StateAtFront(s: State, steps: seq<Step>, n: nat, k: nat)
    requires Legal(s, steps) && k <= n <= |steps|
    ensures Legal(s, steps[..n]) && StateAt(s, steps[..n], k) == StateAt(s, steps, k)
  {
    LegalPrefix(s, steps, n);
    assert steps[..n][..k] == steps[..k];
  }

  lemma StateAtEnd(s: State, steps: seq<Step>)
    requires Legal(s, steps)
    ensures StateAt(s, steps, |steps|) == Run(s, steps)
  {
    assert steps[..|steps|] == steps;
  }

  lemma StateAtNext(s: State, steps: seq<Step>, k: nat)
    requires Legal(s, steps) && k < |steps|
    ensures Enabled(StateAt(s, steps, k), steps[k]) && StateAt(s, steps, k + 1) == Do(StateAt(s, steps, k), steps[k])
  {
    LegalPrefix(s, steps, k + 1);
    var front := steps[..k + 1];
    assert front[..|front| - 1] == steps[..k] && front[|front| - 1] == steps[k];
  }

  lemma RunOne(s: State, steps: seq<Step>, step: Step)
    requires Legal(s, steps) && Enabled(Run(s, steps), step)
    ensures Legal(s, steps + [step]) && Run(s, steps + [step]) == Do(Run(s, steps), step)
  {
    assert (steps + [step])[..|steps|] == steps;
  }

  lemma RunTwo(s: State, steps: seq<Step>, a: Step, b: Step, mid: State)
    requires Legal(s, steps) && Enabled(Run(s, steps), a) && Do(Run(s, steps), a) == mid && Enabled(mid, b)
    ensures Legal(s, steps + [a, b]) && Run(s, steps + [a, b]) == Do(mid, b)
  {
    RunOne(s, steps, a);
    RunOne(s, steps + [a], b);
    assert steps + [a, b] == steps + [a] + [b];
  }

  lemma RunLast(s: State, steps: seq<Step>, step: Step)
    requires Legal(s, steps + [step])
    ensures Legal(s, steps) && Enabled(Run(s, steps), step) && Run(s, steps + [step]) == Do(Run(s, steps), step)
  {
    assert (steps + [step])[..|steps|] == steps;
  }

  lemma {:induction false} RunConcat(s: State, a: seq<Step>, b: seq<Step>)
    requires Legal(s, a) && Legal(Run(s, a), b)
    ensures Legal(s, a + b) && Run(s, a + b) == Run(Run(s, a), b)
  {
    if b == [] {
      assert a + b == a;
    } else {
      var front, step := b[..|b| - 1], b[|b| - 1];
      assert b == front + [step];
      RunLast(Run(s, a), front, step);
      RunConcat(s, a, front);
      RunOne(s, a + front, step);
      assert a + b == (a + front) + [step];
    }
  }
}

/**
 Order over whole runs: a write that returned success before another one began precedes
 it in the log, in the order of application and by LSN; and what a shutdown leaves behind.
 */
module WalOrder {
  import opened Sorting
  import opened Records
  import opened Segments
  import opened Recovery
  import opened WalMachine
  import opened WalOwnership
  import opened WalAnswers
  import opened WalDurability
  import opened WalLimits
  import opened WalRuns

  // ---------------------------------------------------------------- what later states keep

  ghost predicate CallsLater(c: seq<Call>, c': seq<Call>) {
    && |c| <= |c'|
    && forall i :: 0 <= i < |c| ==>
         && c'[i].op == c[i].op
         && (IsPushed(c[i]) ==> IsPushed(c'[i]) && c'[i].lsn == c[i].lsn)
         && (c[i].cell != Unset ==> c'[i].cell != Unset)
         && (c[i].phase.Returned? ==> c'[i] == c[i])
  }

  /** Occurrences in the flusher's hand or in a write: requests the flusher has taken. */
  function Taken(s: State, r: Request): nat { In(Unwritten(s.flusher), r) + InFlushes(s.flushes, r) }

  ghost predicate Later(s: State, s': State) {
    && CallsLater(s.calls, s'.calls)
    && s.flushes <= s'.flushes
    && (InRange(s') ==> Ids.Later(s.gen, s'.gen))
    && (forall r :: Taken(s, r) <= Taken(s', r))
  }

  lemma CallsLaterUpdate(c: seq<Call>, i: nat, x: Call)
    requires i < |c| && x.op == c[i].op && !c[i].phase.Returned?
    requires IsPushed(c[i]) ==> IsPushed(x) && x.lsn == c[i].lsn
    requires c[i].cell != Unset ==> x.cell != Unset
    ensures CallsLater(c, c[i := x])
  {
  }

  lemma StepCallsLater(s: State, step: Step)
    requires Owned(s) && FlusherOk(s) && Answers(s) && Enabled(s, step)
    ensures CallsLater(s.calls, Do(s, step).calls)
  {
    match step
    case Draw(i) => CallsLaterUpdate(s.calls, i, Do(s, step).calls[i]);
    case Append(i) => CallsLaterUpdate(s.calls, i, DoAppend(s, i).calls[i]);
    case Get(i) => CallsLaterUpdate(s.calls, i, Do(s, step).calls[i]);
    case Send(k) =>
      var o := Owner(s.hands[k]);
      OwnerUnanswered(s, k);
      CallsLaterUpdate(s.calls, o, s.calls[o].(phase := Waiting));
    case Notify =>
      var x := s.flusher.batch[s.flusher.next];
      NotifySends(s);
      assert AnswerAt(s, x);
      CallsLaterUpdate(s.calls, x.chan, s.calls[x.chan].(cell := Full(!s.flusher.ok)));
    case Begin(_) => case Take => case Write(_) =>
    case Cancel => case Tick => case SeeCancel => case SeeEmpty => case FinalSeal =>
    case SortBatch(_) => case ApplyNext => case Finish =>
  }

  lemma StepGenLater(s: State, step: Step)
    requires Numbered(s) && Enabled(s, step) && InRange(Do(s, step))
    ensures Ids.Later(s.gen, Do(s, step).gen)
  {
    match step
    case Begin(_) => Ids.StepIsLater(0, s.gen, Ids.StartCall);
    case Draw(i) => Ids.StepIsLater(0, s.gen, Ids.DrawId(i));
    case _ => assert Do(s, step).gen == s.gen;
  }

  lemma StepTakenLater(s: State, step: Step, r: Request)
    requires Enabled(s, step)
    ensures Taken(s, r) <= Taken(Do(s, step), r)
  {
    if step.Write? {
      WriteTakesNothing(s, step.fate, r);
    } else if !step.Take? && !step.Tick? && !step.FinalSeal? {
      OtherStepsTakeNothing(s, step, r);
    }
  }

  lemma FlushesLater(s: State, step: Step)
    requires Enabled(s, step)
    ensures s.flushes <= Do(s, step).flushes
  {
  }

  lemma StepLater(s: State, step: Step)
    requires Inv(s) && Enabled(s, step)
    ensures Later(s, Do(s, step))
  {
    StepCallsLater(s, step);
    if InRange(Do(s, step)) { StepGenLater(s, step); }
    FlushesLater(s, step);
    forall r ensures Taken(s, r) <= Taken(Do(s, step), r) { StepTakenLater(s, step, r); }
  }

  lemma LaterTransitive(a: State, b: State, c: State)
    requires Later(a, b) && Later(b, c) && (InRange(c) ==> InRange(b))
    ensures Later(a, c)
  {
    if InRange(c) { Ids.LaterTransitive(a.gen, b.gen, c.gen); }
    forall r ensures Taken(a, r) <= Taken(c, r) { assert Taken(a, r) <= Taken(b, r) <= Taken(c, r); }
  }

  lemma StepKeepsCallCount(s: State, step: Step)
    requires Inv(s) && Enabled(s, step) && InRange(Do(s, step))
    ensures InRange(s)
  {
    StepCallsLater(s, step);
    StepKeepsNumbered(s, step);
  }

  lemma {:induction false} PrefixLater(s: State, steps: seq<Step>, m: nat)
    requires Initial(s) && Legal(s, steps) && m <= |steps|
    ensures Later(StateAt(s, steps, m), Run(s, steps))
    ensures InRange(Run(s, steps)) ==> InRange(StateAt(s, steps, m))
  {
    var n := |steps| - 1;
    if m == |steps| {
      StateAtEnd(s, steps);
      LaterReflexive(Run(s, steps));
    } else {
      PrefixLater(s, steps[..n], m);
      StateAtFront(s, steps, n, m);
      ReachableInv(s, steps[..n]);
      var before := Run(s, steps[..n]);
      StepLater(before, steps[n]);
      if InRange(Run(s, steps)) { StepKeepsCallCount(before, steps[n]); }
      LaterTransitive(StateAt(s, steps, m), before, Run(s, steps));
    }
  }

  lemma ReachableAt(s: State, steps: seq<Step>, m: nat)
    requires Initial(s) && Legal(s, steps) && m <= |steps|
    ensures Inv(StateAt(s, steps, m))
  {
    LegalPrefix(s, steps, m);
    ReachableInv(s, steps[..m]);
  }

  lemma LaterReflexive(s: State)
    ensures Later(s, s)
  {
  }

  // ---------------------------------------------------------------- order in the log

  lemma {:induction false} OksPrefix(fs: seq<Flush>, gs: seq<Flush>)
    requires fs <= gs
    ensures Oks(fs) <= Oks(gs)
  {
    if |gs| > |fs| {
      assert fs <= gs[..|gs| - 1];
      OksPrefix(fs, gs[..|gs| - 1]);
    } else {
      assert fs == gs;
    }
  }

  /** Nothing begun after mid is in a write that mid has already seen. */
  lemma NotInEarlierWrite(mid: State, now: State, b: nat, j: nat)
    requires Inv(mid) && Later(mid, now) && |mid.calls| <= b < |now.calls| && j < |mid.flushes|
    ensures Req(now.calls, b) !in now.flushes[j].batch
  {
    var r := Req(now.calls, b);
    assert now.flushes[j] == mid.flushes[j];
    assert OwnedAt(mid, r);
    InFlushesAt(mid.flushes, j, r);
    assert In(mid.flushes[j].batch, r) == 0;
  }

  ghost predicate RanBefore(s: State, steps: seq<Step>, m: nat, a: nat, b: nat) {
    && Initial(s) && Legal(s, steps) && m <= |steps|
    && a < |StateAt(s, steps, m).calls| && StateAt(s, steps, m).calls[a].phase == Returned(false)
    && |StateAt(s, steps, m).calls| <= b < |Run(s, steps).calls|
  }

  /**
   Real-time order in the log: when call a returned success before call b began, a's
   record is in a successful write, and any write that holds b's record comes later.
   */
  lemma RealTimeOrderInLog(s: State, steps: seq<Step>, m: nat, a: nat, b: nat) returns (i: nat)
    requires RanBefore(s, steps, m, a, b)
    ensures var now := Run(s, steps);
      && a < |now.calls| && i < |StateAt(s, steps, m).flushes| <= |now.flushes|
      && now.flushes[i].ok && Req(now.calls, a) in now.flushes[i].batch
      && forall j :: 0 <= j < |now.flushes| && Req(now.calls, b) in now.flushes[j].batch ==> i < j
  {
    PrefixLater(s, steps, m);
    ReachableAt(s, steps, m);
    var mid, now := StateAt(s, steps, m), Run(s, steps);
    assert AnswerAt(mid, Req(mid.calls, a)) && IsRequest(mid.calls, Req(mid.calls, a));
    i := AnsweredWrite(mid, a);
    assert now.flushes[i] == mid.flushes[i];
    forall j | 0 <= j < |now.flushes| && Req(now.calls, b) in now.flushes[j].batch ensures i < j {
      if j < |mid.flushes| { NotInEarlierWrite(mid, now, b, j); }
    }
  }

  /** Real-time order of LSNs, so every LSN-sorted order that holds both has a first. */
  lemma RealTimeOrderOfLsns(s: State, steps: seq<Step>, m: nat, a: nat, b: nat)
    requires RanBefore(s, steps, m, a, b) && InRange(Run(s, steps)) && Run(s, steps).calls[b].phase != Begun
    ensures a < |Run(s, steps).calls| && Run(s, steps).calls[a].lsn < Run(s, steps).calls[b].lsn
  {
    PrefixLater(s, steps, m);
    ReachableAt(s, steps, m);
    ReachableInv(s, steps);
    var mid, now := StateAt(s, steps, m), Run(s, steps);
    assert mid.gen.slots[a] == Ids.Got(mid.calls[a].lsn);
    assert now.gen.slots[b] == Ids.Got(now.calls[b].lsn);
  }

  // ---------------------------------------------------------------- order of application

  lemma {:induction false} ConcatPrefix<T>(ss: seq<seq<T>>, k: nat)
    requires k <= |ss|
    ensures Concat(ss[..k]) <= Concat(ss)
  {
    if k < |ss| {
      ConcatPrefix(ss[..|ss| - 1], k);
      assert ss[..|ss| - 1][..k] == ss[..k];
    } else {
      assert ss[..k] == ss;
    }
  }

  /** The batch that holds a position of the concatenation. */
  lemma {:induction false} PositionInConcat<T>(ss: seq<seq<T>>, q: nat) returns (k: nat)
    requires q < |Concat(ss)|
    ensures k < |ss| && |Concat(ss[..k])| <= q && Concat(ss)[q] in ss[k]
  {
    var n := |ss| - 1;
    if q < |Concat(ss[..n])| {
      k := PositionInConcat(ss[..n], q);
      assert ss[..n][..k] == ss[..k];
    } else {
      k := n;
    }
  }

  /** Elements of earlier batches come at earlier positions. */
  lemma EarlierBatchEarlierPosition<T>(ss: seq<seq<T>>, i: nat, k: nat, x: T) returns (p: nat)
    requires i < k <= |ss| && x in ss[i]
    ensures p < |Concat(ss[..k])| <= |Concat(ss)| && Concat(ss)[p] == x
  {
    assert ss[..k][i] == ss[i];
    ConcatMember(ss[..k], x);
    p :| 0 <= p < |Concat(ss[..k])| && Concat(ss[..k])[p] == x;
    ConcatPrefix(ss, k);
  }

  /** The batches applied so far, the one being applied last. */
  function AppliedBatches(s: State): seq<Batch> {
    if s.flusher.Applying? && s.flusher.at <= |s.flusher.sorted| then s.done + [AsPushed(s.flusher.sorted)[..s.flusher.at]] else s.done
  }

  lemma AppliedIsConcat(s: State)
    ensures Applied(s.flusher, s.done) == Concat(AppliedBatches(s))
  {
    if s.flusher.Applying? && s.flusher.at <= |s.flusher.sorted| {
      ConcatAppend(s.done, AsPushed(s.flusher.sorted)[..s.flusher.at]);
    } else {
      assert Concat(s.done) + [] == Concat(s.done);
    }
  }

  /** What is applied from the k-th batch is in the k-th successful write. */
  lemma AppliedBatchOfWrite(s: State, k: nat, x: Request)
    requires Inv(s) && k < |AppliedBatches(s)| && x in AppliedBatches(s)[k]
    ensures k < |Oks(s.flushes)| && x in Oks(s.flushes)[k]
  {
    if k < |s.done| {
      SameMembers(Oks(s.flushes)[k], s.done[k], x);
    } else {
      OksLast(s.flushes);
      assert x in AsPushed(s.flusher.sorted);
      SameMembers(s.flushes[|s.flushes| - 1].batch, AsPushed(s.flusher.sorted), x);
    }
  }

  /**
   Real-time order of application: when call a returned success before call b began, b is
   applied only after a was.
   */
  lemma RealTimeOrderOfApplication(s: State, steps: seq<Step>, m: nat, a: nat, b: nat, q: nat) returns (p: nat)
    requires RanBefore(s, steps, m, a, b)
    requires var now := Run(s, steps); var applied := Applied(now.flusher, now.done);
      q < |applied| && applied[q] == Req(now.calls, b)
    ensures var now := Run(s, steps); var applied := Applied(now.flusher, now.done);
      a < |now.calls| && p < q && applied[p] == Req(now.calls, a)
  {
    PrefixLater(s, steps, m);
    ReachableAt(s, steps, m);
    ReachableInv(s, steps);
    var mid, now := StateAt(s, steps, m), Run(s, steps);
    var ra, rb := Req(now.calls, a), Req(now.calls, b);
    AppliedIsConcat(now);
    var k := PositionInConcat(AppliedBatches(now), q);
    AppliedBatchOfWrite(now, k, rb);
    var ka := EarlierOk(mid, now, a, b, k);
    assert ka < |now.done| && AppliedBatches(now)[ka] == now.done[ka];
    SameMembers(Oks(now.flushes)[ka], now.done[ka], ra);
    p := EarlierBatchEarlierPosition(AppliedBatches(now), ka, k, ra);
  }

  /** Among the successful writes, a's comes before b's. */
  lemma EarlierOk(mid: State, now: State, a: nat, b: nat, k: nat) returns (ka: nat)
    requires Inv(mid) && Later(mid, now)
    requires a < |mid.calls| && mid.calls[a].phase == Returned(false) && |mid.calls| <= b < |now.calls|
    requires k < |Oks(now.flushes)| && Req(now.calls, b) in Oks(now.flushes)[k]
    ensures ka < k && Req(now.calls, a) in Oks(now.flushes)[ka]
  {
    var r := Req(mid.calls, a);
    assert AnswerAt(mid, r) && IsRequest(mid.calls, r);
    var i := AnsweredWrite(mid, a);
    ka := OksIndex(mid.flushes, i);
    OksPrefix(mid.flushes, now.flushes);
    assert Req(now.calls, a) == r;
    if k < |Oks(mid.flushes)| {
      var j := OksMember(mid.flushes, k);
      NotInEarlierWrite(mid, now, b, j);
    }
  }

  // ---------------------------------------------------------------- order of replay

  /** What a write left on disk, in the order recovery applies it. */
  function ReplayOf(f: Flush): seq<Log> { if f.left == [] then [] else Sort(LsnLeq, Logs(f.batch)) }

  function Replays(fs: seq<Flush>): seq<seq<Log>> { seq(|fs|, i requires 0 <= i < |fs| => ReplayOf(fs[i])) }

  lemma ReplayOfLeft(f: Flush)
    requires FlushShape(f)
    ensures ReplayOrder(f.left) == ReplayOf(f)
  {
    if f.left != [] {
      assert f.left == [f.left[0]];
      ReplayOrderOne(f.left[0]);
    }
  }

  lemma LastReplay(fs: seq<Flush>)
    requires fs != []
    ensures Concat(Replays(fs)) == Concat(Replays(fs[..|fs| - 1])) + ReplayOf(fs[|fs| - 1])
  {
    assert Replays(fs)[..|fs| - 1] == Replays(fs[..|fs| - 1]);
  }

  lemma LastLeft(fs: seq<Flush>)
    requires fs != [] && FlushShape(fs[|fs| - 1])
    ensures ReplayOrder(Left(fs)) == ReplayOrder(Left(fs[..|fs| - 1])) + ReplayOf(fs[|fs| - 1])
  {
    ReplayOrderConcat(Left(fs[..|fs| - 1]), fs[|fs| - 1].left);
    ReplayOfLeft(fs[|fs| - 1]);
  }

  lemma {:induction false} ReplayOfWrites(fs: seq<Flush>)
    requires forall k :: 0 <= k < |fs| ==> FlushShape(fs[k])
    ensures ReplayOrder(Left(fs)) == Concat(Replays(fs))
  {
    if fs != [] {
      ReplayOfWrites(fs[..|fs| - 1]);
      LastReplay(fs);
      LastLeft(fs);
    }
  }

  /**
   The order in which recovery applies records: whatever sort.Slice does, those of the log
   the run started from, then those of this run's writes, write by write in LSN order.
   The files have to list in the order they were created in.
   */
  lemma ReplayFollowsOrder(site: Site, s: State, orders: seq<seq<Log>>)
    requires Inv(s) && InRange(s) && DistinctStreams(s.baseLog) && FilesInOrder(s.disk.files)
    requires SortsFiles(Listing(site, s.disk.files), orders)
    ensures Concat(orders) == ReplayOrder(s.baseLog) + Concat(Replays(s.flushes))
  {
    ListingInOrder(site, s.disk.files);
    LeftDistinct(s);
    RecoveryOrder(s.disk.files, orders);
    ReplayOrderConcat(s.baseLog, Left(s.flushes));
    ReplayOfWrites(s.flushes);
  }

  lemma {:induction false} LeftFromFlush(fs: seq<Flush>, c: Stream) returns (j: nat)
    requires c in Left(fs)
    ensures j < |fs| && c in fs[j].left
  {
    var n := |fs| - 1;
    if c in fs[n].left { j := n; } else { j := LeftFromFlush(fs[..n], c); }
  }

  lemma LeftDistinct(s: State)
    requires Inv(s) && InRange(s) && DistinctStreams(s.baseLog)
    ensures DistinctStreams(AllChunks(s.disk.files))
  {
    forall c | c in Left(s.flushes) ensures DistinctLsns(c.data) {
      var j := LeftFromFlush(s.flushes, c);
      assert FlushShape(s.flushes[j]) && c == s.flushes[j].left[0];
      FlushHasDistinctLsns(s, j);
    }
  }

  lemma InReplayOf(f: Flush, x: Log)
    ensures x in ReplayOf(f) <==> f.left != [] && x in Logs(f.batch)
  {
    var data := Logs(f.batch);
    assert x in Sort(LsnLeq, data) <==> x in multiset(Sort(LsnLeq, data));
    assert x in data <==> x in multiset(data);
  }

  /** Only call b's own request carries b's record. */
  lemma RecordIdentifiesCall(s: State, j: nat, b: nat)
    requires Inv(s) && InRange(s) && j < |s.flushes| && b < |s.calls| && IsPushed(s.calls[b])
    requires Req(s.calls, b).log in Logs(s.flushes[j].batch)
    ensures Req(s.calls, b) in s.flushes[j].batch
  {
    var batch, rb := s.flushes[j].batch, Req(s.calls, b);
    var k :| 0 <= k < |batch| && Logs(batch)[k] == rb.log;
    assert In(batch, batch[k]) > 0;
    InFlushesAt(s.flushes, j, batch[k]);
    assert OwnedAt(s, batch[k]) && IsRequest(s.calls, rb);
    if batch[k] != rb { RequestsHaveDistinctLsns(s, batch[k], rb); }
  }

  /**
   Real-time order of replay: among the records that recovery applies for this run, for
   every choice sort.Slice makes, a record of a call that began after a returned success
   comes after a's record. LSNs restart, so the run's records are those after the records
   of the log it started from.
   */
  lemma RealTimeOrderOfReplay(
    site: Site, s: State, steps: seq<Step>, orders: seq<seq<Log>>, m: nat, a: nat, b: nat, q: nat) returns (p: nat)
    requires RanBefore(s, steps, m, a, b) && InRange(Run(s, steps)) && IsPushed(Run(s, steps).calls[b])
    requires DistinctStreams(s.baseLog) && FilesInOrder(Run(s, steps).disk.files)
    requires SortsFiles(Listing(site, Run(s, steps).disk.files), orders)
    requires |ReplayOrder(s.baseLog)| <= q < |Concat(orders)| && Concat(orders)[q] == Req(Run(s, steps).calls, b).log
    ensures a < |Run(s, steps).calls|
    ensures |ReplayOrder(s.baseLog)| <= p < q && Concat(orders)[p] == Req(Run(s, steps).calls, a).log
  {
    ReachableInv(s, steps);
    RunKeepsBase(s, steps);
    ReplayFollowsOrder(site, Run(s, steps), orders);
    var i := RealTimeOrderInLog(s, steps, m, a, b);
    p := EarlierInReplay(Run(s, steps), ReplayOrder(s.baseLog), Concat(orders), i, a, b, q);
  }

  /** Every write that holds call b's request comes after the i-th. */
  ghost predicate WrittenAfter(s: State, i: nat, b: nat)
    requires b < |s.calls|
  {
    forall j :: 0 <= j < |s.flushes| && Req(s.calls, b) in s.flushes[j].batch ==> i < j
  }

  /** The list that holds a position behind base. */
  lemma PositionAfterBase<T>(base: seq<T>, ss: seq<seq<T>>, all: seq<T>, q: nat) returns (k: nat)
    requires all == base + Concat(ss) && |base| <= q < |all|
    ensures k < |ss| && |base| + |Concat(ss[..k])| <= q && all[q] in ss[k]
  {
    k := PositionInConcat(ss, q - |base|);
  }

  /** Elements of earlier lists come at earlier positions, behind base. */
  lemma EarlierAfterBase<T>(base: seq<T>, ss: seq<seq<T>>, all: seq<T>, i: nat, k: nat, x: T) returns (p: nat)
    requires all == base + Concat(ss) && i < k <= |ss| && x in ss[i]
    ensures |base| <= p < |base| + |Concat(ss[..k])| && p < |all| && all[p] == x
  {
    var h := EarlierBatchEarlierPosition(ss, i, k, x);
    p := |base| + h;
  }

  lemma EarlierInReplay(s: State, base: seq<Log>, all: seq<Log>, i: nat, a: nat, b: nat, q: nat) returns (p: nat)
    requires Inv(s) && InRange(s) && a < |s.calls| && b < |s.calls| && IsPushed(s.calls[b])
    requires i < |s.flushes| && s.flushes[i].ok && Req(s.calls, a) in s.flushes[i].batch
    requires WrittenAfter(s, i, b)
    requires all == base + Concat(Replays(s.flushes)) && |base| <= q < |all| && all[q] == Req(s.calls, b).log
    ensures |base| <= p < q && all[p] == Req(s.calls, a).log
  {
    var j := PositionAfterBase(base, Replays(s.flushes), all, q);
    InReplayOf(s.flushes[j], Req(s.calls, b).log);
    RecordIdentifiesCall(s, j, b);
    InOwnReplay(s, i, Req(s.calls, a));
    p := EarlierAfterBase(base, Replays(s.flushes), all, i, j, Req(s.calls, a).log);
  }

  lemma InOwnReplay(s: State, i: nat, r: Request)
    requires Inv(s) && i < |s.flushes| && s.flushes[i].ok && r in s.flushes[i].batch
    ensures r.log in ReplayOf(s.flushes[i])
  {
    var batch := s.flushes[i].batch;
    var k :| 0 <= k < |batch| && batch[k] == r;
    assert Logs(batch)[k] == r.log;
    assert FlushShape(s.flushes[i]);
    InReplayOf(s.flushes[i], r.log);
  }

  // ---------------------------------------------------------------- shutdown

  /** A request the flusher has taken is resolved once the flusher is between flushes. */
  lemma TakenIsResolved(s: State, r: Request)
    requires Inv(s) && Taken(s, r) > 0 && (s.flusher.Select? || s.flusher.Exited?)
    ensures IsRequest(s.calls, r) && s.calls[r.chan].cell != Unset
  {
    assert OwnedAt(s, r) && AnswerAt(s, r);
  }

  /** The step by which the flusher takes a request: from the channel, or by sealing the active batch. */
  predicate Takes(s: State, step: Step, r: Request) {
    || (step == Take && s.queue != [] && r in s.queue[0])
    || ((step == Tick || step == FinalSeal) && r in s.batch)
  }

  lemma TakesMeansTaken(s: State, step: Step, r: Request)
    requires Enabled(s, step) && Takes(s, step, r)
    ensures Taken(Do(s, step), r) > 0
  {
    if step == Take { assert In(s.queue[0], r) > 0; } else { assert In(s.batch, r) > 0; }
  }

  lemma WriteTakesNothing(s: State, fate: Fate, r: Request)
    requires Enabled(s, Write(fate))
    ensures Taken(DoWrite(s, fate), r) == Taken(s, r)
  {
    var s' := DoWrite(s, fate);
    assert s'.flushes == s.flushes + [s'.flushes[|s.flushes|]];
    InFlushesAppend(s.flushes, s'.flushes[|s.flushes|], r);
  }

  /** Every other step leaves what the flusher has taken alone. */
  lemma OtherStepsTakeNothing(s: State, step: Step, r: Request)
    requires Enabled(s, step) && !step.Write? && !step.Take? && !step.Tick? && !step.FinalSeal?
    ensures Taken(Do(s, step), r) == Taken(s, r)
  {
    assert Do(s, step).flushes == s.flushes;
    assert Unwritten(Do(s, step).flusher) == Unwritten(s.flusher);
  }

  lemma OnlyTakesTakes(s: State, step: Step, r: Request)
    requires Enabled(s, step)
    ensures Taken(Do(s, step), r) > Taken(s, r) ==> Takes(s, step, r)
  {
    match step
    case Write(fate) => WriteTakesNothing(s, fate, r);
    case Take => StartFlushHolds(s.flusher.mode, s.queue[0]);
    case Tick => StartFlushHolds(Serving, s.batch);
    case FinalSeal => StartFlushHolds(Closing, s.batch);
    case _ => OtherStepsTakeNothing(s, step, r);
  }

  /** Whatever the flusher has taken it took at some step. */
  lemma {:induction false} TakenAtSomeStep(s: State, steps: seq<Step>, r: Request) returns (m: nat)
    requires Initial(s) && Legal(s, steps) && Taken(Run(s, steps), r) > 0
    ensures m < |steps| && Takes(StateAt(s, steps, m), steps[m], r)
  {
    var n := |steps| - 1;
    var before := Run(s, steps[..n]);
    if Taken(before, r) > 0 {
      m := TakenAtSomeStep(s, steps[..n], r);
      StateAtFront(s, steps, n, m);
    } else {
      OnlyTakesTakes(before, steps[n], r);
      m := n;
    }
  }

  lemma TakenStaysTaken(s: State, steps: seq<Step>, m: nat, r: Request)
    requires Initial(s) && Legal(s, steps) && m < |steps| && Takes(StateAt(s, steps, m), steps[m], r)
    ensures Taken(Run(s, steps), r) > 0
  {
    StateAtNext(s, steps, m);
    TakesMeansTaken(StateAt(s, steps, m), steps[m], r);
    PrefixLater(s, steps, m + 1);
    assert Taken(StateAt(s, steps, m + 1), r) <= Taken(Run(s, steps), r);
  }

  /**
   Shutdown drain: when the flusher has exited, a request is resolved exactly when the
   flusher took it at some step, from the channel or from the active batch at a seal.
   */
  lemma ExitResolvesIff(s: State, steps: seq<Step>, i: nat)
    requires Initial(s) && Legal(s, steps) && Run(s, steps).flusher.Exited?
    requires i < |Run(s, steps).calls| && IsPushed(Run(s, steps).calls[i])
    ensures var now := Run(s, steps);
      now.calls[i].cell != Unset <==>
      exists m: nat :: m < |steps| && Takes(StateAt(s, steps, m), steps[m], Req(now.calls, i))
  {
    ReachableInv(s, steps);
    var now := Run(s, steps);
    var r := Req(now.calls, i);
    assert OwnedAt(now, r) && AnswerAt(now, r) && IsRequest(now.calls, r);
    if now.calls[i].cell != Unset {
      var m := TakenAtSomeStep(s, steps, r);
    }
    if m: nat :| m < |steps| && Takes(StateAt(s, steps, m), steps[m], r) {
      TakenStaysTaken(s, steps, m, r);
      TakenIsResolved(now, r);
    }
  }

  predicate PastDrain(f: Flusher) { f.Exited? || f.mode == Closing }

  predicate PastFinalSeal(f: Flusher) { PastDrain(f) && f != Select(Closing) }

  lemma StepIntoClosing(s: State, step: Step)
    requires Enabled(s, step)
    ensures !PastDrain(s.flusher) && PastDrain(Do(s, step).flusher) ==> step == SeeEmpty && s.queue == []
    ensures !PastFinalSeal(s.flusher) && PastFinalSeal(Do(s, step).flusher) ==>
              step == FinalSeal && Do(s, step).batch == [] && PastDrain(s.flusher)
  {
  }

  /** The drain saw the channel empty before step p. */
  lemma {:induction false} DrainSawEmpty(s: State, steps: seq<Step>) returns (p: nat)
    requires Initial(s) && Legal(s, steps) && PastDrain(Run(s, steps).flusher)
    ensures p < |steps| && steps[p] == SeeEmpty && StateAt(s, steps, p).queue == []
  {
    var n := |steps| - 1;
    var before := Run(s, steps[..n]);
    if PastDrain(before.flusher) {
      p := DrainSawEmpty(s, steps[..n]);
      StateAtFront(s, steps, n, p);
    } else {
      StepIntoClosing(before, steps[n]);
      p := n;
    }
  }

  /** Step q is the final seal, made after the drain; it leaves the active batch empty. */
  ghost predicate SealedAt(s: State, steps: seq<Step>, q: nat)
    requires Legal(s, steps)
  {
    && q < |steps| && steps[q] == FinalSeal
    && StateAt(s, steps, q + 1).batch == [] && PastDrain(StateAt(s, steps, q).flusher)
  }

  lemma LastStepSeals(s: State, steps: seq<Step>, n: nat)
    requires Legal(s, steps) && |steps| == n + 1 && Legal(s, steps[..n])
    requires PastFinalSeal(Run(s, steps).flusher) && !PastFinalSeal(Run(s, steps[..n]).flusher)
    ensures SealedAt(s, steps, n)
  {
    StepIntoClosing(Run(s, steps[..n]), steps[n]);
    StateAtEnd(s, steps);
  }

  lemma {:induction false} FinalSealEmptied(s: State, steps: seq<Step>) returns (q: nat)
    requires Initial(s) && Legal(s, steps) && PastFinalSeal(Run(s, steps).flusher)
    ensures SealedAt(s, steps, q)
  {
    var n := |steps| - 1;
    if PastFinalSeal(Run(s, steps[..n]).flusher) {
      q := FinalSealEmptied(s, steps[..n]);
      StateAtFront(s, steps, n, q);
      StateAtFront(s, steps, n, q + 1);
    } else {
      LastStepSeals(s, steps, n);
      q := n;
    }
  }

  /** Only a send puts a request into the channel. */
  lemma OnlySendQueues(s: State, step: Step, r: Request)
    requires Enabled(s, step)
    ensures InAll(Do(s, step).queue, r) > InAll(s.queue, r) ==> step.Send? && r in s.hands[step.hand]
  {
    if step.Send? {
      InAllAppend(s.queue, s.hands[step.hand], r);
    } else if step.Take? {
      InAllHead(s.queue, r);
    } else {
      assert Do(s, step).queue == s.queue;
    }
  }

  /** Only a call's own append puts its request into the active batch. */
  lemma OnlyAppendBatches(s: State, step: Step, r: Request)
    requires Enabled(s, step)
    ensures In(Do(s, step).batch, r) > In(s.batch, r) ==> step == Append(r.chan)
  {
    if step.Append? {
      var x := Req(s.calls, step.call);
      AcceptKeeps(s.cfg.batchCount, s.cfg.batchVolume, s.batch, s.volume, x, s.cfg.recordSize(x.log), r);
    } else if step.Tick? || step.FinalSeal? {
      assert Do(s, step).batch == [];
    } else {
      assert Do(s, step).batch == s.batch;
    }
  }

  /** Step k sends the batch that holds r. */
  ghost predicate SentAt(s: State, steps: seq<Step>, k: nat, r: Request)
    requires Legal(s, steps) && k < |steps|
  {
    && steps[k].Send? && steps[k].hand < |StateAt(s, steps, k).hands|
    && r in StateAt(s, steps, k).hands[steps[k].hand]
  }

  /** What is in the channel now and was not at p was sent since. */
  lemma {:induction false} SentSince(s: State, steps: seq<Step>, p: nat, r: Request) returns (k: nat)
    requires Legal(s, steps) && p <= |steps|
    requires InAll(StateAt(s, steps, p).queue, r) == 0 && InAll(Run(s, steps).queue, r) > 0
    ensures p <= k < |steps| && SentAt(s, steps, k, r)
  {
    StateAtEnd(s, steps);
    var n := |steps| - 1;
    StateAtFront(s, steps, n, p);
    if InAll(Run(s, steps[..n]).queue, r) > 0 {
      k := SentSince(s, steps[..n], p, r);
      StateAtFront(s, steps, n, k);
    } else {
      LastStepSends(s, steps, n, r);
      k := n;
    }
  }

  lemma LastStepSends(s: State, steps: seq<Step>, n: nat, r: Request)
    requires Legal(s, steps) && |steps| == n + 1 && Legal(s, steps[..n])
    requires InAll(Run(s, steps[..n]).queue, r) == 0 && InAll(Run(s, steps).queue, r) > 0
    ensures SentAt(s, steps, n, r)
  {
    OnlySendQueues(Run(s, steps[..n]), steps[n], r);
  }

  /** What is in the active batch now and was not at q was appended since. */
  lemma {:induction false} AppendedSince(s: State, steps: seq<Step>, q: nat, r: Request) returns (k: nat)
    requires Legal(s, steps) && q <= |steps|
    requires In(StateAt(s, steps, q).batch, r) == 0 && In(Run(s, steps).batch, r) > 0
    ensures q <= k < |steps| && steps[k] == Append(r.chan)
  {
    StateAtEnd(s, steps);
    var n := |steps| - 1;
    StateAtFront(s, steps, n, q);
    OnlyAppendBatches(Run(s, steps[..n]), steps[n], r);
    if In(Run(s, steps[..n]).batch, r) > 0 {
      k := AppendedSince(s, steps[..n], q, r);
    } else {
      k := n;
    }
  }

  /**
   A request still unresolved when the flusher has exited is in a producer's hand; or in
   the channel, sent at a step k after the drain saw the channel empty at p; or in the
   active batch, appended at a step k after the final seal emptied it at q.
   */
  lemma UnresolvedAfterExit(s: State, steps: seq<Step>, i: nat) returns (p: nat, q: nat, k: nat)
    requires Initial(s) && Legal(s, steps) && Run(s, steps).flusher.Exited?
    requires i < |Run(s, steps).calls| && IsPushed(Run(s, steps).calls[i]) && Run(s, steps).calls[i].cell == Unset
    ensures p < q < |steps| && steps[p] == SeeEmpty && steps[q] == FinalSeal
    ensures StateAt(s, steps, p).queue == [] && StateAt(s, steps, q + 1).batch == []
    ensures var now := Run(s, steps); var r := Req(now.calls, i);
      && In(now.batch, r) + InAll(now.hands, r) + InAll(now.queue, r) == 1
      && (InAll(now.queue, r) == 1 ==> p < k < |steps| && SentAt(s, steps, k, r))
      && (In(now.batch, r) == 1 ==> q < k < |steps| && steps[k] == Append(i))
  {
    LinearOwnership(s, steps, i);
    p, q := DrainThenSeal(s, steps);
    k := PutSince(s, steps, p, q + 1, Req(Run(s, steps).calls, i));
  }

  lemma DrainThenSeal(s: State, steps: seq<Step>) returns (p: nat, q: nat)
    requires Initial(s) && Legal(s, steps) && Run(s, steps).flusher.Exited?
    ensures p < q < |steps| && steps[p] == SeeEmpty && steps[q] == FinalSeal
    ensures StateAt(s, steps, p).queue == [] && StateAt(s, steps, q + 1).batch == []
  {
    q := FinalSealEmptied(s, steps);
    LegalPrefix(s, steps, q);
    p := DrainSawEmpty(s, steps[..q]);
    StateAtFront(s, steps, q, p);
  }

  lemma PutSince(s: State, steps: seq<Step>, p: nat, q: nat, r: Request) returns (k: nat)
    requires Legal(s, steps) && p < q <= |steps| && steps[p] == SeeEmpty
    requires StateAt(s, steps, p).queue == [] && StateAt(s, steps, q).batch == []
    requires In(Run(s, steps).batch, r) + InAll(Run(s, steps).queue, r) <= 1
    ensures InAll(Run(s, steps).queue, r) == 1 ==> p < k < |steps| && SentAt(s, steps, k, r)
    ensures In(Run(s, steps).batch, r) == 1 ==> q <= k < |steps| && steps[k] == Append(r.chan)
  {
    k := 0;
    if InAll(Run(s, steps).queue, r) == 1 {
      k := SentSince(s, steps, p, r);
    } else if In(Run(s, steps).batch, r) == 1 {
      k := AppendedSince(s, steps, q, r);
    }
  }

  // ---------------------------------------------------------------- a request the drain misses

  /** A process told to stop before its first write begins. */
  function StoppedEarly(op: Op): seq<Step> {
    [] + [Cancel, SeeCancel] + [SeeEmpty, FinalSeal] + [Begin(op), Draw(0)]
  }

  lemma StopsAtOnce(s: State)
    requires Initial(s)
    ensures var steps := [] + [Cancel, SeeCancel] + [SeeEmpty, FinalSeal];
      Legal(s, steps) && Run(s, steps) == s.(cancelled := true, flusher := Exited)
  {
    var a := s.(cancelled := true);
    RunTwo(s, [], Cancel, SeeCancel, a);
    RunTwo(s, [] + [Cancel, SeeCancel], SeeEmpty, FinalSeal, a.(flusher := Select(Closing)));
  }

  lemma StoppedEarlyRuns(s: State, op: Op)
    requires Initial(s)
    ensures Legal(s, StoppedEarly(op))
    ensures Run(s, StoppedEarly(op)) == WithCall(s.(cancelled := true, flusher := Exited), op, Drawn, Unset)
  {
    StopsAtOnce(s);
    var a := s.(cancelled := true, flusher := Exited);
    LoneDraw(a, op);
    RunTwo(s, [] + [Cancel, SeeCancel] + [SeeEmpty, FinalSeal], Begin(op), Draw(0), Begun1(a, op));
  }

  /** The drain does not reach everything: a write appended after the final seal is never resolved. */
  lemma AppendedAfterExit(s: State, op: Op)
    requires Initial(s) && s.cfg.batchCount > 1 && s.cfg.recordSize(ToLog(op, 1)) < s.cfg.batchVolume
    ensures Legal(s, StoppedEarly(op) + [Append(0)])
    ensures var now := Run(s, StoppedEarly(op) + [Append(0)]);
      now.flusher.Exited? && now.calls == [Call(op, 1, Waiting, Unset)] && now.batch == [Req(now.calls, 0)]
  {
    StoppedEarlyRuns(s, op);
    RunOne(s, StoppedEarly(op), Append(0));
  }
}

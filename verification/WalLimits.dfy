/**
 LSNs inside the machine, and the batching thresholds.
 */
module WalLimits {
  import opened Records
  import opened WalMachine
  import opened WalOwnership
  import opened WalAnswers

  // ---------------------------------------------------------------- LSNs

  /** The call's LSN is what the generator gave it. */
  ghost predicate Linked(gen: Ids.Gen, calls: seq<Call>) {
    && |gen.slots| == |calls|
    && forall i :: 0 <= i < |calls| ==>
         gen.slots[i] == if calls[i].phase == Begun then Ids.Open else Ids.Got(calls[i].lsn)
  }

  /** No more calls have begun than there are int64 LSNs. */
  ghost predicate InRange(s: State) { Ids.WithinRange(0, s.gen) }

  ghost predicate Numbered(s: State) {
    Linked(s.gen, s.calls) && (InRange(s) ==> Ids.Unique(0, s.gen))
  }

  lemma LinkedStep(s: State, step: Step)
    requires Linked(s.gen, s.calls) && Enabled(s, step)
    requires step.Send? ==> IsPushed(s.calls[Owner(s.hands[step.hand])])
    ensures Linked(Do(s, step).gen, Do(s, step).calls)
  {
    if LeavesCalls(step) {
      CallsLeft(s, step);
    } else if step.Append? {
      assert DoAppend(s, step.call).gen == s.gen;
    }
  }

  lemma StepKeepsNumbered(s: State, step: Step)
    requires Numbered(s) && Owned(s) && Enabled(s, step)
    ensures Numbered(Do(s, step))
  {
    if step.Send? { OwnerPushed(s, step.hand); }
    LinkedStep(s, step);
    if InRange(Do(s, step)) {
      match step
      case Begin(_) => Ids.StepKeepsUnique(0, s.gen, Ids.StartCall);
      case Draw(i) => Ids.StepKeepsUnique(0, s.gen, Ids.DrawId(i));
      case _ => assert Do(s, step).gen == s.gen;
    }
  }

  /** Different requests carry different LSNs. */
  lemma RequestsHaveDistinctLsns(s: State, a: Request, b: Request)
    requires Numbered(s) && InRange(s) && IsRequest(s.calls, a) && IsRequest(s.calls, b) && a != b
    ensures a.log.lsn != b.log.lsn
  {
    assert a.chan != b.chan;
    assert s.gen.slots[a.chan] == Ids.Got(a.log.lsn) && s.gen.slots[b.chan] == Ids.Got(b.log.lsn);
  }

  lemma InTwice(b: Batch, i: nat, j: nat)
    requires i < j < |b| && b[i] == b[j]
    ensures In(b, b[i]) >= 2
  {
    assert b == b[..j] + b[j..];
    assert b[i] in b[..j] && b[j] in b[j..];
  }

  /** A batch held anywhere has distinct LSNs. */
  lemma BatchHasDistinctLsns(s: State, b: Batch)
    requires Numbered(s) && InRange(s) && Owned(s)
    requires forall r :: In(b, r) <= Unflushed(s, r) + InFlushes(s.flushes, r)
    ensures DistinctLsns(Logs(b))
  {
    forall i, j | 0 <= i < j < |b| ensures Logs(b)[i].lsn != Logs(b)[j].lsn {
      assert In(b, b[i]) > 0 && In(b, b[j]) > 0;
      assert OwnedAt(s, b[i]) && OwnedAt(s, b[j]);
      if b[i] == b[j] { InTwice(b, i, j); }
      RequestsHaveDistinctLsns(s, b[i], b[j]);
    }
  }

  lemma FlushHasDistinctLsns(s: State, j: nat)
    requires Numbered(s) && InRange(s) && Owned(s) && j < |s.flushes|
    ensures DistinctLsns(Logs(s.flushes[j].batch))
  {
    forall r ensures In(s.flushes[j].batch, r) <= Unflushed(s, r) + InFlushes(s.flushes, r) {
      InFlushesAt(s.flushes, j, r);
    }
    BatchHasDistinctLsns(s, s.flushes[j].batch);
  }

  // ---------------------------------------------------------------- thresholds

  function Volume(cfg: Config, b: Batch): nat {
    if b == [] then 0 else Volume(cfg, b[..|b| - 1]) + cfg.recordSize(b[|b| - 1].log)
  }

  /** At most the count limit, and below the volume limit without the record that sealed it. */
  ghost predicate SealedOk(cfg: Config, b: Batch) {
    |b| <= cfg.batchCount && (b != [] ==> Volume(cfg, b[..|b| - 1]) < cfg.batchVolume)
  }

  ghost predicate AllSealedOk(cfg: Config, bs: seq<Batch>) {
    forall i :: 0 <= i < |bs| ==> SealedOk(cfg, bs[i])
  }

  ghost predicate WithinThresholds(s: State) {
    && |s.batch| < s.cfg.batchCount && s.volume == Volume(s.cfg, s.batch) < s.cfg.batchVolume
    && AllSealedOk(s.cfg, s.hands) && AllSealedOk(s.cfg, s.queue) && SealedOk(s.cfg, Unwritten(s.flusher))
    && (forall j :: 0 <= j < |s.flushes| ==> SealedOk(s.cfg, s.flushes[j].batch))
  }

  lemma {:induction false} ShorterVolume(cfg: Config, b: Batch)
    requires b != []
    ensures Volume(cfg, b[..|b| - 1]) <= Volume(cfg, b)
  {
  }

  lemma AcceptWithinLimits(cfg: Config, batch: Batch, x: Request)
    requires |batch| < cfg.batchCount && Volume(cfg, batch) < cfg.batchVolume && cfg.batchVolume >= 1
    ensures var a := Accept(cfg.batchCount, cfg.batchVolume, batch, Volume(cfg, batch), x, cfg.recordSize(x.log));
      && |a.batch| < cfg.batchCount && a.volume == Volume(cfg, a.batch) < cfg.batchVolume
      && SealedOk(cfg, a.sealed)
  {
    var b := batch + [x];
    assert b[..|b| - 1] == batch;
    assert Volume(cfg, []) == 0;
  }

  lemma AppendKeepsThresholds(s: State, i: nat)
    requires WithinThresholds(s) && Enabled(s, Append(i)) && s.cfg.batchCount >= 1 && s.cfg.batchVolume >= 1
    ensures WithinThresholds(DoAppend(s, i))
  {
    AcceptWithinLimits(s.cfg, s.batch, Req(s.calls, i));
  }

  /** Sealing by the flusher, on a tick or at the end. */
  lemma SealKeepsThresholds(s: State, mode: Mode)
    requires WithinThresholds(s)
    ensures SealedOk(s.cfg, Unwritten(StartFlush(mode, s.batch))) && Volume(s.cfg, []) == 0
  {
    if s.batch != [] { ShorterVolume(s.cfg, s.batch); }
  }

  lemma ThresholdsFrame(s: State, s': State)
    requires WithinThresholds(s) && s'.cfg == s.cfg && s'.batch == s.batch && s'.volume == s.volume
    requires s'.hands == s.hands && s'.queue == s.queue && s'.flushes == s.flushes
    requires Unwritten(s'.flusher) == Unwritten(s.flusher)
    ensures WithinThresholds(s')
  {
  }

  lemma StepKeepsThresholds(s: State, step: Step)
    requires WithinThresholds(s) && Enabled(s, step) && s.cfg.batchCount >= 1 && s.cfg.batchVolume >= 1
    ensures WithinThresholds(Do(s, step))
  {
    if MovesNothing(step) || step.Notify? {
      ThresholdsFrame(s, Do(s, step));
    } else {
      match step
      case Append(i) => AppendKeepsThresholds(s, i);
      case Tick => SealStepKeepsThresholds(s, step);
      case FinalSeal => SealStepKeepsThresholds(s, step);
      case Take => TakeKeepsThresholds(s);
      case Send(k) => SendKeepsThresholds(s, k);
      case Write(fate) => WriteKeepsThresholds(s, fate);
    }
  }

  lemma SealStepKeepsThresholds(s: State, step: Step)
    requires WithinThresholds(s) && Enabled(s, step) && (step.Tick? || step.FinalSeal?)
    requires s.cfg.batchCount >= 1 && s.cfg.batchVolume >= 1
    ensures WithinThresholds(Do(s, step))
  {
    SealKeepsThresholds(s, if step.Tick? then Serving else Closing);
  }

  lemma TakeKeepsThresholds(s: State)
    requires WithinThresholds(s) && Enabled(s, Take)
    ensures WithinThresholds(Do(s, Take))
  {
    StartFlushHolds(s.flusher.mode, s.queue[0]);
  }

  lemma SendKeepsThresholds(s: State, k: nat)
    requires WithinThresholds(s) && Enabled(s, Send(k))
    ensures WithinThresholds(Do(s, Send(k)))
  {
  }

  lemma WriteKeepsThresholds(s: State, fate: Fate)
    requires WithinThresholds(s) && Enabled(s, Write(fate))
    ensures WithinThresholds(DoWrite(s, fate))
  {
  }

  // ---------------------------------------------------------------- nothing is sealed early

  /** The batch has reached the count or the volume limit. */
  ghost predicate Reached(cfg: Config, b: Batch) { |b| >= cfg.batchCount || Volume(cfg, b) >= cfg.batchVolume }

  ghost predicate AllReached(cfg: Config, bs: seq<Batch>) { forall k :: 0 <= k < |bs| ==> Reached(cfg, bs[k]) }

  /** The volume is exact, and whatever a producer has sealed had reached a limit. */
  ghost predicate SealedInTime(s: State) {
    s.volume == Volume(s.cfg, s.batch) && AllReached(s.cfg, s.hands) && AllReached(s.cfg, s.queue)
  }

  /**
   An append seals the batch exactly when it reaches the count or the volume limit; then the
   caller holds the whole batch and the active one is empty, otherwise the record is added.
   */
  lemma AppendSealsIff(s: State, i: nat)
    requires SealedInTime(s) && Enabled(s, Append(i))
    ensures var s' := Do(s, Append(i));
      var all, volume := s.batch + [Req(s.calls, i)], Volume(s.cfg, s.batch) + s.cfg.recordSize(Req(s.calls, i).log);
      && volume == Volume(s.cfg, all)
      && (if |s.batch| + 1 >= s.cfg.batchCount || volume >= s.cfg.batchVolume
          then s'.hands == s.hands + [all] && s'.batch == [] && s'.volume == 0 && s'.calls[i].phase == Handing
          else s'.hands == s.hands && s'.batch == all && s'.volume == volume && s'.calls[i].phase == Waiting)
  {
    var all := s.batch + [Req(s.calls, i)];
    assert all[..|all| - 1] == s.batch;
  }

  lemma SealedInTimeFrame(s: State, s': State)
    requires SealedInTime(s) && s'.cfg == s.cfg && s'.batch == s.batch && s'.volume == s.volume
    requires s'.hands == s.hands && s'.queue == s.queue
    ensures SealedInTime(s')
  {
  }

  lemma AppendKeepsSealedInTime(s: State, i: nat)
    requires SealedInTime(s) && Enabled(s, Append(i))
    ensures SealedInTime(DoAppend(s, i))
  {
    AppendSealsIff(s, i);
    assert DoAppend(s, i).queue == s.queue && DoAppend(s, i).cfg == s.cfg;
    assert Volume(s.cfg, []) == 0;
  }

  lemma HandOverKeepsSealedInTime(s: State, step: Step)
    requires SealedInTime(s) && Enabled(s, step) && (step.Send? || step.Take? || step.Tick? || step.FinalSeal?)
    ensures SealedInTime(Do(s, step))
  {
    assert Volume(s.cfg, []) == 0;
  }

  lemma StepKeepsSealedInTime(s: State, step: Step)
    requires SealedInTime(s) && Enabled(s, step)
    ensures SealedInTime(Do(s, step))
  {
    if step.Append? {
      AppendKeepsSealedInTime(s, step.call);
    } else if step.Send? || step.Take? || step.Tick? || step.FinalSeal? {
      HandOverKeepsSealedInTime(s, step);
    } else {
      SealedInTimeFrame(s, Do(s, step));
    }
  }

  // ---------------------------------------------------------------- who is refused

  /** A call is refused exactly when the LSN it drew is 0. */
  ghost predicate RefusedIffZero(calls: seq<Call>) {
    forall i :: 0 <= i < |calls| ==> (calls[i].phase == Rejected <==> calls[i].phase != Begun && calls[i].lsn == 0)
  }

  lemma StepKeepsRefused(s: State, step: Step)
    requires RefusedIffZero(s.calls) && Owned(s) && Enabled(s, step)
    ensures RefusedIffZero(Do(s, step).calls)
  {
    if LeavesCalls(step) {
      CallsLeft(s, step);
    } else if step.Send? {
      OwnerPushed(s, step.hand);
    }
  }
}

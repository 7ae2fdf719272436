/**
 Progress: no state with an unresolved request is stuck while the flusher runs, every
 step towards resolution decreases a measure, and the number of flushes that remain is
 known in advance.
 */
module WalProgress {
  import opened Sorting
  import opened WalMachine
  import opened WalOwnership
  import opened WalAnswers
  import opened WalRuns

  /** Non-empty flushes still to come when nothing more is appended. */
  function Work(s: State): nat {
    |s.hands| + |s.queue| + (if s.flusher.Writing? then 1 else 0) + (if s.batch != [] then 1 else 0)
  }

  lemma StepConservesWork(s: State, step: Step)
    requires Inv(s) && Enabled(s, step) && !step.Append?
    ensures |Do(s, step).flushes| + Work(Do(s, step)) == |s.flushes| + Work(s)
  {
    if MovesNothing(step) { UnmovedKeepsWork(s, step); }
  }

  lemma UnmovedKeepsWork(s: State, step: Step)
    requires Enabled(s, step) && MovesNothing(step)
    ensures Do(s, step).flushes == s.flushes && Work(Do(s, step)) == Work(s)
  {
  }

  /**
   Bounded drain: from any point on without new appends, the writes done and the writes
   to come add up to a constant, so everything is flushed after exactly the batches in
   hand, queued, in the flusher's hand, and the active one.
   */
  lemma {:induction false} FlushesToCome(s: State, steps: seq<Step>, m: nat)
    requires Initial(s) && Legal(s, steps) && m <= |steps|
    requires forall k :: m <= k < |steps| ==> !steps[k].Append?
    ensures var mid, now := StateAt(s, steps, m), Run(s, steps);
      |now.flushes| + Work(now) == |mid.flushes| + Work(mid)
  {
    var n := |steps| - 1;
    if m == |steps| {
      StateAtEnd(s, steps);
    } else {
      StateAtFront(s, steps, n, m);
      FlushesToCome(s, steps[..n], m);
      ReachableInv(s, steps[..n]);
      StepConservesWork(Run(s, steps[..n]), steps[n]);
    }
  }

  ghost predicate AllResolved(s: State) {
    forall i :: 0 <= i < |s.calls| && IsPushed(s.calls[i]) ==> s.calls[i].cell != Unset
  }

  /** With no work left and no promise being resolved, every request is resolved. */
  lemma NoWorkAllResolved(s: State)
    requires Inv(s) && Work(s) == 0 && Unresolved(s.flusher) == []
    ensures AllResolved(s)
  {
    forall i | 0 <= i < |s.calls| && IsPushed(s.calls[i]) ensures s.calls[i].cell != Unset {
      assert AnswerAt(s, Req(s.calls, i)) && IsRequest(s.calls, Req(s.calls, i));
    }
  }

  // ---------------------------------------------------------------- no deadlock

  /** Steps that bring requests closer to resolution; a tick counts when there is something to seal. */
  predicate Progress(s: State, step: Step) {
    match step
    case Begin(_) => false
    case Draw(_) => false
    case Append(_) => false
    case Cancel => false
    case Tick => s.batch != []
    case _ => true
  }

  predicate Serves(f: Flusher) { !f.Exited? && f.mode == Serving }

  predicate MidStep(step: Step) { step.Write? || step.Notify? || step.SortBatch? || step.ApplyNext? || step.Finish? }

  /** What the flusher can do in the middle of a flush. */
  lemma FlushGoesOn(s: State) returns (step: Step)
    requires Inv(s) && !s.flusher.Select? && !s.flusher.Exited?
    ensures Enabled(s, step) && MidStep(step)
  {
    match s.flusher
    case Writing(_, _) => step := Write(Unencoded);
    case Notifying(_, b, next, ok) =>
      if next < |b| {
        step := Notify;
        BatchBeingNotified(s);
      } else if ok {
        step := SortBatch(Sort(RequestLeq, b));
        assert IsOrder(RequestLeq, b);
        SortSorts(RequestLeq, b);
      } else {
        step := Finish;
      }
    case Applying(_, sorted, at) => step := if at < |sorted| then ApplyNext else Finish;
  }

  lemma BatchBeingNotified(s: State)
    requires Inv(s) && s.flusher.Notifying? && s.flusher.next < |s.flusher.batch|
    ensures s.flusher.batch[s.flusher.next].chan < |s.calls|
  {
    var r := s.flushes[|s.flushes| - 1].batch[s.flusher.next];
    assert In(s.flushes[|s.flushes| - 1].batch, r) > 0;
    InFlushesAt(s.flushes, |s.flushes| - 1, r);
    assert OwnedAt(s, r);
  }

  /** An unresolved request is somewhere the flusher or its producer will find it. */
  lemma UnresolvedIsHeld(s: State, i: nat)
    requires Inv(s) && i < |s.calls| && IsPushed(s.calls[i]) && s.calls[i].cell == Unset && s.flusher.Select?
    ensures s.batch != [] || s.hands != [] || s.queue != []
  {
    var r := Req(s.calls, i);
    assert AnswerAt(s, r) && IsRequest(s.calls, r);
  }

  /**
   While the flusher runs, a state with an unresolved request always has an enabled step
   towards its resolution: a producer blocked on the full channel holds no lock.
   */
  lemma NoDeadlock(s: State, i: nat) returns (step: Step)
    requires Inv(s) && !s.flusher.Exited?
    requires i < |s.calls| && IsPushed(s.calls[i]) && s.calls[i].cell == Unset
    ensures Enabled(s, step) && Progress(s, step)
    ensures Serves(s.flusher) ==> step.Send? || step.Take? || step.Tick? || MidStep(step)
  {
    if !s.flusher.Select? {
      step := FlushGoesOn(s);
    } else {
      UnresolvedIsHeld(s, i);
      if s.flusher.mode == Closing {
        step := FinalSeal;
      } else if s.queue != [] {
        step := Take;
      } else if s.flusher.mode == Draining {
        step := SeeEmpty;
      } else if s.batch != [] {
        step := Tick;
      } else {
        step := Send(0);
        OwnerPushed(s, 0);
      }
    }
  }

  // ---------------------------------------------------------------- the measure

  function Unreturned(calls: seq<Call>): nat {
    if calls == [] then 0
    else Unreturned(calls[..|calls| - 1]) + (if calls[|calls| - 1].phase.Returned? then 0 else 1)
  }

  function HandOver(s: State): nat { 3 * |s.hands| + 2 * |s.queue| + (if s.batch != [] then 1 else 0) }

  /** Steps left in the current flush. */
  function FlushRank(f: Flusher): int {
    match f
    case Notifying(_, b, next, _) => 2 * |b| - next + 2
    case Applying(_, sorted, at) => |sorted| - at + 1
    case _ => 0
  }

  function ModeRank(f: Flusher): nat {
    if f.Exited? then 0 else if f.mode == Closing then 1 else if f.mode == Draining then 2 else 3
  }

  /** Lexicographic: flushes to come, batches to hand over, steps of this flush. */
  ghost predicate LessWork(s': State, s: State) {
    || Work(s') < Work(s)
    || (Work(s') == Work(s) && HandOver(s') < HandOver(s))
    || (Work(s') == Work(s) && HandOver(s') == HandOver(s) && 0 <= FlushRank(s'.flusher) < FlushRank(s.flusher))
  }

  /** The work is less, or the same and the mode is further on, or that too and fewer callers wait. */
  ghost predicate Less(s': State, s: State) {
    || LessWork(s', s)
    || (Work(s') == Work(s) && HandOver(s') == HandOver(s) && FlushRank(s'.flusher) == FlushRank(s.flusher) &&
        (ModeRank(s'.flusher) < ModeRank(s.flusher) ||
         (ModeRank(s'.flusher) == ModeRank(s.flusher) && Unreturned(s'.calls) < Unreturned(s.calls))))
  }

  lemma {:induction false} UnreturnedUpdate(calls: seq<Call>, i: nat, c: Call)
    requires i < |calls| && !calls[i].phase.Returned? && c.phase.Returned?
    ensures Unreturned(calls[i := c]) < Unreturned(calls)
  {
    var n, u := |calls| - 1, calls[i := c];
    if i < n {
      assert u[..n] == calls[..n][i := c];
      UnreturnedUpdate(calls[..n], i, c);
    } else {
      assert u[..n] == calls[..n];
    }
  }

  lemma FlushStepDecreases(s: State, step: Step)
    requires FlusherOk(s) && Enabled(s, step) && MidStep(step)
    ensures LessWork(Do(s, step), s)
  {
    if step.SortBatch? { SameLength(step.sorted, s.flusher.batch); }
  }

  lemma HandOverDecreases(s: State, step: Step)
    requires Enabled(s, step) && (step.Send? || step.Take? || (step.Tick? && s.batch != []))
    requires step.Take? ==> s.queue[0] != []
    ensures LessWork(Do(s, step), s)
  {
  }

  lemma ModeDecreases(s: State, step: Step)
    requires Enabled(s, step) && (step.SeeCancel? || step.SeeEmpty? || step.FinalSeal?)
    ensures Less(Do(s, step), s)
  {
  }

  /** Every step towards resolution decreases the measure, whatever the disk and the scheduler do. */
  lemma ProgressDecreases(s: State, step: Step)
    requires Inv(s) && Enabled(s, step) && Progress(s, step)
    ensures Less(Do(s, step), s)
    ensures step.Send? || step.Take? || step.Tick? || MidStep(step) ==> LessWork(Do(s, step), s)
  {
    if MidStep(step) {
      FlushStepDecreases(s, step);
    } else if step.Send? || step.Take? || step.Tick? {
      HandOverDecreases(s, step);
    } else if step.Get? {
      UnreturnedUpdate(s.calls, step.call, Do(s, step).calls[step.call]);
    } else {
      ModeDecreases(s, step);
    }
  }

  // ---------------------------------------------------------------- draining

  lemma RunCons(s: State, step: Step, rest: seq<Step>)
    requires Enabled(s, step) && Legal(Do(s, step), rest)
    ensures Legal(s, [step] + rest) && Run(s, [step] + rest) == Run(Do(s, step), rest)
  {
    RunOne(s, [], step);
    assert [] + [step] == [step];
    RunConcat(s, [step], rest);
  }

  lemma KeepsServing(s: State, step: Step)
    requires Enabled(s, step) && Serves(s.flusher) && step != SeeCancel
    ensures Serves(Do(s, step).flusher)
  {
  }

  lemma RankNonNegative(s: State)
    requires Inv(s)
    ensures FlushRank(s.flusher) >= 0
  {
  }

  /** Progress steps, one after another, without an append. */
  ghost predicate Drains(s: State, steps: seq<Step>) {
    Legal(s, steps) && AllResolved(Run(s, steps)) && forall k :: 0 <= k < |steps| ==> !steps[k].Append?
  }

  lemma DrainsCons(s: State, step: Step, rest: seq<Step>)
    requires Enabled(s, step) && !step.Append? && Drains(Do(s, step), rest)
    ensures Drains(s, [step] + rest)
  {
    RunCons(s, step, rest);
  }

  lemma ServingStep(s: State) returns (step: Step, next: State)
    requires Inv(s) && Serves(s.flusher) && !AllResolved(s)
    ensures Enabled(s, step) && !step.Append? && next == Do(s, step)
    ensures LessWork(next, s) && Inv(next) && Serves(next.flusher)
  {
    var i :| 0 <= i < |s.calls| && IsPushed(s.calls[i]) && s.calls[i].cell == Unset;
    step := NoDeadlock(s, i);
    next := Do(s, step);
    ProgressDecreases(s, step);
    StepKeepsInv(s, step);
    KeepsServing(s, step);
  }

  /** From every reachable state with a serving flusher, progress steps alone resolve every request. */
  lemma DrainResolvesAll(s: State) returns (steps: seq<Step>)
    requires Inv(s) && Serves(s.flusher)
    ensures Drains(s, steps)
    decreases Work(s), HandOver(s), FlushRank(s.flusher)
  {
    RankNonNegative(s);
    if AllResolved(s) {
      steps := [];
    } else {
      var step, next := ServingStep(s);
      var rest := DrainResolvesAll(next);
      DrainsCons(s, step, rest);
      steps := [step] + rest;
    }
  }
}

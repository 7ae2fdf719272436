/**
 Linear ownership of requests: every pushed request is in exactly one place, so every
 promise is resolved at most once and the outcome a caller reads is that of the segment
 write that held its record.
 */
module WalOwnership {
  import opened WalMachine

  predicate IsPushed(c: Call) { c.phase.Handing? || c.phase.Waiting? || c.phase.Returned? }

  /** r is the request of a call that has appended. */
  predicate IsRequest(calls: seq<Call>, r: Request) {
    r.chan < |calls| && IsPushed(calls[r.chan]) && r == Req(calls, r.chan)
  }

  /** How often a request occurs in a batch, in a list of batches, and in the writes so far. */
  function In(b: Batch, r: Request): nat { multiset(b)[r] }

  function InAll(bs: seq<Batch>, r: Request): nat {
    if bs == [] then 0 else InAll(bs[..|bs| - 1], r) + In(bs[|bs| - 1], r)
  }

  function InFlushes(fs: seq<Flush>, r: Request): nat {
    if fs == [] then 0 else InFlushes(fs[..|fs| - 1], r) + In(fs[|fs| - 1].batch, r)
  }

  function Unwritten(f: Flusher): Batch { if f.Writing? then f.batch else [] }

  /** The part of the batch being flushed whose promises are still to be resolved. */
  function Unresolved(f: Flusher): Batch {
    if f.Notifying? && f.next <= |f.batch| then f.batch[f.next..] else []
  }

  /** Occurrences in the active batch, in producers' hands, in the channel and in the flusher's hand. */
  function Unflushed(s: State, r: Request): nat {
    In(s.batch, r) + InAll(s.hands, r) + InAll(s.queue, r) + In(Unwritten(s.flusher), r)
  }

  /** Each pushed request is in exactly one place, once, with its log and flag unchanged; nothing else is anywhere. */
  ghost predicate OwnedAt(s: State, r: Request) {
    Unflushed(s, r) + InFlushes(s.flushes, r) == if IsRequest(s.calls, r) then 1 else 0
  }

  ghost predicate Owned(s: State) { forall r :: OwnedAt(s, r) }

  // ---------------------------------------------------------------- counting

  lemma {:induction false} InAllConcat(a: seq<Batch>, b: seq<Batch>, r: Request)
    ensures InAll(a + b, r) == InAll(a, r) + InAll(b, r)
  {
    if b == [] {
      assert a + b == a;
    } else {
      assert (a + b)[..|a + b| - 1] == a + b[..|b| - 1];
      InAllConcat(a, b[..|b| - 1], r);
    }
  }

  lemma InAllAppend(a: seq<Batch>, b: Batch, r: Request)
    ensures InAll(a + [b], r) == InAll(a, r) + In(b, r)
  {
    assert (a + [b])[..|a|] == a;
  }

  lemma InAllRemove(bs: seq<Batch>, k: nat, r: Request)
    requires k < |bs|
    ensures InAll(bs, r) == InAll(bs[..k] + bs[k + 1..], r) + In(bs[k], r)
  {
    assert bs == (bs[..k] + [bs[k]]) + bs[k + 1..];
    InAllConcat(bs[..k] + [bs[k]], bs[k + 1..], r);
    InAllAppend(bs[..k], bs[k], r);
    InAllConcat(bs[..k], bs[k + 1..], r);
  }

  lemma InAllHead(bs: seq<Batch>, r: Request)
    requires bs != []
    ensures InAll(bs, r) == In(bs[0], r) + InAll(bs[1..], r)
  {
    InAllRemove(bs, 0, r);
    assert bs[..0] + bs[1..] == bs[1..];
  }

  lemma InFlushesAppend(fs: seq<Flush>, f: Flush, r: Request)
    ensures InFlushes(fs + [f], r) == InFlushes(fs, r) + In(f.batch, r)
  {
    assert (fs + [f])[..|fs|] == fs;
  }

  lemma {:induction false} InFlushesAt(fs: seq<Flush>, j: nat, r: Request)
    requires j < |fs|
    ensures InFlushes(fs, r) >= In(fs[j].batch, r)
    ensures forall i :: j < i < |fs| ==> InFlushes(fs, r) >= In(fs[j].batch, r) + In(fs[i].batch, r)
  {
    var n := |fs| - 1;
    if j < n {
      InFlushesAt(fs[..n], j, r);
      forall i | j < i < |fs| ensures InFlushes(fs, r) >= In(fs[j].batch, r) + In(fs[i].batch, r) {
        assert i < n ==> fs[..n][i] == fs[i];
      }
    }
  }

  lemma {:induction false} InFlushesWitness(fs: seq<Flush>, r: Request) returns (j: nat)
    requires InFlushes(fs, r) > 0
    ensures j < |fs| && r in fs[j].batch
  {
    var n := |fs| - 1;
    if In(fs[n].batch, r) > 0 { j := n; } else { j := InFlushesWitness(fs[..n], r); }
  }

  lemma InSplit(b: Batch, k: nat, r: Request)
    requires k < |b|
    ensures In(b[k..], r) == In(b[k + 1..], r) + (if b[k] == r then 1 else 0)
  {
    assert b[k..] == [b[k]] + b[k + 1..];
  }

  lemma InSuffix(b: Batch, k: nat, r: Request)
    requires k <= |b|
    ensures In(b[k..], r) <= In(b, r)
  {
    assert b == b[..k] + b[k..];
  }

  // ---------------------------------------------------------------- ownership is kept

  lemma AcceptKeeps(count: int, limit: int, batch: Batch, volume: int, x: Request, size: nat, r: Request)
    ensures var a := Accept(count, limit, batch, volume, x, size);
      In(a.batch, r) + In(a.sealed, r) == In(batch, r) + (if x == r then 1 else 0)
  {
    assert In(batch + [x], r) == In(batch, r) + (if x == r then 1 else 0);
  }

  lemma RequestOfUpdate(calls: seq<Call>, i: nat, c: Call, r: Request)
    requires i < |calls| && c.op == calls[i].op
    requires IsPushed(calls[i]) ==> IsPushed(c)
    requires IsPushed(c) ==> c.lsn == calls[i].lsn
    ensures IsRequest(calls[i := c], r) <==>
            IsRequest(calls, r) || (IsPushed(c) && !IsPushed(calls[i]) && r == Req(calls, i))
  {
  }

  lemma HandsAfterAppend(s: State, i: nat, r: Request)
    requires i < |s.calls|
    ensures var s' := DoAppend(s, i);
      In(s'.batch, r) + InAll(s'.hands, r) == In(s.batch, r) + InAll(s.hands, r) + (if Req(s.calls, i) == r then 1 else 0)
  {
    var x, s' := Req(s.calls, i), DoAppend(s, i);
    var a := Accept(s.cfg.batchCount, s.cfg.batchVolume, s.batch, s.volume, x, s.cfg.recordSize(x.log));
    assert s'.batch == a.batch && s'.hands == if a.sealed == [] then s.hands else s.hands + [a.sealed];
    AcceptKeeps(s.cfg.batchCount, s.cfg.batchVolume, s.batch, s.volume, x, s.cfg.recordSize(x.log), r);
    InAllAppend(s.hands, a.sealed, r);
  }

  lemma CallsAfterAppend(s: State, i: nat, r: Request)
    requires i < |s.calls| && s.calls[i].phase == Drawn
    ensures IsRequest(DoAppend(s, i).calls, r) <==> IsRequest(s.calls, r) || r == Req(s.calls, i)
    ensures r == Req(s.calls, i) ==> !IsRequest(s.calls, r)
  {
    var c := DoAppend(s, i).calls;
    assert c == s.calls[i := c[i]];
    RequestOfUpdate(s.calls, i, c[i], r);
  }

  /** One more request among the batch and the hands, and one more pushed. */
  lemma OwnedOneMore(s: State, s': State, x: Request, r: Request)
    requires OwnedAt(s, r)
    requires In(s'.batch, r) + InAll(s'.hands, r) == In(s.batch, r) + InAll(s.hands, r) + (if x == r then 1 else 0)
    requires s'.queue == s.queue && s'.flusher == s.flusher && s'.flushes == s.flushes
    requires IsRequest(s'.calls, r) <==> IsRequest(s.calls, r) || r == x
    requires r == x ==> !IsRequest(s.calls, r)
    ensures OwnedAt(s', r)
  {
  }

  lemma OwnedAppend(s: State, i: nat, r: Request)
    requires OwnedAt(s, r) && Enabled(s, Append(i))
    ensures OwnedAt(DoAppend(s, i), r)
  {
    HandsAfterAppend(s, i, r);
    CallsAfterAppend(s, i, r);
    OwnedOneMore(s, DoAppend(s, i), Req(s.calls, i), r);
  }

  lemma OwnedSend(s: State, k: nat, r: Request)
    requires OwnedAt(s, r) && Enabled(s, Send(k)) && IsPushed(s.calls[Owner(s.hands[k])])
    ensures OwnedAt(Do(s, Send(k)), r)
  {
    var b := s.hands[k];
    InAllRemove(s.hands, k, r);
    InAllAppend(s.queue, b, r);
    RequestOfUpdate(s.calls, Owner(b), s.calls[Owner(b)].(phase := Waiting), r);
  }

  lemma OwnerPushed(s: State, k: nat)
    requires Owned(s) && k < |s.hands| && s.hands[k] != []
    ensures Owner(s.hands[k]) < |s.calls| && IsPushed(s.calls[Owner(s.hands[k])])
  {
    var r := s.hands[k][|s.hands[k]| - 1];
    InAllRemove(s.hands, k, r);
    assert In(s.hands[k], r) > 0;
    assert OwnedAt(s, r);
  }

  lemma OwnedTake(s: State, r: Request)
    requires OwnedAt(s, r) && Enabled(s, Take)
    ensures OwnedAt(Do(s, Take), r)
  {
    InAllHead(s.queue, r);
  }

  lemma OwnedWrite(s: State, fate: Fate, r: Request)
    requires OwnedAt(s, r) && Enabled(s, Write(fate))
    ensures OwnedAt(DoWrite(s, fate), r)
  {
    var s' := DoWrite(s, fate);
    assert s'.flushes == s.flushes + [s'.flushes[|s.flushes|]];
    InFlushesAppend(s.flushes, s'.flushes[|s.flushes|], r);
  }

  /** Steps that move no request and push none. */
  lemma OwnedFrame(s: State, s': State, r: Request)
    requires OwnedAt(s, r)
    requires s'.batch == s.batch && s'.hands == s.hands && s'.queue == s.queue && s'.flushes == s.flushes
    requires Unwritten(s'.flusher) == Unwritten(s.flusher)
    requires IsRequest(s'.calls, r) <==> IsRequest(s.calls, r)
    ensures OwnedAt(s', r)
  {
  }

  lemma OwnedDraw(s: State, i: nat, r: Request)
    requires OwnedAt(s, r) && Enabled(s, Draw(i))
    ensures OwnedAt(Do(s, Draw(i)), r)
  {
    var s' := Do(s, Draw(i));
    RequestOfUpdate(s.calls, i, s'.calls[i], r);
    OwnedFrame(s, s', r);
  }

  lemma OwnedGet(s: State, i: nat, r: Request)
    requires OwnedAt(s, r) && Enabled(s, Get(i))
    ensures OwnedAt(Do(s, Get(i)), r)
  {
    var s' := Do(s, Get(i));
    RequestOfUpdate(s.calls, i, s'.calls[i], r);
    OwnedFrame(s, s', r);
  }

  lemma OwnedNotify(s: State, r: Request)
    requires OwnedAt(s, r) && Enabled(s, Notify)
    ensures OwnedAt(DoNotify(s), r)
  {
    var x := s.flusher.batch[s.flusher.next];
    RequestOfUpdate(s.calls, x.chan, s.calls[x.chan].(cell := Full(!s.flusher.ok)), r);
    OwnedFrame(s, DoNotify(s), r);
  }

  /** Steps that leave the batches where they are. */
  predicate MovesNothing(step: Step) {
    || step.Begin? || step.Draw? || step.Get? || step.Cancel? || step.SeeCancel? || step.SeeEmpty?
    || step.SortBatch? || step.ApplyNext? || step.Finish?
  }

  /** Steps of the flusher and of the cancelling side that neither write nor resolve. */
  predicate LeavesCalls(step: Step) {
    || step.Cancel? || step.Take? || step.Tick? || step.SeeCancel? || step.SeeEmpty? || step.FinalSeal?
    || step.SortBatch? || step.ApplyNext? || step.Finish?
  }

  lemma CallsLeft(s: State, step: Step)
    requires Enabled(s, step) && LeavesCalls(step)
    ensures Do(s, step).calls == s.calls && Do(s, step).flushes == s.flushes && Do(s, step).panicked == s.panicked
    ensures Do(s, step).gen == s.gen
  {
  }

  lemma OwnedLeft(s: State, step: Step, r: Request)
    requires OwnedAt(s, r) && Enabled(s, step) && LeavesCalls(step)
    ensures OwnedAt(Do(s, step), r)
  {
    CallsLeft(s, step);
    if step.Take? {
      OwnedTake(s, r);
    } else if MovesNothing(step) {
      OwnedFrame(s, Do(s, step), r);
    } else {
      OwnedSeal(s, step, r);
    }
  }

  lemma OwnedSeal(s: State, step: Step, r: Request)
    requires OwnedAt(s, r) && Enabled(s, step) && (step.Tick? || step.FinalSeal?)
    ensures OwnedAt(Do(s, step), r)
  {
    assert Unwritten(Do(s, step).flusher) == s.batch;
  }

  lemma StepKeepsOwnedAt(s: State, step: Step, r: Request)
    requires OwnedAt(s, r) && Owned(s) && Enabled(s, step)
    ensures OwnedAt(Do(s, step), r)
  {
    if LeavesCalls(step) {
      OwnedLeft(s, step, r);
    } else {
      match step
      case Append(i) => OwnedAppend(s, i, r);
      case Send(k) => OwnerPushed(s, k); OwnedSend(s, k, r);
      case Write(fate) => OwnedWrite(s, fate, r);
      case Draw(i) => OwnedDraw(s, i, r);
      case Get(i) => OwnedGet(s, i, r);
      case Notify => OwnedNotify(s, r);
      case Begin(_) => OwnedFrame(s, Do(s, step), r);
    }
  }

  lemma StepKeepsOwned(s: State, step: Step)
    requires Owned(s) && Enabled(s, step)
    ensures Owned(Do(s, step))
  {
    forall r ensures OwnedAt(Do(s, step), r) {
      assert OwnedAt(s, r);
      StepKeepsOwnedAt(s, step, r);
    }
  }
}

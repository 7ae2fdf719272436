/**
 What holds in every reachable state of a run: ownership, honest acknowledgements and the
 window in which an acknowledged write is not visible yet.
 */
module WalRuns {
  import opened Sorting
  import opened Records
  import opened Segments
  import opened Recovery
  import opened WalMachine
  import opened WalOwnership
  import opened WalAnswers
  import opened WalDurability
  import opened WalLimits

  /** Call i is the owner of the k-th batch in hand. */
  predicate Holds(s: State, k: nat, i: nat) {
    k < |s.hands| && s.hands[k] != [] && Owner(s.hands[k]) == i
  }

  /** Batches in hand belong to calls in phase Handing, each such call holds one, and no empty batch is handed over. */
  ghost predicate HandsOk(s: State) {
    && (forall k :: 0 <= k < |s.hands| ==>
          s.hands[k] != [] && Owner(s.hands[k]) < |s.calls| && s.calls[Owner(s.hands[k])].phase == Handing)
    && (forall i :: 0 <= i < |s.calls| && s.calls[i].phase == Handing ==> exists k: nat :: Holds(s, k, i))
    && (forall k :: 0 <= k < |s.queue| ==> s.queue[k] != [])
  }

  ghost predicate Inv(s: State) {
    Owned(s) && FlusherOk(s) && Answers(s) && Durable(s) && Numbered(s) && HandsOk(s)
  }

  lemma InitialInv(s: State)
    requires Initial(s)
    ensures Inv(s)
  {
    assert Ids.Finished(s.gen.slots) == {};
    assert s.baseLog + [] == s.baseLog;
  }

  /** Two batches in hand have different owners. */
  lemma OwnersDiffer(s: State, j: nat, k: nat)
    requires Owned(s) && j < k < |s.hands| && s.hands[j] != [] && s.hands[k] != []
    ensures Owner(s.hands[j]) != Owner(s.hands[k])
  {
    var x, y := s.hands[j][|s.hands[j]| - 1], s.hands[k][|s.hands[k]| - 1];
    var rest := s.hands[..k] + s.hands[k + 1..];
    InAllRemove(s.hands, k, y);
    InAllRemove(s.hands, k, x);
    assert rest[j] == s.hands[j];
    InAllRemove(rest, j, x);
    assert In(s.hands[k], y) > 0 && In(s.hands[j], x) > 0;
    assert OwnedAt(s, x) && OwnedAt(s, y);
  }

  lemma OtherHandsStay(s: State, k: nat, j: nat)
    requires HandsOk(s) && Owned(s) && Enabled(s, Send(k)) && j < |s.hands| - 1
    ensures var s' := Do(s, Send(k));
      && |s'.hands| == |s.hands| - 1 && s'.hands[j] != []
      && Owner(s'.hands[j]) < |s'.calls| && s'.calls[Owner(s'.hands[j])].phase == Handing
  {
    if j < k { OwnersDiffer(s, j, k); } else { OwnersDiffer(s, k, j + 1); }
  }

  lemma OtherOwnersHold(s: State, k: nat, i: nat)
    requires HandsOk(s) && Enabled(s, Send(k)) && i < |s.calls| && Do(s, Send(k)).calls[i].phase == Handing
    ensures exists j: nat :: Holds(Do(s, Send(k)), j, i)
  {
    var s' := Do(s, Send(k));
    var j: nat :| Holds(s, j, i);
    assert if j < k then Holds(s', j, i) else Holds(s', j - 1, i);
  }

  lemma HandsSend(s: State, k: nat)
    requires HandsOk(s) && Owned(s) && Enabled(s, Send(k))
    ensures HandsOk(Do(s, Send(k)))
  {
    var s' := Do(s, Send(k));
    forall j | 0 <= j < |s'.hands|
      ensures s'.hands[j] != [] && Owner(s'.hands[j]) < |s'.calls| && s'.calls[Owner(s'.hands[j])].phase == Handing
    {
      OtherHandsStay(s, k, j);
    }
    forall i | 0 <= i < |s'.calls| && s'.calls[i].phase == Handing ensures exists j: nat :: Holds(s', j, i) {
      OtherOwnersHold(s, k, i);
    }
  }

  lemma HandsAppend(s: State, i: nat)
    requires HandsOk(s) && Enabled(s, Append(i))
    ensures HandsOk(DoAppend(s, i))
  {
    var s' := DoAppend(s, i);
    assert s'.queue == s.queue;
    forall j | 0 <= j < |s'.calls| && s'.calls[j].phase == Handing ensures exists k: nat :: Holds(s', k, j) {
      HolderAfterAppend(s, i, j);
    }
  }

  lemma HolderAfterAppend(s: State, i: nat, j: nat)
    requires HandsOk(s) && Enabled(s, Append(i)) && j < |s.calls| && DoAppend(s, i).calls[j].phase == Handing
    ensures exists k: nat :: Holds(DoAppend(s, i), k, j)
  {
    if j == i {
      assert Holds(DoAppend(s, i), |s.hands|, i);
    } else {
      var k: nat :| Holds(s, k, j);
      assert Holds(DoAppend(s, i), k, j);
    }
  }

  /** The hands are the same, and so are the calls that hold one. */
  lemma HandsFrame(s: State, s': State)
    requires HandsOk(s) && s'.hands == s.hands && |s.calls| <= |s'.calls|
    requires forall i :: 0 <= i < |s'.calls| ==> (s'.calls[i].phase == Handing <==> i < |s.calls| && s.calls[i].phase == Handing)
    requires forall k :: 0 <= k < |s'.queue| ==> s'.queue[k] in s.queue
    ensures HandsOk(s')
  {
    forall i | 0 <= i < |s'.calls| && s'.calls[i].phase == Handing ensures exists k: nat :: Holds(s', k, i) {
      var k: nat :| Holds(s, k, i);
      assert Holds(s', k, i);
    }
  }

  lemma OtherStepsKeepHands(s: State, step: Step)
    requires Enabled(s, step) && !step.Send? && !step.Append?
    ensures var s' := Do(s, step);
      && s'.hands == s.hands && |s.calls| <= |s'.calls|
      && (forall i :: 0 <= i < |s'.calls| ==> (s'.calls[i].phase == Handing <==> i < |s.calls| && s.calls[i].phase == Handing))
      && (forall k :: 0 <= k < |s'.queue| ==> s'.queue[k] in s.queue)
  {
  }

  lemma StepKeepsHandsOk(s: State, step: Step)
    requires HandsOk(s) && Owned(s) && Enabled(s, step)
    ensures HandsOk(Do(s, step))
  {
    if step.Send? {
      HandsSend(s, step.hand);
    } else if step.Append? {
      HandsAppend(s, step.call);
    } else {
      OtherStepsKeepHands(s, step);
      HandsFrame(s, Do(s, step));
    }
  }

  lemma StepKeepsInv(s: State, step: Step)
    requires Inv(s) && Enabled(s, step)
    ensures Inv(Do(s, step))
  {
    StepKeepsOwned(s, step);
    StepKeepsFlusherOk(s, step);
    StepKeepsAnswers(s, step);
    StepKeepsDurable(s, step);
    StepKeepsNumbered(s, step);
    StepKeepsHandsOk(s, step);
  }

  lemma {:induction false} ReachableInv(s: State, steps: seq<Step>)
    requires Initial(s) && Legal(s, steps)
    ensures Inv(Run(s, steps))
  {
    if steps == [] {
      InitialInv(s);
    } else {
      ReachableInv(s, steps[..|steps| - 1]);
      StepKeepsInv(Run(s, steps[..|steps| - 1]), steps[|steps| - 1]);
    }
  }

  lemma LeftKeepsBase(s: State, step: Step)
    requires Enabled(s, step) && LeavesCalls(step)
    ensures Do(s, step).base == s.base && Do(s, step).baseLog == s.baseLog && Do(s, step).cfg == s.cfg
  {
  }

  lemma StepKeepsBase(s: State, step: Step)
    requires Enabled(s, step)
    ensures Do(s, step).base == s.base && Do(s, step).baseLog == s.baseLog && Do(s, step).cfg == s.cfg
  {
    if LeavesCalls(step) { LeftKeepsBase(s, step); }
  }

  lemma {:induction false} RunKeepsBase(s: State, steps: seq<Step>)
    requires Legal(s, steps)
    ensures Run(s, steps).base == s.base && Run(s, steps).baseLog == s.baseLog && Run(s, steps).cfg == s.cfg
  {
    if steps != [] {
      RunKeepsBase(s, steps[..|steps| - 1]);
      StepKeepsBase(Run(s, steps[..|steps| - 1]), steps[|steps| - 1]);
    }
  }

  // ---------------------------------------------------------------- ownership

  /**
   In every reachable state each pushed request is in exactly one of the active batch, one
   producer's sealed batch, one channel slot, the flusher's hand, or one write; its
   channel is open exactly while it is pending, and no send ever hit a closed channel,
   although every copy of the request carries its own flag. A call holds a sealed batch
   exactly while it is to be sent.
   */
  lemma LinearOwnership(s: State, steps: seq<Step>, i: nat)
    requires Initial(s) && Legal(s, steps) && i < |Run(s, steps).calls| && IsPushed(Run(s, steps).calls[i])
    ensures var now := Run(s, steps); var r := Req(now.calls, i);
      && In(now.batch, r) + InAll(now.hands, r) + InAll(now.queue, r) + In(Unwritten(now.flusher), r)
         + InFlushes(now.flushes, r) == 1
      && (now.calls[i].cell == Unset <==> Pending(now, r) == 1)
      && (now.calls[i].phase == Handing <==> exists k: nat :: Holds(now, k, i))
      && !now.panicked
  {
    ReachableInv(s, steps);
    var now := Run(s, steps);
    var r := Req(now.calls, i);
    assert OwnedAt(now, r) && AnswerAt(now, r);
    PendingAtMostOnce(now, r);
  }

  /**
   Nothing that was not pushed is anywhere, and no copy has another log. A copy's flag is
   set exactly when the flusher has resolved it; the copies elsewhere carry none.
   */
  lemma NothingElseAnywhere(s: State, steps: seq<Step>, r: Request)
    requires Initial(s) && Legal(s, steps)
    ensures var now := Run(s, steps);
      && (Unflushed(now, r) + InFlushes(now.flushes, r) > 0 ==> IsRequest(now.calls, r) && !r.promised)
      && (r in InHand(now.flusher) ==> IsRequest(now.calls, r.(promised := false)))
      && (now.flusher.Notifying? ==> FlagsBelow(now.flusher.batch, now.flusher.next))
      && (now.flusher.Applying? ==> FlagsBelow(now.flusher.sorted, |now.flusher.sorted|))
  {
    ReachableInv(s, steps);
    var now := Run(s, steps);
    assert OwnedAt(now, r);
    if r in InHand(now.flusher) { InHandIsRequest(now, r); }
  }

  /** The batch the flusher has in its hand, flags included. */
  function InHand(f: Flusher): Batch {
    match f
    case Writing(_, b) => b
    case Notifying(_, b, _, _) => b
    case Applying(_, b, _) => b
    case _ => []
  }

  lemma InHandIsRequest(s: State, r: Request)
    requires Inv(s) && r in InHand(s.flusher)
    ensures IsRequest(s.calls, r.(promised := false))
  {
    if s.flusher.Writing? {
      assert In(s.flusher.batch, r) > 0 && OwnedAt(s, r);
    } else {
      var b, last := InHand(s.flusher), s.flushes[|s.flushes| - 1].batch;
      var k :| 0 <= k < |b| && b[k] == r;
      SameMembers(last, AsPushed(b), AsPushed(b)[k]);
      InLastWrite(s, AsPushed(b)[k]);
    }
  }

  lemma InLastWrite(s: State, x: Request)
    requires Owned(s) && s.flushes != [] && x in s.flushes[|s.flushes| - 1].batch
    ensures IsRequest(s.calls, x)
  {
    assert In(s.flushes[|s.flushes| - 1].batch, x) > 0;
    InFlushesAt(s.flushes, |s.flushes| - 1, x);
    assert OwnedAt(s, x);
  }

  // ---------------------------------------------------------------- acknowledgements

  /** The write that held an answered request. */
  lemma AnsweredWrite(s: State, i: nat) returns (j: nat)
    requires Inv(s) && i < |s.calls| && IsPushed(s.calls[i]) && s.calls[i].cell != Unset
    ensures j < |s.flushes| && Req(s.calls, i) in s.flushes[j].batch && Answered(s.calls[i], !s.flushes[j].ok)
    ensures forall k :: 0 <= k < |s.flushes| && Req(s.calls, i) in s.flushes[k].batch ==> k == j
  {
    var r := Req(s.calls, i);
    assert OwnedAt(s, r) && AnswerAt(s, r) && IsRequest(s.calls, r);
    j := InFlushesWitness(s.flushes, r);
    forall k | 0 <= k < |s.flushes| && r in s.flushes[k].batch ensures k == j {
      assert In(s.flushes[k].batch, r) > 0 && In(s.flushes[j].batch, r) > 0;
      InFlushesAt(s.flushes, k, r);
      InFlushesAt(s.flushes, j, r);
    }
  }

  lemma {:induction false} InLeft(fs: seq<Flush>, j: nat, c: Stream)
    requires j < |fs| && c in fs[j].left
    ensures c in Left(fs)
  {
    var n := |fs| - 1;
    if j < n { InLeft(fs[..n], j, c); }
  }

  /** An acknowledged write's record is in an acknowledged chunk of the log. */
  lemma OkWriteIsLogged(s: State, j: nat, r: Request) returns (c: Stream)
    requires Inv(s) && j < |s.flushes| && s.flushes[j].ok && r in s.flushes[j].batch
    ensures c in AllChunks(s.disk.files) && c.acked && r.log in c.data
  {
    var f := s.flushes[j];
    assert FlushShape(f);
    c := f.left[0];
    InLeft(s.flushes, j, c);
    var k :| 0 <= k < |f.batch| && f.batch[k] == r;
    assert Logs(f.batch)[k] == r.log;
  }

  lemma {:induction false} ConcatMember<T>(ss: seq<seq<T>>, x: T)
    ensures x in Concat(ss) <==> exists k :: 0 <= k < |ss| && x in ss[k]
  {
    if ss != [] {
      var n := |ss| - 1;
      ConcatMember(ss[..n], x);
      if k :| 0 <= k < |ss| && x in ss[k] { assert k < n ==> x in ss[..n][k]; }
      if k :| 0 <= k < n && x in ss[..n][k] { assert x in ss[k]; }
    }
  }

  lemma {:induction false} OksMember(fs: seq<Flush>, k: nat) returns (j: nat)
    requires k < |Oks(fs)|
    ensures j < |fs| && fs[j].ok && fs[j].batch == Oks(fs)[k]
    ensures k < |Oks(fs)| - 1 && fs[|fs| - 1].ok ==> j < |fs| - 1
  {
    var n := |fs| - 1;
    if k < |Oks(fs[..n])| { j := OksMember(fs[..n], k); } else { j := n; }
  }

  lemma {:induction false} OksIndex(fs: seq<Flush>, j: nat) returns (k: nat)
    requires j < |fs| && fs[j].ok
    ensures k < |Oks(fs)| && Oks(fs)[k] == fs[j].batch
    ensures j < |fs| - 1 && fs[|fs| - 1].ok ==> k < |Oks(fs)| - 1
  {
    var n := |fs| - 1;
    if j < n { k := OksIndex(fs[..n], j); } else { k := |Oks(fs)| - 1; }
  }

  lemma SameMembers(a: Batch, b: Batch, x: Request)
    requires multiset(a) == multiset(b)
    ensures x in a <==> x in b
  {
    assert x in a <==> x in multiset(a);
    assert x in b <==> x in multiset(b);
  }

  /** What is applied came from a successful write. */
  lemma AppliedCameFromOk(s: State, r: Request) returns (j: nat)
    requires Inv(s) && r in Applied(s.flusher, s.done)
    ensures j < |s.flushes| && s.flushes[j].ok && r in s.flushes[j].batch
  {
    if r in Concat(s.done) {
      ConcatMember(s.done, r);
      var k :| 0 <= k < |s.done| && r in s.done[k];
      j := OksMember(s.flushes, k);
      SameMembers(s.flushes[j].batch, s.done[k], r);
    } else {
      j := |s.flushes| - 1;
      SameMembers(s.flushes[j].batch, AsPushed(s.flusher.sorted), r);
    }
  }

  /**
   A call returns success exactly when the one segment write that held its record
   succeeded. Success means the record is in the log; an error means it is not applied.
   */
  lemma AcknowledgementIsHonest(s: State, steps: seq<Step>, i: nat) returns (j: nat, c: Stream)
    requires Initial(s) && Legal(s, steps) && i < |Run(s, steps).calls| && Run(s, steps).calls[i].phase.Returned?
    ensures var now := Run(s, steps); var r := Req(now.calls, i);
      && j < |now.flushes| && r in now.flushes[j].batch
      && (forall k :: 0 <= k < |now.flushes| && r in now.flushes[k].batch ==> k == j)
      && now.calls[i].phase.err == !now.flushes[j].ok
      && (!now.calls[i].phase.err ==> c in AllChunks(now.disk.files) && c.acked && r.log in c.data)
      && (now.calls[i].phase.err ==> r !in Applied(now.flusher, now.done))
  {
    ReachableInv(s, steps);
    var now := Run(s, steps);
    var r := Req(now.calls, i);
    assert AnswerAt(now, r) && IsRequest(now.calls, r);
    j := AnsweredWrite(now, i);
    if now.flushes[j].ok {
      c := OkWriteIsLogged(now, j, r);
    } else {
      c := Chunk([], 0, false);
      if r in Applied(now.flusher, now.done) {
        var k := AppliedCameFromOk(now, r);
      }
    }
  }

  // ---------------------------------------------------------------- visibility

  /** What is left to apply of a successful write. */
  function Unapplied(f: Flusher): Batch {
    if f.Notifying? && f.ok then AsPushed(f.batch)
    else if f.Applying? && f.at <= |f.sorted| then AsPushed(f.sorted)[f.at..]
    else []
  }

  lemma AppliedOrNot(s: State, j: nat, r: Request)
    requires Inv(s) && j < |s.flushes| && s.flushes[j].ok && r in s.flushes[j].batch
    ensures r in Applied(s.flusher, s.done) || r in Unapplied(s.flusher)
  {
    var k := OksIndex(s.flushes, j);
    if k < |s.done| {
      SameMembers(s.done[k], s.flushes[j].batch, r);
      assert r in Concat(s.done) by { ConcatMember(s.done, r); }
    } else {
      assert MidFlush(s.flusher) && j == |s.flushes| - 1;
      if s.flusher.Applying? {
        SameMembers(AsPushed(s.flusher.sorted), s.flushes[j].batch, r);
        InEitherPart(AsPushed(s.flusher.sorted), s.flusher.at, r);
      }
    }
  }

  lemma InEitherPart(b: Batch, at: nat, r: Request)
    requires at <= |b| && r in b
    ensures r in b[..at] || r in b[at..]
  {
    var k :| 0 <= k < |b| && b[k] == r;
    assert if k < at then b[..at][k] == r else b[at..][k - at] == r;
  }

  /** A request occurs once in the batch being flushed and in no other write. */
  lemma InFlightOnce(s: State, r: Request)
    requires Inv(s) && r in Unapplied(s.flusher)
    ensures s.flushes != [] && s.flushes[|s.flushes| - 1].ok && In(s.flushes[|s.flushes| - 1].batch, r) == 1
    ensures forall j :: 0 <= j < |s.flushes| - 1 ==> r !in s.flushes[j].batch
  {
    var n := |s.flushes| - 1;
    if s.flusher.Applying? {
      assert r in AsPushed(s.flusher.sorted);
      SameMembers(AsPushed(s.flusher.sorted), s.flushes[n].batch, r);
    }
    assert In(s.flushes[n].batch, r) > 0;
    assert OwnedAt(s, r);
    InFlushesAt(s.flushes, n, r);
    forall j | 0 <= j < n ensures r !in s.flushes[j].batch {
      InFlushesAt(s.flushes, j, r);
      assert In(s.flushes[j].batch, r) == 0;
    }
  }

  lemma NotInDone(s: State, r: Request)
    requires Inv(s) && r in Unapplied(s.flusher)
    ensures r !in Concat(s.done)
  {
    InFlightOnce(s, r);
    ConcatMember(s.done, r);
    forall k | 0 <= k < |s.done| ensures r !in s.done[k] {
      var j := OksMember(s.flushes, k);
      SameMembers(s.flushes[j].batch, s.done[k], r);
    }
  }

  lemma InOnePart(b: Batch, at: nat, r: Request)
    requires at <= |b| && In(b, r) == 1 && r in b[at..]
    ensures r !in b[..at]
  {
    assert b == b[..at] + b[at..];
    assert In(b, r) == In(b[..at], r) + In(b[at..], r) && In(b[at..], r) > 0;
    assert In(b[..at], r) == 0;
  }

  lemma NotAppliedTwice(s: State, r: Request)
    requires Inv(s) && r in Unapplied(s.flusher)
    ensures r !in Applied(s.flusher, s.done)
  {
    NotInDone(s, r);
    if s.flusher.Applying? {
      InFlightOnce(s, r);
      assert In(AsPushed(s.flusher.sorted), r) == In(s.flushes[|s.flushes| - 1].batch, r);
      InOnePart(AsPushed(s.flusher.sorted), s.flusher.at, r);
    }
  }

  /**
   A write acknowledged with success is not applied exactly when it is in the part of the
   batch being flushed that is still to be applied. Promises are resolved before records
   are applied, so the window is real.
   */
  lemma AcknowledgedButInvisibleIff(s: State, steps: seq<Step>, i: nat)
    requires Initial(s) && Legal(s, steps) && i < |Run(s, steps).calls| && Answered(Run(s, steps).calls[i], false)
    ensures var now := Run(s, steps); var r := Req(now.calls, i);
      r !in Applied(now.flusher, now.done) <==> r in Unapplied(now.flusher)
  {
    ReachableInv(s, steps);
    var now := Run(s, steps);
    var r := Req(now.calls, i);
    assert FreshCells(now.calls);
    assert AnswerAt(now, r) && IsRequest(now.calls, r);
    var j := AnsweredWrite(now, i);
    AppliedOrNot(now, j, r);
    if r in Unapplied(now.flusher) { NotAppliedTwice(now, r); }
  }

  // ---------------------------------------------------------------- one call alone

  /** Nothing is on its way, and the LSNs do not wrap yet. */
  predicate Quiet(s: State) {
    && s.batch == [] && s.volume == 0 && s.hands == [] && s.queue == [] && s.flusher == Select(Serving)
    && |s.gen.slots| == |s.calls| && s.gen.counter < Ids.MAX_INT64
  }

  /** The request of a call that runs alone from s. */
  function LoneRequest(s: State, op: Op): Request { Request(ToLog(op, s.gen.counter + 1), |s.calls|, false) }

  /** The state once such a call is in a phase, its channel in a state. */
  function WithCall(s: State, op: Op, phase: Phase, cell: Cell): State {
    var lsn := s.gen.counter + 1;
    s.(gen := Ids.Gen(lsn, s.gen.slots + [Ids.Got(lsn)]), calls := s.calls + [Call(op, lsn, phase, cell)])
  }

  /** From its start to its acknowledgement. */
  function LoneWrite(s: State, op: Op, fate: Fate): seq<Step> {
    var n := |s.calls|;
    [] + [Begin(op), Draw(n)] + [Append(n), Send(0)] + [Take, Write(fate)] + [Notify, Get(n)]
  }

  function Begun1(s: State, op: Op): State {
    s.(gen := Ids.Gen(s.gen.counter, s.gen.slots + [Ids.Open]), calls := s.calls + [Call(op, 0, Begun, Unset)])
  }

  lemma LoneDraw(s: State, op: Op)
    requires |s.gen.slots| == |s.calls| && s.gen.counter < Ids.MAX_INT64 && s.gen.counter + 1 != 0
    ensures Do(s, Begin(op)) == Begun1(s, op) && Enabled(Begun1(s, op), Draw(|s.calls|))
    ensures Do(Begun1(s, op), Draw(|s.calls|)) == WithCall(s, op, Drawn, Unset)
  {
    var n, lsn, mid := |s.calls|, s.gen.counter + 1, Begun1(s, op);
    assert mid.gen.slots[n := Ids.Got(lsn)] == s.gen.slots + [Ids.Got(lsn)];
    assert mid.calls[n := Call(op, lsn, Drawn, Unset)] == s.calls + [Call(op, lsn, Drawn, Unset)];
  }

  lemma LoneAppend(s: State, op: Op)
    requires Quiet(s) && s.cfg.batchCount == 1
    ensures Do(WithCall(s, op, Drawn, Unset), Append(|s.calls|)) ==
            WithCall(s, op, Handing, Unset).(hands := [[LoneRequest(s, op)]])
  {
    var s2, n, r := WithCall(s, op, Drawn, Unset), |s.calls|, LoneRequest(s, op);
    assert Req(s2.calls, n) == r;
    assert s2.batch + [r] == [r] && s2.hands + [[r]] == [[r]];
    assert s2.calls[n := s2.calls[n].(phase := Handing)] == WithCall(s, op, Handing, Unset).calls;
  }

  lemma LoneSend(s: State, op: Op)
    requires Quiet(s)
    ensures Do(WithCall(s, op, Handing, Unset).(hands := [[LoneRequest(s, op)]]), Send(0)) ==
            WithCall(s, op, Waiting, Unset).(queue := [[LoneRequest(s, op)]])
  {
    var s2, n := WithCall(s, op, Handing, Unset).(hands := [[LoneRequest(s, op)]]), |s.calls|;
    assert s2.hands[..0] + s2.hands[1..] == [];
    assert s2.calls[n := s2.calls[n].(phase := Waiting)] == WithCall(s, op, Waiting, Unset).calls;
  }

  lemma LoneQueued(s: State, op: Op, steps: seq<Step>)
    requires Quiet(s) && s.cfg.batchCount == 1 && Legal(s, steps) && Run(s, steps) == WithCall(s, op, Drawn, Unset)
    ensures Legal(s, steps + [Append(|s.calls|), Send(0)])
    ensures Run(s, steps + [Append(|s.calls|), Send(0)]) == WithCall(s, op, Waiting, Unset).(queue := [[LoneRequest(s, op)]])
  {
    LoneAppend(s, op);
    LoneSend(s, op);
    RunTwo(s, steps, Append(|s.calls|), Send(0), WithCall(s, op, Handing, Unset).(hands := [[LoneRequest(s, op)]]));
  }

  /** What the write of a lone record does to the disk. */
  function LonePersist(s: State, op: Op, fate: Fate): Written<seq<Log>>
    requires s.disk.hasFile ==> s.disk.files != []
  {
    var data := [LoneRequest(s, op).log];
    Persist(s.disk, data, s.cfg.streamSize(data), fate)
  }

  /** A call that ran alone, at some phase of its successful flush. */
  function Flushing(s: State, op: Op, fate: Fate, phase: Phase, cell: Cell, f: Flusher): State
    requires s.disk.hasFile ==> s.disk.files != []
  {
    var data := [LoneRequest(s, op).log];
    WithCall(s, op, phase, cell).(disk := LonePersist(s, op, fate).seg, flusher := f,
      flushes := s.flushes + [Flush([LoneRequest(s, op)], true, Persisted(s.disk, data, s.cfg.streamSize(data), fate))])
  }

  lemma LoneWritten(s: State, op: Op, fate: Fate, steps: seq<Step>)
    requires Quiet(s) && (s.disk.hasFile ==> s.disk.files != []) && LonePersist(s, op, fate).ok && Legal(s, steps)
    requires Run(s, steps) == WithCall(s, op, Waiting, Unset).(queue := [[LoneRequest(s, op)]])
    ensures Legal(s, steps + [Take, Write(fate)])
    ensures Run(s, steps + [Take, Write(fate)]) ==
            Flushing(s, op, fate, Waiting, Unset, Notifying(Serving, [LoneRequest(s, op)], 0, true))
  {
    var r := LoneRequest(s, op);
    var mid := WithCall(s, op, Waiting, Unset).(flusher := Writing(Serving, [r]));
    assert Do(WithCall(s, op, Waiting, Unset).(queue := [[r]]), Take) == mid;
    assert Logs([r]) == [r.log];
    RunTwo(s, steps, Take, Write(fate), mid);
  }

  lemma LoneNotify(s: State, op: Op, fate: Fate)
    requires Quiet(s) && (s.disk.hasFile ==> s.disk.files != [])
    ensures var r := LoneRequest(s, op);
      DoNotify(Flushing(s, op, fate, Waiting, Unset, Notifying(Serving, [r], 0, true))) ==
      Flushing(s, op, fate, Waiting, Full(false), Notifying(Serving, [r.(promised := true)], 1, true))
  {
    var n, r := |s.calls|, LoneRequest(s, op);
    var calls := WithCall(s, op, Waiting, Unset).calls;
    assert calls[n := calls[n].(cell := Full(false))] == WithCall(s, op, Waiting, Full(false)).calls;
    assert Flagged([r], 0) == [r.(promised := true)];
  }

  lemma LoneGet(s: State, op: Op, fate: Fate, f: Flusher)
    requires Quiet(s) && (s.disk.hasFile ==> s.disk.files != [])
    ensures Enabled(Flushing(s, op, fate, Waiting, Full(false), f), Get(|s.calls|))
    ensures Do(Flushing(s, op, fate, Waiting, Full(false), f), Get(|s.calls|)) ==
            Flushing(s, op, fate, Returned(false), Drained, f)
  {
    var n, calls := |s.calls|, WithCall(s, op, Waiting, Full(false)).calls;
    assert calls[n := calls[n].(phase := Returned(false), cell := Drained)] == WithCall(s, op, Returned(false), Drained).calls;
  }

  lemma LoneNotified(s: State, op: Op, fate: Fate, steps: seq<Step>)
    requires Quiet(s) && (s.disk.hasFile ==> s.disk.files != []) && Legal(s, steps)
    requires Run(s, steps) == Flushing(s, op, fate, Waiting, Unset, Notifying(Serving, [LoneRequest(s, op)], 0, true))
    ensures Legal(s, steps + [Notify, Get(|s.calls|)])
    ensures Run(s, steps + [Notify, Get(|s.calls|)]) ==
            Flushing(s, op, fate, Returned(false), Drained, Notifying(Serving, [LoneRequest(s, op).(promised := true)], 1, true))
  {
    var f := Notifying(Serving, [LoneRequest(s, op).(promised := true)], 1, true);
    LoneNotify(s, op, fate);
    LoneGet(s, op, fate, f);
    RunTwo(s, steps, Notify, Get(|s.calls|), Flushing(s, op, fate, Waiting, Full(false), f));
  }

  /** The acknowledgement of a lone write leaves its record still to be applied. */
  lemma LoneAcknowledged(s: State, op: Op, fate: Fate)
    requires Quiet(s) && s.gen.counter >= 0 && s.cfg.batchCount == 1
    requires (s.disk.hasFile ==> s.disk.files != []) && LonePersist(s, op, fate).ok
    ensures Legal(s, LoneWrite(s, op, fate))
    ensures Run(s, LoneWrite(s, op, fate)) ==
            Flushing(s, op, fate, Returned(false), Drained, Notifying(Serving, [LoneRequest(s, op).(promised := true)], 1, true))
  {
    var n := |s.calls|;
    LoneDraw(s, op);
    RunTwo(s, [], Begin(op), Draw(n), Begun1(s, op));
    var a := [] + [Begin(op), Draw(n)];
    LoneQueued(s, op, a);
    LoneWritten(s, op, fate, a + [Append(n), Send(0)]);
    LoneNotified(s, op, fate, a + [Append(n), Send(0)] + [Take, Write(fate)]);
  }

  /**
   Read-your-writes does not hold: from every quiet state a lone write is acknowledged with
   success while the table is still what it was before.
   */
  lemma AcknowledgedBeforeApplied(s: State, op: Op, fate: Fate)
    requires Quiet(s) && s.gen.counter >= 0 && s.cfg.batchCount == 1
    requires (s.disk.hasFile ==> s.disk.files != []) && LonePersist(s, op, fate).ok
    ensures Legal(s, LoneWrite(s, op, fate))
    ensures var now := Run(s, LoneWrite(s, op, fate));
      && |now.calls| == |s.calls| + 1 && now.calls[|s.calls|].phase == Returned(false) && now.table == s.table
  {
    LoneAcknowledged(s, op, fate);
  }

  /** The rest of the flush. */
  function LoneFlush(s: State, op: Op, fate: Fate): seq<Step> {
    LoneWrite(s, op, fate) + [SortBatch([LoneRequest(s, op).(promised := true)]), ApplyNext] + [Finish]
  }

  /** The quiet state after a lone write. */
  function LoneDone(s: State, op: Op, fate: Fate): State
    requires s.disk.hasFile ==> s.disk.files != []
  {
    Flushing(s, op, fate, Returned(false), Drained, Select(Serving)).(
      table := ApplyOrSkip(s.table, LoneRequest(s, op).log), done := s.done + [[LoneRequest(s, op)]])
  }

  lemma LoneSort(s: State, op: Op, fate: Fate)
    requires s.disk.hasFile ==> s.disk.files != []
    ensures var b := [LoneRequest(s, op).(promised := true)];
      var before := Flushing(s, op, fate, Returned(false), Drained, Notifying(Serving, b, 1, true));
      && Enabled(before, SortBatch(b))
      && Do(before, SortBatch(b)) == Flushing(s, op, fate, Returned(false), Drained, Applying(Serving, b, 0))
  {
  }

  lemma LoneApply(s: State, op: Op, fate: Fate)
    requires s.disk.hasFile ==> s.disk.files != []
    ensures var b := [LoneRequest(s, op).(promised := true)];
      Do(Flushing(s, op, fate, Returned(false), Drained, Applying(Serving, b, 0)), ApplyNext) ==
      Flushing(s, op, fate, Returned(false), Drained, Applying(Serving, b, 1)).(
        table := ApplyOrSkip(s.table, LoneRequest(s, op).log))
  {
  }

  lemma LoneFinish(s: State, op: Op, fate: Fate)
    requires s.disk.hasFile ==> s.disk.files != []
    ensures var b := [LoneRequest(s, op).(promised := true)];
      Do(Flushing(s, op, fate, Returned(false), Drained, Applying(Serving, b, 1)).(
           table := ApplyOrSkip(s.table, LoneRequest(s, op).log)), Finish) == LoneDone(s, op, fate)
  {
    assert AsPushed([LoneRequest(s, op).(promised := true)]) == [LoneRequest(s, op)];
  }

  /** A lone write that reaches the disk runs to its end: acknowledged, logged and applied. */
  lemma LoneFlushed(s: State, op: Op, fate: Fate)
    requires Quiet(s) && s.gen.counter >= 0 && s.cfg.batchCount == 1
    requires (s.disk.hasFile ==> s.disk.files != []) && LonePersist(s, op, fate).ok
    ensures Legal(s, LoneFlush(s, op, fate)) && Run(s, LoneFlush(s, op, fate)) == LoneDone(s, op, fate)
  {
    var b, a := [LoneRequest(s, op).(promised := true)], LoneWrite(s, op, fate);
    LoneAcknowledged(s, op, fate);
    LoneSort(s, op, fate);
    LoneApply(s, op, fate);
    LoneFinish(s, op, fate);
    RunTwo(s, a, SortBatch(b), ApplyNext, Flushing(s, op, fate, Returned(false), Drained, Applying(Serving, b, 0)));
    RunOne(s, a + [SortBatch(b), ApplyNext], Finish);
  }

  /**
   Between flushes the table is the run's initial table with every successfully written
   batch applied, one after another, each in LSN order.
   */
  lemma TableBetweenFlushes(s: State, steps: seq<Step>)
    requires Initial(s) && Legal(s, steps) && !MidFlush(Run(s, steps).flusher)
    ensures var now := Run(s, steps);
      && now.table == ApplyAll(now.base, Logs(Concat(now.done)))
      && |now.done| == |Oks(now.flushes)|
      && forall k :: 0 <= k < |now.done| ==> IsSorting(RequestLeq, Oks(now.flushes)[k], now.done[k])
  {
    ReachableInv(s, steps);
    var now := Run(s, steps);
    assert Applied(now.flusher, now.done) == Concat(now.done);
  }

  // ---------------------------------------------------------------- thresholds

  /**
   With limits of at least one, whenever the lock is free the active batch is below both
   limits, its volume is exactly the sum of its records' sizes, and every sealed batch is
   within the count and was below the volume before its last record.
   */
  lemma {:induction false} ThresholdsHold(s: State, steps: seq<Step>)
    requires Initial(s) && Legal(s, steps) && s.cfg.batchCount >= 1 && s.cfg.batchVolume >= 1
    ensures WithinThresholds(Run(s, steps)) && Run(s, steps).cfg == s.cfg
  {
    if steps != [] {
      ThresholdsHold(s, steps[..|steps| - 1]);
      StepKeepsBase(Run(s, steps[..|steps| - 1]), steps[|steps| - 1]);
      StepKeepsThresholds(Run(s, steps[..|steps| - 1]), steps[|steps| - 1]);
    }
  }

  /**
   Nothing is sealed early: in every reachable state, whatever the limits, every batch in a
   producer's hand or in the channel has reached the count or the volume limit.
   */
  lemma {:induction false} SealedBatchesReachedALimit(s: State, steps: seq<Step>)
    requires Initial(s) && Legal(s, steps)
    ensures var now := Run(s, steps);
      && now.cfg == s.cfg && SealedInTime(now)
      && (forall k :: 0 <= k < |now.hands| ==>
            |now.hands[k]| >= s.cfg.batchCount || Volume(s.cfg, now.hands[k]) >= s.cfg.batchVolume)
      && (forall k :: 0 <= k < |now.queue| ==>
            |now.queue[k]| >= s.cfg.batchCount || Volume(s.cfg, now.queue[k]) >= s.cfg.batchVolume)
  {
    if steps != [] {
      var before, step := Run(s, steps[..|steps| - 1]), steps[|steps| - 1];
      SealedBatchesReachedALimit(s, steps[..|steps| - 1]);
      StepKeepsBase(before, step);
      StepKeepsSealedInTime(before, step);
    }
    var now := Run(s, steps);
    assert forall k :: 0 <= k < |now.hands| ==> Reached(s.cfg, now.hands[k]);
    assert forall k :: 0 <= k < |now.queue| ==> Reached(s.cfg, now.queue[k]);
  }

  // ---------------------------------------------------------------- who can step

  lemma {:induction false} RunRefuses(s: State, steps: seq<Step>)
    requires Initial(s) && Legal(s, steps)
    ensures RefusedIffZero(Run(s, steps).calls)
  {
    if steps != [] {
      RunRefuses(s, steps[..|steps| - 1]);
      ReachableInv(s, steps[..|steps| - 1]);
      StepKeepsRefused(Run(s, steps[..|steps| - 1]), steps[|steps| - 1]);
    }
  }

  /** Over every run a call past its draw is refused exactly when its LSN is 0; within the int64 range none is. */
  lemma RefusedIff(s: State, steps: seq<Step>, i: nat)
    requires Initial(s) && Legal(s, steps) && i < |Run(s, steps).calls|
    ensures var c := Run(s, steps).calls[i]; c.phase == Rejected <==> c.phase != Begun && c.lsn == 0
    ensures |Run(s, steps).calls| <= 9223372036854775807 ==> Run(s, steps).calls[i].phase != Rejected
  {
    RunRefuses(s, steps);
    ReachableInv(s, steps);
    var now := Run(s, steps);
    if |now.calls| <= 9223372036854775807 && now.calls[i].phase != Begun {
      InRangeIff(s, steps);
      assert now.gen.slots[i] == Ids.Got(now.calls[i].lsn);
    }
  }

  /** The range condition of the theorems about LSNs: at most the largest int64 many calls. */
  lemma InRangeIff(s: State, steps: seq<Step>)
    requires Initial(s) && Legal(s, steps)
    ensures InRange(Run(s, steps)) <==> |Run(s, steps).calls| <= 9223372036854775807
  {
    ReachableInv(s, steps);
  }

  lemma {:induction false} ChannelBound(s: State, steps: seq<Step>)
    requires Initial(s) && Legal(s, steps)
    ensures |Run(s, steps).queue| <= 5
  {
    if steps != [] {
      ChannelBound(s, steps[..|steps| - 1]);
      StepBoundsQueue(Run(s, steps[..|steps| - 1]), steps[|steps| - 1]);
    }
  }

  lemma StepBoundsQueue(s: State, step: Step)
    requires Enabled(s, step) && |s.queue| <= 5
    ensures |Do(s, step).queue| <= 5
  {
  }

  /**
   What the calls can do in every reachable state: anyone can begin; a call that has begun
   can draw its LSN, one that has it can append, whatever the others do; the holder of a
   sealed batch can send it exactly while fewer than five are queued; a waiting call returns
   exactly when its promise is resolved.
   */
  lemma CallsCanStep(s: State, steps: seq<Step>, op: Op, i: nat)
    requires Initial(s) && Legal(s, steps) && i < |Run(s, steps).calls|
    ensures var now := Run(s, steps);
      && Enabled(now, Begin(op)) && |now.queue| <= 5
      && (Enabled(now, Draw(i)) <==> now.calls[i].phase == Begun)
      && (Enabled(now, Append(i)) <==> now.calls[i].phase == Drawn)
      && (now.calls[i].phase == Handing ==>
            exists k: nat :: Holds(now, k, i) && (Enabled(now, Send(k)) <==> |now.queue| < 5))
      && (now.calls[i].phase == Waiting ==> (Enabled(now, Get(i)) <==> now.calls[i].cell != Unset))
      && (now.calls[i].phase != Waiting ==> !Enabled(now, Get(i)))
  {
    ReachableInv(s, steps);
    ChannelBound(s, steps);
    HolderCanStep(Run(s, steps), i);
    GetIff(Run(s, steps), i);
  }

  lemma HolderCanStep(s: State, i: nat)
    requires Inv(s) && i < |s.calls|
    ensures Enabled(s, Draw(i)) <==> s.calls[i].phase == Begun
    ensures s.calls[i].phase == Handing ==> exists k: nat :: Holds(s, k, i) && (Enabled(s, Send(k)) <==> |s.queue| < 5)
  {
    if s.calls[i].phase == Handing {
      var k: nat :| Holds(s, k, i);
      assert Enabled(s, Send(k)) <==> |s.queue| < 5;
    }
  }

  lemma GetIff(s: State, i: nat)
    requires Inv(s) && i < |s.calls|
    ensures Enabled(s, Get(i)) <==> s.calls[i].phase == Waiting && s.calls[i].cell != Unset
  {
    if s.calls[i].phase == Waiting { assert AnswerAt(s, Req(s.calls, i)); }
  }

  /** What the flusher and the cancelling side can do, by the flusher's phase alone. */
  lemma FlusherCanStep(s: State)
    ensures Enabled(s, Cancel) <==> !s.cancelled
    ensures Enabled(s, Take) <==> s.flusher.Select? && s.flusher.mode != Closing && s.queue != []
    ensures Enabled(s, Tick) <==> s.flusher.Select? && s.flusher.mode == Serving
    ensures Enabled(s, SeeCancel) <==> s.flusher.Select? && s.flusher.mode == Serving && s.cancelled
    ensures Enabled(s, SeeEmpty) <==> s.flusher.Select? && s.flusher.mode == Draining && s.queue == []
    ensures Enabled(s, FinalSeal) <==> s.flusher.Select? && s.flusher.mode == Closing
  {
  }

  /**
   Where those steps lead: a received batch is written next, in the same mode; a tick seals
   for writing and goes on serving; the drain starts once the cancel is seen, ends once the
   channel is seen empty, and the process exits after the final flush, at once when nothing
   is left.
   */
  lemma FlusherMoves(s: State, step: Step)
    requires HandsOk(s) && Enabled(s, step)
    requires step == Take || step == Tick || step == SeeCancel || step == SeeEmpty || step == FinalSeal || step == Finish
    ensures var f, f' := s.flusher, Do(s, step).flusher;
      && (step == Take ==> f' == Writing(f.mode, s.queue[0]) && Do(s, step).queue == s.queue[1..])
      && (step == Tick ==> f' == if s.batch == [] then Select(Serving) else Writing(Serving, s.batch))
      && (step == SeeCancel ==> f' == Select(Draining))
      && (step == SeeEmpty ==> f' == Select(Closing))
      && (step == FinalSeal ==> f' == if s.batch == [] then Exited else Writing(Closing, s.batch))
      && (step == Finish ==> f' == if f.mode == Closing then Exited else Select(f.mode))
      && (step == Tick || step == FinalSeal ==> Do(s, step).batch == [] && Do(s, step).volume == 0)
  {
  }

  /** No step goes back to an earlier mode, and none revives the flusher. */
  lemma ModeNeverGoesBack(s: State, step: Step)
    requires Enabled(s, step)
    ensures var f, f' := s.flusher, Do(s, step).flusher;
      && (f.Exited? ==> f'.Exited?)
      && (!f.Exited? && !f'.Exited? && f'.mode == Serving ==> f.mode == Serving)
      && (!f.Exited? && !f'.Exited? && f'.mode == Draining ==> f.mode != Closing)
  {
    if step.Begin? || step.Draw? || step.Append? || step.Send? || step.Get? || step.Cancel? {
      assert Do(s, step).flusher == s.flusher;
    }
  }

  // ---------------------------------------------------------------- what a key holds

  /** The operations whose records have been applied, in order. */
  function AppliedOps(s: State): (ops: seq<Op>)
    requires forall r :: r in Applied(s.flusher, s.done) ==> r.chan < |s.calls|
    ensures var rs := Applied(s.flusher, s.done);
      |ops| == |rs| && forall i :: 0 <= i < |rs| ==> ops[i] == s.calls[rs[i].chan].op
  {
    var rs := Applied(s.flusher, s.done);
    seq(|rs|, i requires 0 <= i < |rs| => s.calls[rs[i].chan].op)
  }

  lemma AppliedAreRequests(s: State, r: Request)
    requires Inv(s) && r in Applied(s.flusher, s.done)
    ensures IsRequest(s.calls, r)
  {
    var j := AppliedCameFromOk(s, r);
    assert In(s.flushes[j].batch, r) > 0;
    InFlushesAt(s.flushes, j, r);
    assert OwnedAt(s, r);
  }

  lemma AppliedOpsLogged(s: State)
    requires Inv(s)
    ensures forall r :: r in Applied(s.flusher, s.done) ==> r.chan < |s.calls|
    ensures Logged(AppliedOps(s), Logs(Applied(s.flusher, s.done)))
  {
    forall r | r in Applied(s.flusher, s.done) ensures IsRequest(s.calls, r) { AppliedAreRequests(s, r); }
    var rs := Applied(s.flusher, s.done);
    forall i | 0 <= i < |rs| ensures Logs(rs)[i] == ToLog(AppliedOps(s)[i], Logs(rs)[i].lsn) {
      assert IsRequest(s.calls, rs[i]);
      LsnOfLog(s.calls[rs[i].chan].op, s.calls[rs[i].chan].lsn);
    }
  }

  lemma LsnOfLog(op: Op, lsn: int)
    ensures ToLog(op, lsn).lsn == lsn
  {
    OpEffect(map[], op.key, if op.SetOp? then op.value else "", lsn);
  }

  /**
   In every reachable state a key holds the value of the last applied Set or Del call of it,
   and what it held at the start of the run when there is none.
   */
  lemma KeyHoldsLastOp(s: State, steps: seq<Step>, k: string)
    requires Initial(s) && Legal(s, steps)
    ensures var now := Run(s, steps); forall r :: r in Applied(now.flusher, now.done) ==> r.chan < |now.calls|
    ensures var now := Run(s, steps); LastDecides(AppliedOps(now), k, Lookup(s.table, k), Lookup(now.table, k))
  {
    ReachableInv(s, steps);
    RunKeepsBase(s, steps);
    StateKeyHolds(Run(s, steps), k);
  }

  lemma StateKeyHolds(s: State, k: string)
    requires Inv(s)
    ensures forall r :: r in Applied(s.flusher, s.done) ==> r.chan < |s.calls|
    ensures LastDecides(AppliedOps(s), k, Lookup(s.base, k), Lookup(s.table, k))
  {
    AppliedOpsLogged(s);
    KeyAfterOps(s.base, AppliedOps(s), Logs(Applied(s.flusher, s.done)), k);
  }
}

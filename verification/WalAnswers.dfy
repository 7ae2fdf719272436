/**
 Promises: a request's channel is open exactly while the request is pending, is sent on
 once, and carries the outcome of the segment write that held the record.
 */
module WalAnswers {
  import opened Sorting
  import opened Records
  import opened WalMachine
  import opened WalOwnership

  /** Occurrences of a request where its promise is still to be resolved. */
  function Pending(s: State, r: Request): nat { Unflushed(s, r) + In(Unresolved(s.flusher), r) }

  /** The copies whose promises are resolved are the first n, and they alone are flagged. */
  ghost predicate FlagsBelow(b: Batch, n: nat) {
    forall k :: 0 <= k < |b| ==> (b[k].promised <==> k < n)
  }

  /** The flusher's phase agrees with the last write. */
  ghost predicate FlusherFits(f: Flusher, flushes: seq<Flush>) {
    && (f.Writing? ==> f.batch != [])
    && (f.Notifying? ==>
          && flushes != [] && f.next <= |f.batch|
          && flushes[|flushes| - 1].batch == AsPushed(f.batch) && flushes[|flushes| - 1].ok == f.ok
          && FlagsBelow(f.batch, f.next))
    && (f.Applying? ==>
          && flushes != [] && f.at <= |f.sorted| && flushes[|flushes| - 1].ok
          && IsSorting(RequestLeq, flushes[|flushes| - 1].batch, AsPushed(f.sorted)) && FlagsBelow(f.sorted, |f.sorted|))
  }

  ghost predicate FlusherOk(s: State) {
    (s.disk.hasFile ==> s.disk.files != []) && FlusherFits(s.flusher, s.flushes)
  }

  /** What the flusher is about to write carries no flag. */
  lemma UnwrittenUnflagged(s: State)
    requires Owned(s) && s.flusher.Writing?
    ensures AsPushed(s.flusher.batch) == s.flusher.batch && FlagsBelow(s.flusher.batch, 0)
  {
    var b := s.flusher.batch;
    forall k | 0 <= k < |b| ensures !b[k].promised {
      assert In(b, b[k]) > 0 && OwnedAt(s, b[k]);
    }
  }

  lemma WriteKeepsFlusherOk(s: State, fate: Fate)
    requires FlusherOk(s) && Owned(s) && Enabled(s, Write(fate))
    ensures FlusherOk(DoWrite(s, fate))
  {
    var data := Logs(s.flusher.batch);
    PersistExtendsLog(s.disk, data, s.cfg.streamSize(data), fate);
    UnwrittenUnflagged(s);
  }

  lemma AsPushedSorting(b: Batch, sorted: Batch)
    requires IsSorting(RequestLeq, b, sorted)
    ensures IsSorting(RequestLeq, AsPushed(b), AsPushed(sorted))
  {
    var unflag := (r: Request) => r.(promised := false);
    PermutedImage(unflag, sorted, b);
    assert Image(unflag, b) == AsPushed(b) && Image(unflag, sorted) == AsPushed(sorted);
    forall i, j | 0 <= i < j < |sorted| ensures RequestLeq(AsPushed(sorted)[i], AsPushed(sorted)[j]) {
      assert RequestLeq(sorted[i], sorted[j]);
    }
  }

  lemma SortKeepsFlusherOk(s: State, sorted: Batch)
    requires FlusherOk(s) && Enabled(s, SortBatch(sorted))
    ensures FlusherOk(Do(s, SortBatch(sorted)))
  {
    AsPushedSorting(s.flusher.batch, sorted);
    forall k | 0 <= k < |sorted| ensures sorted[k].promised { assert sorted[k] in multiset(s.flusher.batch); }
  }

  lemma NotifyKeepsFlusherOk(s: State)
    requires FlusherOk(s) && Enabled(s, Notify)
    ensures FlusherOk(DoNotify(s))
  {
    assert AsPushed(DoNotify(s).flusher.batch) == AsPushed(s.flusher.batch);
  }

  lemma StepKeepsFlusherOk(s: State, step: Step)
    requires FlusherOk(s) && Owned(s) && Enabled(s, step)
    ensures FlusherOk(Do(s, step))
  {
    match step
    case Write(fate) => WriteKeepsFlusherOk(s, fate);
    case Notify => NotifyKeepsFlusherOk(s);
    case SortBatch(sorted) => SortKeepsFlusherOk(s, sorted);
    case Append(i) => assert DoAppend(s, i).flusher == s.flusher && DoAppend(s, i).flushes == s.flushes;
    case Begin(_) => case Draw(i) => case Send(k) => case Get(i) => case Take =>
    case Cancel => case Tick => case SeeCancel => case SeeEmpty => case FinalSeal =>
    case ApplyNext => case Finish =>
  }

  // ---------------------------------------------------------------- what is pending

  lemma UnresolvedAsPushed(b: Batch, n: nat)
    requires FlagsBelow(b, n) && n <= |b|
    ensures b[n..] == AsPushed(b)[n..]
  {
    forall k | n <= k < |b| ensures b[k] == AsPushed(b)[k] {}
  }

  lemma PendingAtMostOnce(s: State, r: Request)
    requires FlusherOk(s) && OwnedAt(s, r)
    ensures Pending(s, r) <= 1
    ensures Pending(s, r) > 0 ==> IsRequest(s.calls, r)
  {
    if s.flusher.Notifying? {
      UnresolvedAsPushed(s.flusher.batch, s.flusher.next);
      InSuffix(AsPushed(s.flusher.batch), s.flusher.next, r);
      InFlushesAt(s.flushes, |s.flushes| - 1, r);
    }
  }

  lemma PendingAppend(s: State, i: nat, r: Request)
    requires Enabled(s, Append(i))
    ensures Pending(DoAppend(s, i), r) == Pending(s, r) + (if Req(s.calls, i) == r then 1 else 0)
  {
    assert DoAppend(s, i).queue == s.queue && DoAppend(s, i).flusher == s.flusher;
    HandsAfterAppend(s, i, r);
  }

  lemma PendingNotify(s: State, r: Request)
    requires Enabled(s, Notify)
    ensures Pending(s, r) == Pending(DoNotify(s), r) + (if s.flusher.batch[s.flusher.next] == r then 1 else 0)
  {
    InSplit(s.flusher.batch, s.flusher.next, r);
    assert DoNotify(s).flusher.batch[s.flusher.next + 1..] == s.flusher.batch[s.flusher.next + 1..];
  }

  lemma PendingWrite(s: State, fate: Fate, r: Request)
    requires Enabled(s, Write(fate))
    ensures Pending(DoWrite(s, fate), r) == Pending(s, r)
  {
    assert s.flusher.batch[0..] == s.flusher.batch;
  }

  lemma PendingSend(s: State, k: nat, r: Request)
    requires Enabled(s, Send(k))
    ensures Pending(Do(s, Send(k)), r) == Pending(s, r)
  {
    InAllRemove(s.hands, k, r);
    InAllAppend(s.queue, s.hands[k], r);
  }

  lemma StartFlushHolds(mode: Mode, b: Batch)
    ensures Unwritten(StartFlush(mode, b)) == b && Unresolved(StartFlush(mode, b)) == []
  {
  }

  lemma PendingTake(s: State, r: Request)
    requires Enabled(s, Take)
    ensures Pending(Do(s, Take), r) == Pending(s, r)
  {
    InAllHead(s.queue, r);
    StartFlushHolds(s.flusher.mode, s.queue[0]);
  }

  lemma PendingSeal(s: State, step: Step, r: Request)
    requires Enabled(s, step) && (step.Tick? || step.FinalSeal?)
    ensures Pending(Do(s, step), r) == Pending(s, r)
  {
    StartFlushHolds(if step.Tick? then Serving else Closing, s.batch);
  }

  lemma PendingUnmoved(s: State, step: Step, r: Request)
    requires FlusherOk(s) && Enabled(s, step) && MovesNothing(step)
    ensures Pending(Do(s, step), r) == Pending(s, r)
  {
    var s' := Do(s, step);
    assert s'.batch == s.batch && s'.hands == s.hands && s'.queue == s.queue;
    assert Unwritten(s'.flusher) == Unwritten(s.flusher) && Unresolved(s'.flusher) == Unresolved(s.flusher);
  }

  /** Only Append adds a pending request, only Notify settles one. */
  lemma PendingOther(s: State, step: Step, r: Request)
    requires FlusherOk(s) && Enabled(s, step) && !step.Append? && !step.Notify?
    ensures Pending(Do(s, step), r) == Pending(s, r)
  {
    if MovesNothing(step) {
      PendingUnmoved(s, step, r);
    } else {
      match step
      case Send(k) => PendingSend(s, k, r);
      case Take => PendingTake(s, r);
      case Write(fate) => PendingWrite(s, fate, r);
      case Tick => PendingSeal(s, step, r);
      case FinalSeal => PendingSeal(s, step, r);
    }
  }

  // ---------------------------------------------------------------- the outcome a caller reads

  predicate Answered(c: Call, err: bool) { c.cell == Full(err) || c.phase == Returned(err) }

  /** The channel of a pushed call, given how often its request is pending and which writes held it. */
  ghost predicate AnswerOk(c: Call, pending: nat, flushes: seq<Flush>, r: Request) {
    && (c.cell == Unset <==> pending > 0)
    && (c.phase.Returned? <==> c.cell == Drained)
    && (pending == 0 ==> forall j :: 0 <= j < |flushes| && r in flushes[j].batch ==> Answered(c, !flushes[j].ok))
  }

  ghost predicate AnswerAt(s: State, r: Request) {
    IsRequest(s.calls, r) ==> AnswerOk(s.calls[r.chan], Pending(s, r), s.flushes, r)
  }

  /** Calls that have not appended have an untouched channel. */
  ghost predicate FreshCells(calls: seq<Call>) {
    forall i :: 0 <= i < |calls| && !IsPushed(calls[i]) ==> calls[i].cell == Unset
  }

  ghost predicate Answers(s: State) { !s.panicked && FreshCells(s.calls) && forall r :: AnswerAt(s, r) }

  lemma AnswerAppend(s: State, i: nat, r: Request)
    requires AnswerAt(s, r) && FreshCells(s.calls) && Enabled(s, Append(i)) && OwnedAt(s, r) && FlusherOk(s)
    ensures AnswerAt(DoAppend(s, i), r)
  {
    PendingAppend(s, i, r);
    CallsAfterAppend(s, i, r);
    if r == Req(s.calls, i) {
      assert DoAppend(s, i).calls[i].cell == Unset;
    } else if IsRequest(s.calls, r) {
      assert r.chan != i;
      assert DoAppend(s, i).calls[r.chan] == s.calls[r.chan];
    }
  }

  lemma AnswerWrite(s: State, fate: Fate, r: Request)
    requires AnswerAt(s, r) && Enabled(s, Write(fate))
    ensures AnswerAt(DoWrite(s, fate), r)
  {
    PendingWrite(s, fate, r);
    var s' := DoWrite(s, fate);
    assert s'.calls == s.calls;
    if IsRequest(s.calls, r) && Pending(s, r) == 0 {
      assert In(s.flusher.batch, r) == 0;
      assert forall j :: 0 <= j < |s'.flushes| && r in s'.flushes[j].batch ==> j < |s.flushes|;
    }
  }

  lemma AnswerGet(s: State, i: nat, r: Request)
    requires AnswerAt(s, r) && Enabled(s, Get(i))
    ensures AnswerAt(Do(s, Get(i)), r)
  {
    var s' := Do(s, Get(i));
    RequestOfUpdate(s.calls, i, s'.calls[i], r);
  }

  lemma AnswerDraw(s: State, i: nat, r: Request)
    requires AnswerAt(s, r) && Enabled(s, Draw(i))
    ensures AnswerAt(Do(s, Draw(i)), r)
  {
    RequestOfUpdate(s.calls, i, Do(s, Draw(i)).calls[i], r);
  }

  lemma AnswerSend(s: State, k: nat, r: Request)
    requires AnswerAt(s, r) && Enabled(s, Send(k)) && FlusherOk(s)
    requires var o := s.calls[Owner(s.hands[k])]; IsPushed(o) && !o.phase.Returned?
    ensures AnswerAt(Do(s, Send(k)), r)
  {
    PendingSend(s, k, r);
    var o := Owner(s.hands[k]);
    RequestOfUpdate(s.calls, o, s.calls[o].(phase := Waiting), r);
  }

  /**
   What resolving does to a copy and its channel, in any state: a flagged copy does nothing,
   an unflagged one fills an open channel and panics on a closed one; the copy is flagged.
   */
  lemma NotifyEffect(s: State)
    requires Enabled(s, Notify)
    ensures var s', n := Do(s, Notify), s.flusher.next; var x := s.flusher.batch[n]; var c := s.calls[x.chan];
      && s'.flusher.batch == s.flusher.batch[n := Request(x.log, x.chan, true)] && s'.flusher.next == n + 1
      && (x.promised ==> s'.calls == s.calls && s'.panicked == s.panicked)
      && (!x.promised && c.cell == Unset ==>
            s'.calls == s.calls[x.chan := Call(c.op, c.lsn, c.phase, Full(!s.flusher.ok))] && s'.panicked == s.panicked)
      && (!x.promised && c.cell != Unset ==> s'.panicked)
  {
  }

  /** The request being resolved is in the last write only. */
  lemma NotifiedOnce(s: State, j: nat)
    requires Enabled(s, Notify) && FlusherOk(s) && OwnedAt(s, s.flusher.batch[s.flusher.next])
    requires j < |s.flushes| && s.flusher.batch[s.flusher.next] in s.flushes[j].batch
    ensures j == |s.flushes| - 1
  {
    var x := s.flusher.batch[s.flusher.next];
    assert s.flushes[|s.flushes| - 1].batch[s.flusher.next] == x;
    assert In(s.flushes[j].batch, x) > 0 && In(s.flushes[|s.flushes| - 1].batch, x) > 0;
    InFlushesAt(s.flushes, j, x);
  }

  /** The copy in the batch is unflagged and its channel open, so Set sends, once. */
  lemma NotifySends(s: State)
    requires Enabled(s, Notify) && FlusherOk(s) && Owned(s) && Answers(s)
    ensures var x := s.flusher.batch[s.flusher.next];
      && IsRequest(s.calls, x) && !x.promised && s.calls[x.chan].cell == Unset
      && Pending(s, x) == 1
      && DoNotify(s).calls == s.calls[x.chan := s.calls[x.chan].(cell := Full(!s.flusher.ok))]
  {
    var x := s.flusher.batch[s.flusher.next];
    assert OwnedAt(s, x) && AnswerAt(s, x);
    PendingNotify(s, x);
    PendingAtMostOnce(s, x);
  }

  lemma AnswerNotified(s: State)
    requires Enabled(s, Notify) && FlusherOk(s) && Owned(s) && Answers(s)
    ensures AnswerAt(DoNotify(s), s.flusher.batch[s.flusher.next])
  {
    var s', x := DoNotify(s), s.flusher.batch[s.flusher.next];
    assert OwnedAt(s, x) && AnswerAt(s, x);
    NotifySends(s);
    PendingNotify(s, x);
    forall j | 0 <= j < |s'.flushes| && x in s'.flushes[j].batch ensures s'.flushes[j].ok == s.flusher.ok {
      NotifiedOnce(s, j);
    }
  }

  lemma AnswerOthers(s: State, r: Request)
    requires Enabled(s, Notify) && FlusherOk(s) && Owned(s) && Answers(s) && r != s.flusher.batch[s.flusher.next]
    ensures AnswerAt(DoNotify(s), r)
  {
    var s', x := DoNotify(s), s.flusher.batch[s.flusher.next];
    assert AnswerAt(s, r);
    NotifySends(s);
    PendingNotify(s, r);
    RequestOfUpdate(s.calls, x.chan, s'.calls[x.chan], r);
    assert IsRequest(s.calls, r) ==> r.chan != x.chan;
  }

  lemma AnswerNotify(s: State, r: Request)
    requires Enabled(s, Notify) && FlusherOk(s) && Owned(s) && Answers(s)
    ensures AnswerAt(DoNotify(s), r)
  {
    if r == s.flusher.batch[s.flusher.next] { AnswerNotified(s); } else { AnswerOthers(s, r); }
  }

  /** The owner of a batch in hand is still waiting for its answer. */
  lemma OwnerUnanswered(s: State, k: nat)
    requires Owned(s) && Answers(s) && k < |s.hands| && s.hands[k] != []
    ensures Owner(s.hands[k]) < |s.calls|
    ensures var o := s.calls[Owner(s.hands[k])]; IsPushed(o) && !o.phase.Returned?
  {
    var r := s.hands[k][|s.hands[k]| - 1];
    InAllRemove(s.hands, k, r);
    assert In(s.hands[k], r) > 0;
    assert OwnedAt(s, r) && AnswerAt(s, r);
  }

  lemma AnswerLeft(s: State, step: Step, r: Request)
    requires AnswerAt(s, r) && FlusherOk(s) && Enabled(s, step) && LeavesCalls(step)
    ensures AnswerAt(Do(s, step), r)
  {
    CallsLeft(s, step);
    PendingOther(s, step, r);
  }

  lemma AnswerBegin(s: State, op: Op, r: Request)
    requires AnswerAt(s, r) && FlusherOk(s)
    ensures AnswerAt(Do(s, Begin(op)), r)
  {
    PendingOther(s, Begin(op), r);
  }

  lemma AnswerStep(s: State, step: Step, r: Request)
    requires Owned(s) && FlusherOk(s) && Answers(s) && Enabled(s, step)
    ensures AnswerAt(Do(s, step), r)
  {
    assert OwnedAt(s, r) && AnswerAt(s, r);
    if LeavesCalls(step) {
      AnswerLeft(s, step, r);
    } else {
      match step
      case Begin(op) => AnswerBegin(s, op, r);
      case Append(i) => AnswerAppend(s, i, r);
      case Write(fate) => AnswerWrite(s, fate, r);
      case Get(i) => AnswerGet(s, i, r);
      case Send(k) => OwnerUnanswered(s, k); AnswerSend(s, k, r);
      case Notify => AnswerNotify(s, r);
      case Draw(i) => AnswerDraw(s, i, r);
    }
  }

  lemma CellsStep(s: State, step: Step)
    requires Owned(s) && FlusherOk(s) && Answers(s) && Enabled(s, step)
    ensures FreshCells(Do(s, step).calls) && !Do(s, step).panicked
  {
    if LeavesCalls(step) {
      CallsLeft(s, step);
    } else if step.Notify? {
      NotifySends(s);
    }
  }

  lemma StepKeepsAnswers(s: State, step: Step)
    requires Owned(s) && FlusherOk(s) && Answers(s) && Enabled(s, step)
    ensures Answers(Do(s, step))
  {
    CellsStep(s, step);
    forall r ensures AnswerAt(Do(s, step), r) { AnswerStep(s, step, r); }
  }
}

/**
 The objects implement the machine: an abstraction from the objects to its states, under
 which Push is the step Append and FlushBatch is the steps Write, Notify for every
 request, SortBatch, ApplyNext for every record, Finish.
 */
module WalRefinement {
  import opened Sorting
  import opened Records
  import opened Segments
  import opened Recovery
  import opened WalMachine
  import opened WalOwnership
  import opened WalAnswers
  import opened WalLimits
  import opened WalRuns
  import opened WalRestarts
  import Objects = WalObjects
  import Gens = IdGenerator

  // ---------------------------------------------------------------- one flush of the machine

  function Repeat(step: Step, n: nat): seq<Step> { seq(n, i => step) }

  lemma RepeatOnce(s: State, step: Step, n: nat, mid: State)
    requires Legal(s, Repeat(step, n)) && Run(s, Repeat(step, n)) == mid && Enabled(mid, step)
    ensures Legal(s, Repeat(step, n + 1)) && Run(s, Repeat(step, n + 1)) == Do(mid, step)
  {
    RunOne(s, Repeat(step, n), step);
    assert Repeat(step, n + 1) == Repeat(step, n) + [step];
  }

  function FlushSteps(n: nat, fate: Fate, ok: bool, sorted: Batch): seq<Step> {
    if ok then [Write(fate)] + Repeat(Notify, n) + [SortBatch(sorted)] + Repeat(ApplyNext, n) + [Finish]
    else [Write(fate)] + Repeat(Notify, n) + [Finish]
  }

  /** Every request's channel is open and empty, no copy is flagged, and no two share a channel. */
  ghost predicate Answerable(calls: seq<Call>, b: Batch) {
    && (forall k :: 0 <= k < |b| ==> b[k].chan < |calls| && !b[k].promised && calls[b[k].chan].cell == Unset)
    && (forall j, k :: 0 <= j < k < |b| ==> b[j].chan != b[k].chan)
  }

  predicate AmongFirst(b: Batch, n: nat, i: nat) { exists k :: 0 <= k < n && k < |b| && b[k].chan == i }

  /** The calls once the first n requests of a batch are resolved. */
  function Resolved(calls: seq<Call>, b: Batch, n: nat, ok: bool): seq<Call> {
    seq(|calls|, i requires 0 <= i < |calls| => if AmongFirst(b, n, i) then calls[i].(cell := Full(!ok)) else calls[i])
  }

  function FlagFirst(b: Batch, n: nat): Batch {
    seq(|b|, i requires 0 <= i < |b| => if i < n then b[i].(promised := true) else b[i])
  }

  function Notifications(s: State, b: Batch, n: nat, ok: bool): State
    requires !s.flusher.Exited?
  {
    s.(calls := Resolved(s.calls, b, n, ok), flusher := Notifying(s.flusher.mode, FlagFirst(b, n), n, ok))
  }

  lemma OneNotification(s: State, b: Batch, n: nat, ok: bool)
    requires !s.flusher.Exited? && Answerable(s.calls, b) && n < |b|
    ensures Enabled(Notifications(s, b, n, ok), Notify)
    ensures DoNotify(Notifications(s, b, n, ok)) == Notifications(s, b, n + 1, ok)
  {
    var before, after := Notifications(s, b, n, ok), Notifications(s, b, n + 1, ok);
    assert FlagFirst(b, n)[n] == b[n];
    assert Flagged(FlagFirst(b, n), n) == FlagFirst(b, n + 1);
    assert !AmongFirst(b, n, b[n].chan);
    forall i: nat | i < |s.calls| ensures AmongFirst(b, n + 1, i) <==> AmongFirst(b, n, i) || i == b[n].chan {
      if i == b[n].chan { assert AmongFirst(b, n + 1, i); }
      if AmongFirst(b, n, i) {
        var k :| 0 <= k < n && k < |b| && b[k].chan == i;
        assert AmongFirst(b, n + 1, i);
      }
    }
    assert Notified(before.calls, b[n], ok) == after.calls;
  }

  lemma {:induction false} NotificationRun(s: State, n: nat)
    requires s.flusher.Notifying? && s.flusher.next == 0 && Answerable(s.calls, s.flusher.batch) && n <= |s.flusher.batch|
    ensures Legal(s, Repeat(Notify, n))
    ensures Run(s, Repeat(Notify, n)) == Notifications(s, s.flusher.batch, n, s.flusher.ok)
  {
    var b, ok := s.flusher.batch, s.flusher.ok;
    if n == 0 {
      assert FlagFirst(b, 0) == b && Resolved(s.calls, b, 0, ok) == s.calls;
    } else {
      NotificationRun(s, n - 1);
      OneNotification(s, b, n - 1, ok);
      RepeatOnce(s, Notify, n - 1, Notifications(s, b, n - 1, ok));
    }
  }

  function Applications(s: State, sorted: Batch, n: nat): State
    requires !s.flusher.Exited? && n <= |sorted|
  {
    s.(table := ApplyAll(s.table, Logs(sorted)[..n]), flusher := Applying(s.flusher.mode, sorted, n))
  }

  lemma OneApplication(s: State, sorted: Batch, n: nat)
    requires !s.flusher.Exited? && n < |sorted|
    ensures Do(Applications(s, sorted, n), ApplyNext) == Applications(s, sorted, n + 1)
  {
    assert Logs(sorted)[..n + 1][..n] == Logs(sorted)[..n];
  }

  lemma {:induction false} ApplicationRun(s: State, n: nat)
    requires s.flusher.Applying? && s.flusher.at == 0 && n <= |s.flusher.sorted|
    ensures Legal(s, Repeat(ApplyNext, n)) && Run(s, Repeat(ApplyNext, n)) == Applications(s, s.flusher.sorted, n)
  {
    var sorted := s.flusher.sorted;
    if n == 0 {
      assert Logs(sorted)[..0] == [];
    } else {
      ApplicationRun(s, n - 1);
      OneApplication(s, sorted, n - 1);
      RepeatOnce(s, ApplyNext, n - 1, Applications(s, sorted, n - 1));
    }
  }

  /** The state after a whole flush. */
  function AfterWhole(s: State, fate: Fate, sorted: Batch): State
    requires s.flusher.Writing? && (s.disk.hasFile ==> s.disk.files != [])
  {
    var w, b := DoWrite(s, fate), s.flusher.batch;
    var t := w.(calls := Resolved(s.calls, b, |b|, w.flusher.ok), flusher := AfterFlush(s.flusher.mode));
    if w.flusher.ok then t.(table := ApplyAll(s.table, Logs(sorted)), done := s.done + [AsPushed(sorted)]) else t
  }

  lemma WriteAndNotify(s: State, fate: Fate)
    requires s.flusher.Writing? && (s.disk.hasFile ==> s.disk.files != []) && Answerable(s.calls, s.flusher.batch)
    ensures var w, b := DoWrite(s, fate), s.flusher.batch; var steps := [Write(fate)] + Repeat(Notify, |b|);
      Legal(s, steps) && Run(s, steps) == Notifications(w, b, |b|, w.flusher.ok)
  {
    RunOne(s, [], Write(fate));
    assert [] + [Write(fate)] == [Write(fate)];
    NotificationRun(DoWrite(s, fate), |s.flusher.batch|);
    RunConcat(s, [Write(fate)], Repeat(Notify, |s.flusher.batch|));
  }

  lemma SortAndApplyRun(s: State, sorted: Batch)
    requires s.flusher.Notifying? && s.flusher.next == |s.flusher.batch| && s.flusher.ok
    requires IsSorting(RequestLeq, s.flusher.batch, sorted)
    ensures var steps := [SortBatch(sorted)] + Repeat(ApplyNext, |sorted|);
      Legal(s, steps) && Run(s, steps) == Applications(s, sorted, |sorted|)
  {
    RunOne(s, [], SortBatch(sorted));
    assert [] + [SortBatch(sorted)] == [SortBatch(sorted)];
    ApplicationRun(Do(s, SortBatch(sorted)), |sorted|);
    RunConcat(s, [SortBatch(sorted)], Repeat(ApplyNext, |sorted|));
  }

  lemma FinishFailed(s: State, fate: Fate, sorted: Batch)
    requires s.flusher.Writing? && (s.disk.hasFile ==> s.disk.files != []) && !DoWrite(s, fate).flusher.ok
    ensures var b := s.flusher.batch; var mid := Notifications(DoWrite(s, fate), b, |b|, false);
      Enabled(mid, Finish) && Do(mid, Finish) == AfterWhole(s, fate, sorted)
  {
  }

  lemma FinishOk(s: State, fate: Fate, sorted: Batch)
    requires s.flusher.Writing? && (s.disk.hasFile ==> s.disk.files != []) && DoWrite(s, fate).flusher.ok
    ensures var b := s.flusher.batch;
      var end := Applications(Notifications(DoWrite(s, fate), b, |b|, true), sorted, |sorted|);
      Enabled(end, Finish) && Do(end, Finish) == AfterWhole(s, fate, sorted)
  {
    assert Logs(sorted)[..|sorted|] == Logs(sorted);
  }

  lemma FlushRunOk(s: State, fate: Fate, sorted: Batch)
    requires s.flusher.Writing? && (s.disk.hasFile ==> s.disk.files != []) && Answerable(s.calls, s.flusher.batch)
    requires DoWrite(s, fate).flusher.ok
    requires IsSorting(RequestLeq, FlagFirst(s.flusher.batch, |s.flusher.batch|), sorted)
    ensures var steps := FlushSteps(|s.flusher.batch|, fate, true, sorted);
      Legal(s, steps) && Run(s, steps) == AfterWhole(s, fate, sorted)
  {
    var b := s.flusher.batch;
    var first, second := [Write(fate)] + Repeat(Notify, |b|), [SortBatch(sorted)] + Repeat(ApplyNext, |sorted|);
    WriteAndNotify(s, fate);
    SortAndApplyRun(Notifications(DoWrite(s, fate), b, |b|, true), sorted);
    RunConcat(s, first, second);
    FinishOk(s, fate, sorted);
    RunOne(s, first + second, Finish);
    SameLength(sorted, FlagFirst(b, |b|));
    assert first + second + [Finish] == FlushSteps(|b|, fate, true, sorted);
  }

  /** The steps of a flush run, and lead there. */
  lemma FlushRun(s: State, fate: Fate, sorted: Batch)
    requires s.flusher.Writing? && (s.disk.hasFile ==> s.disk.files != []) && Answerable(s.calls, s.flusher.batch)
    requires DoWrite(s, fate).flusher.ok ==>
               IsSorting(RequestLeq, FlagFirst(s.flusher.batch, |s.flusher.batch|), sorted)
    ensures var steps := FlushSteps(|s.flusher.batch|, fate, DoWrite(s, fate).flusher.ok, sorted);
      Legal(s, steps) && Run(s, steps) == AfterWhole(s, fate, sorted)
  {
    if DoWrite(s, fate).flusher.ok {
      FlushRunOk(s, fate, sorted);
    } else {
      WriteAndNotify(s, fate);
      FinishFailed(s, fate, sorted);
      RunOne(s, [Write(fate)] + Repeat(Notify, |s.flusher.batch|), Finish);
    }
  }

  lemma WholeFields(s: State, fate: Fate, sorted: Batch)
    requires s.flusher.Writing? && (s.disk.hasFile ==> s.disk.files != [])
    ensures var s', b := AfterWhole(s, fate, sorted), s.flusher.batch;
      var w := Persist(s.disk, Logs(b), s.cfg.streamSize(Logs(b)), fate);
      && s'.cfg == s.cfg && s'.batch == s.batch && s'.volume == s.volume && s'.queue == s.queue && s'.hands == s.hands
      && s'.disk == w.seg && DoWrite(s, fate).flusher.ok == w.ok && s'.calls == Resolved(s.calls, b, |b|, w.ok)
      && s'.table == (if w.ok then ApplyAll(s.table, Logs(sorted)) else s.table)
      && s'.flusher == AfterFlush(s.flusher.mode)
  {
  }

  // ---------------------------------------------------------------- the abstraction

  /** ids numbers the promise channels of the requests pushed so far. */
  type Ids = map<Objects.Channel, nat>

  ghost function AbsRequest(ids: Ids, r: Objects.WriteRequest): Request {
    Request(r.log, if r.promise.result in ids then ids[r.promise.result] else 0, r.promise.promised)
  }

  ghost function Abs(ids: Ids, b: seq<Objects.WriteRequest>): Batch {
    seq(|b|, i requires 0 <= i < |b| => AbsRequest(ids, b[i]))
  }

  ghost function AbsAll(ids: Ids, bs: seq<seq<Objects.WriteRequest>>): seq<Batch> {
    seq(|bs|, i requires 0 <= i < |bs| => Abs(ids, bs[i]))
  }

  ghost predicate Known(ids: Ids, b: seq<Objects.WriteRequest>) {
    forall k :: 0 <= k < |b| ==> b[k].promise.result in ids
  }

  ghost function CellOf(c: Objects.Channel): Cell
    reads c
  {
    if c.buffer != [] then Full(c.buffer[0] == Objects.Failed) else if c.closed then Drained else Unset
  }

  /** The channels hold what the machine says, and different calls have different ones. */
  ghost predicate ChannelsMatch(ids: Ids, calls: seq<Call>)
    reads ids.Keys
  {
    && (forall c :: c in ids ==> ids[c] < |calls| && IsPushed(calls[ids[c]]) && CellOf(c) == calls[ids[c]].cell)
    && (forall c, d :: c in ids && d in ids && ids[c] == ids[d] ==> c == d)
  }

  /** The machine's state is that of the objects; hands are the sealed batches in producers' hands. */
  ghost predicate Represents(wal: Objects.Wal, hands: seq<seq<Objects.WriteRequest>>, ids: Ids, s: State)
    reads wal, wal.table, wal.segment, ids.Keys
  {
    && s.cfg == wal.cfg && s.table == wal.table.data && s.disk == wal.segment.Value()
    && s.batch == Abs(ids, wal.batch) && s.volume == wal.activeBatchVolume
    && s.queue == AbsAll(ids, wal.batches) && s.hands == AbsAll(ids, hands)
    && Known(ids, wal.batch) && (forall k :: 0 <= k < |wal.batches| ==> Known(ids, wal.batches[k]))
    && (forall k :: 0 <= k < |hands| ==> Known(ids, hands[k]))
    && ChannelsMatch(ids, s.calls)
  }

  // ---------------------------------------------------------------- FlushBatch

  /** What the flusher is about to write can be answered. */
  lemma WritingIsAnswerable(s: State)
    requires Inv(s) && s.flusher.Writing?
    ensures Answerable(s.calls, s.flusher.batch)
  {
    var b := s.flusher.batch;
    forall k | 0 <= k < |b| ensures IsRequest(s.calls, b[k]) && s.calls[b[k].chan].cell == Unset {
      assert In(b, b[k]) > 0 && OwnedAt(s, b[k]) && AnswerAt(s, b[k]);
    }
    forall j, k | 0 <= j < k < |b| ensures b[j].chan != b[k].chan {
      assert OwnedAt(s, b[j]) && IsRequest(s.calls, b[j]) && IsRequest(s.calls, b[k]);
      if b[j] == b[k] { InTwice(b, j, k); }
    }
  }

  lemma UnansweredObjects(ids: Ids, calls: seq<Call>, b: seq<Objects.WriteRequest>)
    requires ChannelsMatch(ids, calls) && Known(ids, b) && Answerable(calls, Abs(ids, b))
    ensures Objects.Unanswered(b)
  {
    var a := Abs(ids, b);
    forall i | 0 <= i < |b| ensures !b[i].promise.promised && b[i].promise.result.Ready() {
      assert !a[i].promised && calls[a[i].chan].cell == Unset;
    }
    forall i, j | 0 <= i < j < |b| ensures b[i].promise.result != b[j].promise.result {
      assert a[i].chan != a[j].chan;
    }
  }

  lemma AbsSorting(ids: Ids, b: seq<Objects.WriteRequest>, sorted: seq<Objects.WriteRequest>)
    requires IsSorting(Objects.RequestLeq, Objects.Flagged(b, |b|), sorted)
    ensures IsSorting(RequestLeq, FlagFirst(Abs(ids, b), |b|), Abs(ids, sorted))
  {
    var f := (r: Objects.WriteRequest) => AbsRequest(ids, r);
    var flagged := Objects.Flagged(b, |b|);
    PermutedImage(f, sorted, flagged);
    assert Image(f, flagged) == FlagFirst(Abs(ids, b), |b|) && Image(f, sorted) == Abs(ids, sorted);
    forall i, j | 0 <= i < j < |sorted| ensures RequestLeq(Abs(ids, sorted)[i], Abs(ids, sorted)[j]) {
      assert Objects.RequestLeq(sorted[i], sorted[j]);
    }
  }

  /** Once the batch is answered and nothing else has changed, the channels match the resolved calls. */
  lemma ChannelsAfterFlush(ids: Ids, calls: seq<Call>, b: seq<Objects.WriteRequest>, err: Objects.Error)
    requires Known(ids, b) && Objects.AllAnswered(b, err)
    requires forall c :: c in ids ==> ids[c] < |calls| && IsPushed(calls[ids[c]])
    requires forall c, d :: c in ids && d in ids && ids[c] == ids[d] ==> c == d
    requires forall c :: c in ids && c !in Objects.Channels(b) ==> CellOf(c) == calls[ids[c]].cell
    ensures ChannelsMatch(ids, Resolved(calls, Abs(ids, b), |b|, err == Objects.Nil))
  {
    var after := Resolved(calls, Abs(ids, b), |b|, err == Objects.Nil);
    forall c | c in ids ensures CellOf(c) == after[ids[c]].cell { ChannelAmong(ids, b, c); }
  }

  lemma ChannelAmong(ids: Ids, b: seq<Objects.WriteRequest>, c: Objects.Channel)
    requires Known(ids, b) && c in ids
    requires forall d :: d in ids && ids[c] == ids[d] ==> c == d
    ensures c in Objects.Channels(b) <==> AmongFirst(Abs(ids, b), |b|, ids[c])
  {
    var a := Abs(ids, b);
    if c in Objects.Channels(b) {
      var k :| 0 <= k < |b| && b[k].promise.result == c;
      assert a[k].chan == ids[c];
    }
    if AmongFirst(a, |b|, ids[c]) {
      var k :| 0 <= k < |b| && a[k].chan == ids[c];
      assert b[k] in b;
    }
  }

  /** FlushBatch leaves the objects in the state after a whole flush. */
  method FlushObjects(wal: Objects.Wal, b: seq<Objects.WriteRequest>, encodes: Log -> bool, env: Env,
                      ghost hands: seq<seq<Objects.WriteRequest>>, ghost ids: Ids, ghost s: State)
    returns (err: Objects.Error, ghost fate: Fate, ghost sorted: Batch)
    requires Represents(wal, hands, ids, s) && (s.disk.hasFile ==> s.disk.files != [])
    requires b != [] && Known(ids, b) && s.flusher.Writing? && s.flusher.batch == Abs(ids, b)
    requires Answerable(s.calls, s.flusher.batch)
    modifies wal.segment, wal.table, Objects.Channels(b)
    ensures fate == if Objects.AllEncode(encodes, b) then Encoded(env) else Unencoded
    ensures Represents(wal, hands, ids, AfterWhole(s, fate, sorted))
    ensures DoWrite(s, fate).flusher.ok == (err == Objects.Nil)
    ensures err == Objects.Nil ==> IsSorting(RequestLeq, FlagFirst(s.flusher.batch, |b|), sorted)
    ensures Objects.AllEncode(encodes, b) ==>
      Written(wal.segment.Value(), err == Objects.Nil) ==
      Segments.Write(old(wal.segment.Value()), Objects.RecordsOf(b), wal.cfg.streamSize(Objects.RecordsOf(b)), env)
    ensures !Objects.AllEncode(encodes, b) ==> err == Objects.Failed && wal.segment.Value() == old(wal.segment.Value())
  {
    UnansweredObjects(ids, s.calls, b);
    ghost var inOrder;
    err, inOrder := wal.FlushBatch(b, encodes, env);
    fate := if Objects.AllEncode(encodes, b) then Encoded(env) else Unencoded;
    sorted := Abs(ids, inOrder);
    if err == Objects.Nil { AbsSorting(ids, b, inOrder); }
    assert Objects.RecordsOf(b) == Logs(Abs(ids, b)) && Objects.RecordsOf(inOrder) == Logs(sorted);
    ChannelsAfterFlush(ids, s.calls, b, err);
    RepresentsWhole(wal, hands, ids, s, fate, sorted);
  }

  lemma RepresentsWhole(wal: Objects.Wal, hands: seq<seq<Objects.WriteRequest>>, ids: Ids, s: State, fate: Fate, sorted: Batch)
    requires s.flusher.Writing? && (s.disk.hasFile ==> s.disk.files != [])
    requires s.cfg == wal.cfg && s.batch == Abs(ids, wal.batch) && s.volume == wal.activeBatchVolume
    requires s.queue == AbsAll(ids, wal.batches) && s.hands == AbsAll(ids, hands)
    requires Known(ids, wal.batch) && (forall k :: 0 <= k < |wal.batches| ==> Known(ids, wal.batches[k]))
    requires forall k :: 0 <= k < |hands| ==> Known(ids, hands[k])
    requires var b := s.flusher.batch; var w := Persist(s.disk, Logs(b), s.cfg.streamSize(Logs(b)), fate);
      && wal.segment.Value() == w.seg && wal.table.data == (if w.ok then ApplyAll(s.table, Logs(sorted)) else s.table)
      && ChannelsMatch(ids, Resolved(s.calls, b, |b|, w.ok))
    ensures Represents(wal, hands, ids, AfterWhole(s, fate, sorted))
    ensures var b := s.flusher.batch;
      DoWrite(s, fate).flusher.ok == Persist(s.disk, Logs(b), s.cfg.streamSize(Logs(b)), fate).ok
  {
    WholeFields(s, fate, sorted);
  }

  /**
   FlushBatch on a non-empty batch is the steps of a flush. What the flusher has in its hand
   is answerable in every reachable state (WritingIsAnswerable).
   */
  method Flush(wal: Objects.Wal, b: seq<Objects.WriteRequest>, encodes: Log -> bool, env: Env,
               ghost hands: seq<seq<Objects.WriteRequest>>, ghost ids: Ids, ghost s: State)
    returns (err: Objects.Error, ghost steps: seq<Step>, ghost fate: Fate, ghost sorted: Batch)
    requires Represents(wal, hands, ids, s) && (s.disk.hasFile ==> s.disk.files != [])
    requires b != [] && Known(ids, b) && s.flusher.Writing? && s.flusher.batch == Abs(ids, b)
    requires Answerable(s.calls, s.flusher.batch)
    modifies wal.segment, wal.table, Objects.Channels(b)
    ensures steps == FlushSteps(|b|, fate, err == Objects.Nil, sorted)
    ensures Legal(s, steps) && Represents(wal, hands, ids, Run(s, steps))
    ensures Run(s, steps).flusher == AfterFlush(s.flusher.mode)
    ensures (forall i :: 0 <= i < |b| ==> encodes(b[i].log)) ==>
      && fate == Encoded(env)
      && Written(wal.segment.Value(), err == Objects.Nil) ==
         Segments.Write(old(wal.segment.Value()), Objects.RecordsOf(b), wal.cfg.streamSize(Objects.RecordsOf(b)), env)
    ensures (exists i :: 0 <= i < |b| && !encodes(b[i].log)) ==>
      fate == Unencoded && err == Objects.Failed && wal.segment.Value() == old(wal.segment.Value())
  {
    err, fate, sorted := FlushObjects(wal, b, encodes, env, hands, ids, s);
    FlushRun(s, fate, sorted);
    steps := FlushSteps(|b|, fate, err == Objects.Nil, sorted);
    WholeFields(s, fate, sorted);
  }

  // ---------------------------------------------------------------- Push, Send and SealBatch

  lemma AbsMore(ids: Ids, b: seq<Objects.WriteRequest>, c: Objects.Channel, i: nat)
    requires Known(ids, b) && c !in ids
    ensures Known(ids[c := i], b) && Abs(ids[c := i], b) == Abs(ids, b)
  {
  }

  lemma AbsAllMore(ids: Ids, bs: seq<seq<Objects.WriteRequest>>, c: Objects.Channel, i: nat)
    requires c !in ids && forall k :: 0 <= k < |bs| ==> Known(ids, bs[k])
    ensures (forall k :: 0 <= k < |bs| ==> Known(ids[c := i], bs[k])) && AbsAll(ids[c := i], bs) == AbsAll(ids, bs)
  {
    forall k | 0 <= k < |bs| ensures Known(ids[c := i], bs[k]) && Abs(ids[c := i], bs[k]) == Abs(ids, bs[k]) {
      AbsMore(ids, bs[k], c, i);
    }
  }

  /** The locked section means the same on both sides. */
  lemma AcceptAbs(ids: Ids, cfg: Config, batch: seq<Objects.WriteRequest>, volume: int, r: Objects.WriteRequest)
    requires Known(ids, batch) && r.promise.result in ids
    ensures var size := cfg.recordSize(r.log);
      var a := Accept(cfg.batchCount, cfg.batchVolume, batch, volume, r, size);
      && Known(ids, a.batch) && Known(ids, a.sealed)
      && Accept(cfg.batchCount, cfg.batchVolume, Abs(ids, batch), volume, AbsRequest(ids, r), size) ==
         Accepted(Abs(ids, a.batch), a.volume, Abs(ids, a.sealed))
  {
    assert Abs(ids, batch + [r]) == Abs(ids, batch) + [AbsRequest(ids, r)];
  }

  lemma ChannelsAfterAppend(ids: Ids, calls: seq<Call>, c: Objects.Channel, i: nat, phase: Phase)
    requires ChannelsMatch(ids, calls) && c !in ids && c.Ready()
    requires i < |calls| && !IsPushed(calls[i]) && calls[i].cell == Unset && (phase == Handing || phase == Waiting)
    ensures ChannelsMatch(ids[c := i], calls[i := calls[i].(phase := phase)])
  {
  }

  /** Push is the step Append; a sealed batch is then in the producer's hand. */
  method Push(wal: Objects.Wal, op: Op, lsn: int, ghost i: nat,
              ghost hands: seq<seq<Objects.WriteRequest>>, ghost ids: Ids, ghost s: State)
    returns (sealed: seq<Objects.WriteRequest>, ghost hands': seq<seq<Objects.WriteRequest>>, ghost ids': Ids)
    requires Represents(wal, hands, ids, s) && FreshCells(s.calls)
    requires Enabled(s, Append(i)) && s.calls[i].op == op && s.calls[i].lsn == lsn
    modifies wal
    ensures hands' == if sealed == [] then hands else hands + [sealed]
    ensures sealed != [] <==>
      |old(wal.batch)| + 1 >= wal.cfg.batchCount ||
      old(wal.activeBatchVolume) + wal.cfg.recordSize(ToLog(op, lsn)) >= wal.cfg.batchVolume
    ensures Represents(wal, hands', ids', Do(s, Append(i)))
  {
    ghost var batch, volume := wal.batch, wal.activeBatchVolume;
    var r;
    r, sealed := wal.Push(lsn, op);
    ids', hands' := AppendRepresents(wal, batch, volume, r, sealed, hands, ids, s, i);
  }

  /** The state of everything but the active batch is as in s, the batch has just taken r as call i's request. */
  lemma AppendRepresents(wal: Objects.Wal, batch: seq<Objects.WriteRequest>, volume: int, r: Objects.WriteRequest,
                         sealed: seq<Objects.WriteRequest>, hands: seq<seq<Objects.WriteRequest>>, ids: Ids, s: State, i: nat)
    returns (ids': Ids, hands': seq<seq<Objects.WriteRequest>>)
    requires s.cfg == wal.cfg && s.table == wal.table.data && s.disk == wal.segment.Value()
    requires s.batch == Abs(ids, batch) && s.volume == volume && Known(ids, batch)
    requires s.queue == AbsAll(ids, wal.batches) && (forall k :: 0 <= k < |wal.batches| ==> Known(ids, wal.batches[k]))
    requires s.hands == AbsAll(ids, hands) && (forall k :: 0 <= k < |hands| ==> Known(ids, hands[k]))
    requires ChannelsMatch(ids, s.calls) && FreshCells(s.calls) && Enabled(s, Append(i))
    requires r.log == ToLog(s.calls[i].op, s.calls[i].lsn) && !r.promise.promised
    requires r.promise.result !in ids && r.promise.result.Ready()
    requires Accepted(wal.batch, wal.activeBatchVolume, sealed) ==
             Accept(wal.cfg.batchCount, wal.cfg.batchVolume, batch, volume, r, wal.cfg.recordSize(r.log))
    ensures hands' == if sealed == [] then hands else hands + [sealed]
    ensures ids' == ids[r.promise.result := i] && Represents(wal, hands', ids', Do(s, Append(i)))
  {
    var c := r.promise.result;
    ids' := ids[c := i];
    hands' := if sealed == [] then hands else hands + [sealed];
    AbsMore(ids, batch, c, i);
    AbsAllMore(ids, wal.batches, c, i);
    AbsAllMore(ids, hands, c, i);
    AcceptAbs(ids', wal.cfg, batch, volume, r);
    ChannelsAfterAppend(ids, s.calls, c, i, if sealed == [] then Waiting else Handing);
    assert AbsAll(ids', hands + [sealed]) == AbsAll(ids', hands) + [Abs(ids', sealed)];
    assert AbsRequest(ids', r) == Req(s.calls, i);
  }

  // ---------------------------------------------------------------- the engine

  /** The machine once a call has begun and drawn an LSN, whatever the other calls are at. */
  function WithDrawn(s: State, op: Op, lsn: int): State {
    s.(gen := Gens.Gen(lsn, s.gen.slots + [Gens.Got(lsn)]),
       calls := s.calls + [Call(op, lsn, if lsn == 0 then Rejected else Drawn, Unset)])
  }

  lemma BeginAndDraw(s: State, op: Op, lsn: int)
    requires |s.gen.slots| == |s.calls| && lsn == Gens.AddOne(Gens.Cas(s.gen.counter))
    ensures Legal(s, [Begin(op), Draw(|s.calls|)]) && Run(s, [Begin(op), Draw(|s.calls|)]) == WithDrawn(s, op, lsn)
  {
    var n := |s.calls|;
    var mid := Do(s, Begin(op));
    assert mid.gen.slots[n := Gens.Got(lsn)] == s.gen.slots + [Gens.Got(lsn)];
    assert mid.calls[n := WithDrawn(s, op, lsn).calls[n]] == WithDrawn(s, op, lsn).calls;
    assert Do(mid, Draw(n)) == WithDrawn(s, op, lsn);
    RunTwo(s, [], Begin(op), Draw(n), mid);
    assert [] + [Begin(op), Draw(n)] == [Begin(op), Draw(n)];
  }

  lemma RepresentsDrawn(wal: Objects.Wal, hands: seq<seq<Objects.WriteRequest>>, ids: Ids, s: State, op: Op, lsn: int)
    requires Represents(wal, hands, ids, s) && FreshCells(s.calls)
    ensures Represents(wal, hands, ids, WithDrawn(s, op, lsn)) && FreshCells(WithDrawn(s, op, lsn).calls)
  {
  }

  /** Set and Del of the engine are the steps Begin, Draw and Append of a new call, or end after Draw with LSN 0. */
  method Submit(engine: Objects.Engine, op: Op, ghost hands: seq<seq<Objects.WriteRequest>>, ghost ids: Ids, ghost s: State)
    returns (refused: bool, sealed: seq<Objects.WriteRequest>,
             ghost steps: seq<Step>, ghost hands': seq<seq<Objects.WriteRequest>>, ghost ids': Ids)
    requires Represents(engine.wal, hands, ids, s) && FreshCells(s.calls)
    requires |s.gen.slots| == |s.calls| && s.gen.counter == engine.currentLSN.counter
    modifies engine.wal, engine.currentLSN
    ensures steps == if refused then [Begin(op), Draw(|s.calls|)] else [Begin(op), Draw(|s.calls|)] + [Append(|s.calls|)]
    ensures Legal(s, steps) && Represents(engine.wal, hands', ids', Run(s, steps))
    ensures refused <==> engine.currentLSN.counter == 0
    ensures Run(s, steps).gen.counter == engine.currentLSN.counter
    ensures hands' == if sealed == [] then hands else hands + [sealed]
  {
    ghost var n, lsn := |s.calls|, Gens.AddOne(Gens.Cas(engine.currentLSN.counter));
    BeginAndDraw(s, op, lsn);
    RepresentsDrawn(engine.wal, hands, ids, s, op, lsn);
    refused, sealed, ids', hands' := SubmitDrawn(engine, op, hands, ids, WithDrawn(s, op, lsn), n, lsn);
    steps := [Begin(op), Draw(n)];
    if !refused {
      RunOne(s, [Begin(op), Draw(n)], Append(n));
      AppendKeepsGen(WithDrawn(s, op, lsn), n);
      steps := [Begin(op), Draw(n)] + [Append(n)];
    }
  }

  lemma AppendKeepsGen(s: State, i: nat)
    requires Enabled(s, Append(i))
    ensures Do(s, Append(i)).gen == s.gen
  {
  }

  /** The same from the state in which the call has its LSN. */
  method SubmitDrawn(engine: Objects.Engine, op: Op, ghost hands: seq<seq<Objects.WriteRequest>>, ghost ids: Ids,
                     ghost s: State, ghost i: nat, ghost lsn: int)
    returns (refused: bool, sealed: seq<Objects.WriteRequest>, ghost ids': Ids, ghost hands': seq<seq<Objects.WriteRequest>>)
    requires Represents(engine.wal, hands, ids, s) && FreshCells(s.calls)
    requires lsn == Gens.AddOne(Gens.Cas(engine.currentLSN.counter))
    requires i < |s.calls| && s.calls[i] == Call(op, lsn, if lsn == 0 then Rejected else Drawn, Unset)
    modifies engine.wal, engine.currentLSN
    ensures engine.currentLSN.counter == lsn && (refused <==> lsn == 0)
    ensures refused ==> sealed == [] && hands' == hands && ids' == ids && Represents(engine.wal, hands, ids, s)
    ensures !refused ==> Represents(engine.wal, hands', ids', Do(s, Append(i)))
    ensures hands' == if sealed == [] then hands else hands + [sealed]
  {
    ghost var batch, volume := engine.wal.batch, engine.wal.activeBatchVolume;
    var record;
    record, sealed := engine.Submit(op);
    refused, ids', hands' := record.None?, ids, hands;
    if record.Some? {
      ghost var size := engine.wal.cfg.recordSize(record.value.log);
      AcceptFields(engine.wal.cfg, batch, volume, record.value, size, engine.wal.batch, engine.wal.activeBatchVolume, sealed);
      ids', hands' := AppendRepresents(engine.wal, batch, volume, record.value, sealed, hands, ids, s, i);
    }
  }

  lemma AcceptFields<R>(cfg: Config, batch: seq<R>, volume: int, r: R, size: nat, now: seq<R>, nowVolume: int, sealed: seq<R>)
    requires var all, total := batch + [r], volume + size;
      if |all| >= cfg.batchCount || total >= cfg.batchVolume
      then sealed == all && now == [] && nowVolume == 0
      else sealed == [] && now == all && nowVolume == total
    ensures Accepted(now, nowVolume, sealed) == Accept(cfg.batchCount, cfg.batchVolume, batch, volume, r, size)
  {
  }

  // ---------------------------------------------------------------- the flusher's side

  /** Send is the step Send of the batch sealed last. */
  method SendSealed(wal: Objects.Wal, sealed: seq<Objects.WriteRequest>,
                    ghost hands: seq<seq<Objects.WriteRequest>>, ghost ids: Ids, ghost s: State)
    requires Represents(wal, hands + [sealed], ids, s) && Owned(s) && Answers(s)
    requires sealed != [] && |s.queue| < CHANNEL_CAPACITY
    modifies wal
    ensures Enabled(s, Send(|hands|)) && Represents(wal, hands, ids, Do(s, Send(|hands|)))
  {
    ghost var k := |hands|;
    LastHand(ids, hands, sealed);
    OwnerUnanswered(s, k);
    ChannelsAfterSend(ids, s.calls, Owner(s.hands[k]));
    assert AbsAll(ids, wal.batches + [sealed]) == AbsAll(ids, wal.batches) + [Abs(ids, sealed)];
    wal.Send(sealed);
  }

  lemma LastHand(ids: Ids, hands: seq<seq<Objects.WriteRequest>>, sealed: seq<Objects.WriteRequest>)
    ensures var all, k := AbsAll(ids, hands + [sealed]), |hands|;
      |all| == k + 1 && all[k] == Abs(ids, sealed) && all[..k] + all[k + 1..] == AbsAll(ids, hands)
    ensures (forall j :: 0 <= j < |hands| + 1 ==> Known(ids, (hands + [sealed])[j])) ==>
              Known(ids, sealed) && forall j :: 0 <= j < |hands| ==> Known(ids, hands[j])
  {
    assert (hands + [sealed])[|hands|] == sealed;
    assert forall j :: 0 <= j < |hands| ==> (hands + [sealed])[j] == hands[j];
  }

  lemma ChannelsAfterSend(ids: Ids, calls: seq<Call>, o: nat)
    requires ChannelsMatch(ids, calls) && o < |calls| && IsPushed(calls[o])
    ensures ChannelsMatch(ids, calls[o := calls[o].(phase := Waiting)])
  {
  }

  /** SealBatch is a tick, or the seal at the end: the flusher has the batch. */
  method Seal(wal: Objects.Wal, ghost step: Step,
              ghost hands: seq<seq<Objects.WriteRequest>>, ghost ids: Ids, ghost s: State)
    returns (sealed: seq<Objects.WriteRequest>)
    requires Represents(wal, hands, ids, s) && Enabled(s, step) && (step == Tick || step == FinalSeal)
    modifies wal
    ensures Represents(wal, hands, ids, Do(s, step)) && Known(ids, sealed)
    ensures Do(s, step).flusher == StartFlush(s.flusher.mode, Abs(ids, sealed))
  {
    sealed := wal.SealBatch();
    assert Abs(ids, []) == [];
  }

  // ---------------------------------------------------------------- Recovery

  /** Recover on a new WAL is a boot: it succeeds on what the machine's lives can boot from, and starts where they do. */
  method Start(wal: Objects.Wal, site: Site, lists: bool, readable: LogFile -> bool, env: Env, opens: bool, statOk: bool)
    returns (result: Objects.RecoveryResult, ghost life: Life)
    requires wal.batch == [] && wal.activeBatchVolume == 0 && wal.batches == [] && wal.table.data == map[]
    modifies wal.table, wal.segment
    ensures result.Recovered? ==>
      && life.cfg == wal.cfg && life.max == wal.segment.maxSegmentSize && life.steps == []
      && CanBoot(site, old(wal.segment.files), life)
      && Represents(wal, [], map[], Boot(site, old(wal.segment.files), life))
    ensures OwnFiles(old(wal.segment.files)) && lists && opens && env.creates && (forall f :: readable(f)) ==>
      (result.Recovered? <==> Decodes(old(wal.segment.files)))
  {
    ghost var found := wal.segment.files;
    ghost var orders;
    result, orders := wal.Recover(site, lists, readable, env, opens, statOk);
    life := Life(wal.cfg, wal.segment.maxSegmentSize, orders, env, statOk, []);
    ListingDecodes(site, found);
    assert AbsAll(map[], []) == [] && Abs(map[], []) == [];
  }
}

/**
 WAL records, the table they act on, and the meaning of a sequence of records: for each
 key only the last record that touches it matters.
 */
module Records {
  import opened Sorting

  const COMMAND_SET_ID := 1
  const COMMAND_DEL_ID := 2

  datatype Option<+T> = None | Some(value: T)

  datatype Log = Log(lsn: int, commandId: int, arguments: seq<string>)

  type Table = map<string, string>

  /** The operations that Wal.Set and Wal.Del log. */
  datatype Op = SetOp(key: string, value: string) | DelOp(key: string)

  function ToLog(op: Op, lsn: int): Log {
    match op
    case SetOp(key, value) => Log(lsn, COMMAND_SET_ID, [key, value])
    case DelOp(key) => Log(lsn, COMMAND_DEL_ID, [key])
  }

  /** Wal.apply: None is ErrApplyRecord, an unknown command id is ignored. */
  function Apply(t: Table, r: Log): Option<Table> {
    if r.commandId == COMMAND_SET_ID then
      if |r.arguments| < 2 then None else Some(t[r.arguments[0] := r.arguments[1]])
    else if r.commandId == COMMAND_DEL_ID then
      if |r.arguments| < 1 then None else Some(t - {r.arguments[0]})
    else
      Some(t)
  }

  /** The flusher logs an apply error and goes on with the next record. */
  function ApplyOrSkip(t: Table, r: Log): Table {
    match Apply(t, r)
    case Some(t') => t'
    case None => t
  }

  function ApplyAll(t: Table, rs: seq<Log>): Table {
    if rs == [] then t else ApplyOrSkip(ApplyAll(t, rs[..|rs| - 1]), rs[|rs| - 1])
  }

  datatype Replayed = Replayed(table: Table, ok: bool)

  /** Recovery stops at the first record that does not apply. */
  function Replay(t: Table, rs: seq<Log>): Replayed {
    if rs == [] then Replayed(t, true)
    else
      var before := Replay(t, rs[..|rs| - 1]);
      if !before.ok then before
      else match Apply(before.table, rs[|rs| - 1])
        case Some(t') => Replayed(t', true)
        case None => Replayed(before.table, false)
  }

  /** Records that Set and Del build. */
  ghost predicate FromOp(r: Log) {
    exists op: Op :: r == ToLog(op, r.lsn)
  }

  ghost predicate AllFromOps(rs: seq<Log>) {
    forall r :: r in rs ==> FromOp(r)
  }

  predicate LsnLeq(a: Log, b: Log) { a.lsn <= b.lsn }

  ghost predicate DistinctLsns(rs: seq<Log>) {
    forall i, j :: 0 <= i < j < |rs| ==> rs[i].lsn != rs[j].lsn
  }

  lemma LsnOrder(rs: seq<Log>)
    ensures IsOrder(LsnLeq, rs)
    ensures DistinctLsns(rs) ==> NoTies(LsnLeq, rs)
  {
  }

  // ---------------------------------------------------------------- meaning

  predicate Touches(r: Log, k: string) {
    || (r.commandId == COMMAND_SET_ID && |r.arguments| >= 2 && r.arguments[0] == k)
    || (r.commandId == COMMAND_DEL_ID && |r.arguments| >= 1 && r.arguments[0] == k)
  }

  /** The last record of rs that touches k. */
  function Last(rs: seq<Log>, k: string): (r: Option<Log>)
    ensures r.Some? ==> r.value in rs && Touches(r.value, k)
    ensures r.None? ==> forall x :: x in rs ==> !Touches(x, k)
  {
    if rs == [] then None
    else if Touches(rs[|rs| - 1], k) then Some(rs[|rs| - 1])
    else Last(rs[..|rs| - 1], k)
  }

  function Lookup(t: Table, k: string): Option<string> {
    if k in t then Some(t[k]) else None
  }

  /** What a record that touches a key leaves under it. */
  function Leaves(r: Log): Option<string> {
    if r.commandId == COMMAND_SET_ID && |r.arguments| >= 2 then Some(r.arguments[1]) else None
  }

  /** A key holds what the last record touching it left, or what it held before. */
  lemma {:induction false} LastWriterWins(t: Table, rs: seq<Log>, k: string)
    ensures Lookup(ApplyAll(t, rs), k)
         == match Last(rs, k) case Some(r) => Leaves(r) case None => Lookup(t, k)
  {
    if rs != [] {
      LastWriterWins(t, rs[..|rs| - 1], k);
    }
  }

  lemma TablesEqual(a: Table, b: Table)
    requires forall k :: Lookup(a, k) == Lookup(b, k)
    ensures a == b
  {
    forall k ensures k in a <==> k in b { assert Lookup(a, k) == Lookup(b, k); }
    forall k | k in a ensures a[k] == b[k] { assert Lookup(a, k) == Lookup(b, k); }
  }

  /** Sequences whose last record per key agree have the same effect on every table. */
  lemma SameLastsSameMeaning(t: Table, a: seq<Log>, b: seq<Log>)
    requires forall k :: Last(a, k) == Last(b, k)
    ensures ApplyAll(t, a) == ApplyAll(t, b)
  {
    forall k ensures Lookup(ApplyAll(t, a), k) == Lookup(ApplyAll(t, b), k) {
      LastWriterWins(t, a, k);
      LastWriterWins(t, b, k);
    }
    TablesEqual(ApplyAll(t, a), ApplyAll(t, b));
  }

  /** Replaying a log on top of its own result changes nothing. */
  lemma ReplayIdempotent(t: Table, rs: seq<Log>)
    ensures ApplyAll(ApplyAll(t, rs), rs) == ApplyAll(t, rs)
  {
    var once := ApplyAll(t, rs);
    forall k ensures Lookup(ApplyAll(once, rs), k) == Lookup(once, k) {
      LastWriterWins(t, rs, k);
      LastWriterWins(once, rs, k);
    }
    TablesEqual(ApplyAll(once, rs), once);
  }

  lemma {:induction false} ApplyAllConcat(t: Table, a: seq<Log>, b: seq<Log>)
    ensures ApplyAll(t, a + b) == ApplyAll(ApplyAll(t, a), b)
  {
    if b == [] {
      assert a + b == a;
    } else {
      var n := |b| - 1;
      assert (a + b)[..|a + b| - 1] == a + b[..n];
      ApplyAllConcat(t, a, b[..n]);
    }
  }

  /** What Set and Del log stores the value and removes the key, and nothing else. */
  lemma OpEffect(t: Table, k: string, v: string, lsn: int)
    ensures Apply(t, ToLog(SetOp(k, v), lsn)) == Some(t[k := v])
    ensures Apply(t, ToLog(DelOp(k), lsn)) == Some(t - {k})
    ensures ToLog(SetOp(k, v), lsn).lsn == lsn == ToLog(DelOp(k), lsn).lsn
  {
  }

  /** Records built by Set and Del never make apply fail. */
  lemma OwnRecordsApply(t: Table, r: Log)
    requires FromOp(r)
    ensures Apply(t, r).Some?
  {
    var op: Op :| r == ToLog(op, r.lsn);
    match op
    case SetOp(k, v) => OpEffect(t, k, v, r.lsn);
    case DelOp(k) => OpEffect(t, k, "", r.lsn);
  }

  /** Which records fail, and what the others do: by command id and number of arguments. */
  lemma ApplyCases(t: Table, r: Log)
    ensures Apply(t, r) == None <==> (r.commandId == 1 && |r.arguments| < 2) || (r.commandId == 2 && |r.arguments| < 1)
    ensures r.commandId == 1 && |r.arguments| >= 2 ==> Apply(t, r) == Some(t[r.arguments[0] := r.arguments[1]])
    ensures r.commandId == 2 && |r.arguments| >= 1 ==> Apply(t, r) == Some(t - {r.arguments[0]})
    ensures r.commandId != 1 && r.commandId != 2 ==> Apply(t, r) == Some(t)
  {
  }

  /** rs are the records of the operations ops. */
  ghost predicate Logged(ops: seq<Op>, rs: seq<Log>) {
    |rs| == |ops| && forall i :: 0 <= i < |ops| ==> rs[i] == ToLog(ops[i], rs[i].lsn)
  }

  /** After any operations a key that none of them names holds what it held before. */
  lemma {:induction false} UntouchedKey(t: Table, ops: seq<Op>, rs: seq<Log>, k: string)
    requires Logged(ops, rs) && forall j :: 0 <= j < |ops| ==> ops[j].key != k
    ensures Lookup(ApplyAll(t, rs), k) == Lookup(t, k)
  {
    if ops != [] {
      var n := |ops| - 1;
      UntouchedKey(t, ops[..n], rs[..n], k);
      OneOp(ApplyAll(t, rs[..n]), ops[n], rs[n].lsn, k);
    }
  }

  lemma OneOp(t: Table, op: Op, lsn: int, k: string)
    ensures Lookup(ApplyOrSkip(t, ToLog(op, lsn)), k) ==
            if op.key != k then Lookup(t, k) else if op.SetOp? then Some(op.value) else None
  {
    OpEffect(t, op.key, if op.SetOp? then op.value else "", lsn);
  }

  /** After any operations a key holds the value of the last Set or Del of it. */
  lemma {:induction false} LastOpWins(t: Table, ops: seq<Op>, rs: seq<Log>, k: string, i: nat)
    requires Logged(ops, rs) && i < |ops| && ops[i].key == k && forall j :: i < j < |ops| ==> ops[j].key != k
    ensures Lookup(ApplyAll(t, rs), k) == if ops[i].SetOp? then Some(ops[i].value) else None
  {
    var n := |ops| - 1;
    OneOp(ApplyAll(t, rs[..n]), ops[n], rs[n].lsn, k);
    if i < n { LastOpWins(t, ops[..n], rs[..n], k, i); }
  }

  /** after is the value of the last of ops that names k, and before when none does. */
  ghost predicate LastDecides(ops: seq<Op>, k: string, before: Option<string>, after: Option<string>) {
    && (forall i :: 0 <= i < |ops| && ops[i].key == k && (forall j :: i < j < |ops| ==> ops[j].key != k) ==>
          after == if ops[i].SetOp? then Some(ops[i].value) else None)
    && ((forall j :: 0 <= j < |ops| ==> ops[j].key != k) ==> after == before)
  }

  /** What any operations leave under a key. */
  lemma KeyAfterOps(t: Table, ops: seq<Op>, rs: seq<Log>, k: string)
    requires Logged(ops, rs)
    ensures LastDecides(ops, k, Lookup(t, k), Lookup(ApplyAll(t, rs), k))
  {
    var after := Lookup(ApplyAll(t, rs), k);
    forall i | 0 <= i < |ops| && ops[i].key == k && (forall j :: i < j < |ops| ==> ops[j].key != k)
      ensures after == if ops[i].SetOp? then Some(ops[i].value) else None
    {
      LastOpWins(t, ops, rs, k, i);
    }
    if forall j :: 0 <= j < |ops| ==> ops[j].key != k { UntouchedKey(t, ops, rs, k); }
  }

  /** The i-th record applies to what the ones before it leave. */
  predicate AppliesAt(t: Table, rs: seq<Log>, i: nat)
    requires i < |rs|
  {
    Apply(ApplyAll(t, rs[..i]), rs[i]).Some?
  }

  lemma AppliesAtFront(t: Table, rs: seq<Log>, m: nat, i: nat)
    requires i < m <= |rs|
    ensures AppliesAt(t, rs[..m], i) == AppliesAt(t, rs, i)
  {
    assert rs[..m][..i] == rs[..i];
  }

  /** Replay applies records up to the first that fails, and tells whether there was one. */
  lemma {:induction false} ReplayStopsAtFirstFailure(t: Table, rs: seq<Log>) returns (n: nat)
    ensures n <= |rs| && Replay(t, rs) == Replayed(ApplyAll(t, rs[..n]), n == |rs|)
    ensures forall i :: 0 <= i < n ==> AppliesAt(t, rs, i)
    ensures n < |rs| ==> !AppliesAt(t, rs, n)
  {
    if rs == [] {
      n := 0;
    } else {
      var m := |rs| - 1;
      var front := rs[..m];
      n := ReplayStopsAtFirstFailure(t, front);
      forall i | 0 <= i < m ensures AppliesAt(t, rs, i) == AppliesAt(t, front, i) { AppliesAtFront(t, rs, m, i); }
      assert front[..n] == rs[..n];
      if n == m {
        assert rs[..m] == front;
        if AppliesAt(t, rs, m) {
          n := |rs|;
          assert rs[..|rs|] == rs;
        }
      }
    }
  }

  /** On such records recovery and the live flusher compute the same table. */
  lemma {:induction false} OwnRecordsReplay(t: Table, rs: seq<Log>)
    requires AllFromOps(rs)
    ensures Replay(t, rs) == Replayed(ApplyAll(t, rs), true)
  {
    if rs != [] {
      OwnRecordsReplay(t, rs[..|rs| - 1]);
      OwnRecordsApply(ApplyAll(t, rs[..|rs| - 1]), rs[|rs| - 1]);
    }
  }

  // ------------------------------------------------- one global order or flush by flush

  function Concat<T>(ss: seq<seq<T>>): seq<T> {
    if ss == [] then [] else Concat(ss[..|ss| - 1]) + ss[|ss| - 1]
  }

  lemma ConcatAppend<T>(ss: seq<seq<T>>, s: seq<T>)
    ensures Concat(ss + [s]) == Concat(ss) + s
  {
    assert (ss + [s])[..|ss|] == ss;
  }

  lemma {:induction false} ConcatConcat<T>(a: seq<seq<T>>, b: seq<seq<T>>)
    ensures Concat(a + b) == Concat(a) + Concat(b)
  {
    if b == [] {
      assert a + b == a;
    } else {
      var front, x := b[..|b| - 1], b[|b| - 1];
      ConcatConcat(a, front);
      assert a + b == (a + front) + [x];
      ConcatAppend(a + front, x);
      Regroup(Concat(a), Concat(front), x);
    }
  }

  lemma Regroup<T>(a: seq<T>, b: seq<T>, c: seq<T>)
    ensures (a + b) + c == a + (b + c)
  {
  }

  /** In a list sorted by distinct LSNs the last record touching k has the largest LSN. */
  lemma {:induction false} LastOfSorted(rs: seq<Log>, k: string, r: Log)
    requires Sorted(LsnLeq, rs) && DistinctLsns(rs)
    requires r in rs && Touches(r, k)
    requires forall x :: x in rs && Touches(x, k) ==> x.lsn <= r.lsn
    ensures Last(rs, k) == Some(r)
  {
    var l := Last(rs, k).value;
    var i :| 0 <= i < |rs| && rs[i] == r;
    assert l.lsn <= r.lsn;
    if i < |rs| - 1 && !Touches(rs[|rs| - 1], k) {
      assert r in rs[..|rs| - 1];
      LastOfSorted(rs[..|rs| - 1], k, r);
    }
  }

  /**
   Replaying all records in one LSN order has the same effect as replaying them in the
   order inOrder, whenever for every key the last record of inOrder touching it has the
   largest LSN among the records touching it.
   */
  lemma GlobalOrderSameMeaning(t: Table, inOrder: seq<Log>, global: seq<Log>)
    requires IsSorting(LsnLeq, inOrder, global) && DistinctLsns(global)
    requires forall k, x :: Last(inOrder, k).Some? && x in inOrder && Touches(x, k) ==> x.lsn <= Last(inOrder, k).value.lsn
    ensures ApplyAll(t, global) == ApplyAll(t, inOrder)
  {
    MultisetIn(global, multiset(inOrder));
    forall k ensures Last(global, k) == Last(inOrder, k) {
      if Last(inOrder, k).Some? {
        var r := Last(inOrder, k).value;
        assert r in multiset(inOrder);
        forall x | x in global && Touches(x, k) ensures x.lsn <= r.lsn {
          assert x in multiset(inOrder);
        }
        LastOfSorted(global, k, r);
      }
    }
    SameLastsSameMeaning(t, global, inOrder);
  }

  /** sorted is the list of flushes, each in LSN order. */
  ghost predicate EachSorted(flushes: seq<seq<Log>>, sorted: seq<seq<Log>>) {
    |sorted| == |flushes| && forall i :: 0 <= i < |flushes| ==> IsSorting(LsnLeq, flushes[i], sorted[i])
  }

  lemma {:induction false} ConcatSamePermutation(flushes: seq<seq<Log>>, sorted: seq<seq<Log>>)
    requires EachSorted(flushes, sorted)
    ensures multiset(Concat(sorted)) == multiset(Concat(flushes))
  {
    if flushes != [] {
      var n := |flushes| - 1;
      ConcatSamePermutation(flushes[..n], sorted[..n]);
    }
  }

  /**
   For any list of flushes with distinct LSNs, applying all their records in one global
   LSN order gives the same table as applying the flushes one after another, each in LSN
   order, whenever for every key the last record in flush order has the largest LSN.
   */
  lemma SortingPreservesMeaning(t: Table, flushes: seq<seq<Log>>, sorted: seq<seq<Log>>, global: seq<Log>)
    requires EachSorted(flushes, sorted)
    requires IsSorting(LsnLeq, Concat(flushes), global) && DistinctLsns(global)
    requires forall k, x :: Last(Concat(sorted), k).Some? && x in Concat(flushes) && Touches(x, k) ==>
                            x.lsn <= Last(Concat(sorted), k).value.lsn
    ensures ApplyAll(t, global) == ApplyAll(t, Concat(sorted))
  {
    ConcatSamePermutation(flushes, sorted);
    forall k, x | Last(Concat(sorted), k).Some? && x in Concat(sorted) && Touches(x, k)
      ensures x.lsn <= Last(Concat(sorted), k).value.lsn
    {
      assert x in multiset(Concat(flushes));
    }
    GlobalOrderSameMeaning(t, Concat(sorted), global);
  }
}

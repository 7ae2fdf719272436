/**
 The LSN generator. Generate is two atomic operations, a compare-and-swap that resets the
 counter at the largest int64 and an add, and other callers may run between them.
 */
module IdGenerator {

  const MAX_INT64 := 0x7FFF_FFFF_FFFF_FFFF
  const MIN_INT64 := -0x8000_0000_0000_0000

  function Cas(counter: int): int { if counter == MAX_INT64 then 0 else counter }

  /** Add(1) on an int64. */
  function AddOne(counter: int): int { if counter == MAX_INT64 then MIN_INT64 else counter + 1 }

  // ---------------------------------------------------------------- one caller at a time

  class IDGenerator {
    var counter: int

    constructor (previousId: int)
      ensures counter == previousId
    {
      counter := previousId;
    }

    method Generate() returns (id: int)
      modifies this
      ensures counter == id == if old(counter) == 9223372036854775807 then 1 else old(counter) + 1
      ensures id == AddOne(Cas(old(counter)))
    {
      if counter == MAX_INT64 { counter := 0; }
      counter := AddOne(counter);
      id := counter;
    }
  }

  /** The n-th id of callers that do not overlap. */
  function Nth(previousId: int, n: nat): int {
    if n == 0 then previousId else AddOne(Cas(Nth(previousId, n - 1)))
  }

  /** Callers that do not overlap cycle through 1..MaxInt64, wrapping after the last. */
  lemma {:induction false} SequentialIdsCycle(previousId: int, n: nat)
    requires 0 <= previousId <= MAX_INT64 && n > 0
    ensures Nth(previousId, n) == (previousId + n - 1) % MAX_INT64 + 1
  {
    if n == 1 {
      assert Nth(previousId, 0) == previousId;
    } else {
      SequentialIdsCycle(previousId, n - 1);
      var before := (previousId + n - 2) % MAX_INT64;
      assert (previousId + n - 1) % MAX_INT64 == if before == MAX_INT64 - 1 then 0 else before + 1;
    }
  }

  // ---------------------------------------------------------------- overlapping callers

  /** A call between its compare-and-swap and its add is Open. */
  datatype Slot = Open | Got(id: int)

  datatype Gen = Gen(counter: int, slots: seq<Slot>)

  datatype Step = StartCall | DrawId(call: nat)

  function NewGen(previousId: int): Gen { Gen(previousId, []) }

  predicate Enabled(g: Gen, step: Step) {
    step.DrawId? ==> step.call < |g.slots| && g.slots[step.call].Open?
  }

  function Do(g: Gen, step: Step): Gen
    requires Enabled(g, step)
  {
    match step
    case StartCall => Gen(Cas(g.counter), g.slots + [Open])
    case DrawId(i) => Gen(AddOne(g.counter), g.slots[i := Got(AddOne(g.counter))])
  }

  predicate Legal(g: Gen, steps: seq<Step>)
    decreases |steps|, 0
  {
    steps == [] || (Legal(g, steps[..|steps| - 1]) && Enabled(Run(g, steps[..|steps| - 1]), steps[|steps| - 1]))
  }

  function Run(g: Gen, steps: seq<Step>): Gen
    requires Legal(g, steps)
    decreases |steps|, 1
  {
    if steps == [] then g else Do(Run(g, steps[..|steps| - 1]), steps[|steps| - 1])
  }

  /** The calls that have their id. */
  function Finished(slots: seq<Slot>): set<nat> {
    set i: nat | i < |slots| && slots[i].Got?
  }

  function Below(n: nat): (s: set<nat>)
    ensures |s| == n && forall i: nat :: i in s <==> i < n
  {
    if n == 0 then {} else Below(n - 1) + {n - 1}
  }

  lemma SubsetSize(a: set<nat>, b: set<nat>)
    requires a <= b
    ensures |a| <= |b|
  {
    assert b == a + (b - a);
  }

  lemma FinishedBound(slots: seq<Slot>)
    ensures |Finished(slots)| <= |slots|
    ensures (exists i :: 0 <= i < |slots| && slots[i].Open?) ==> |Finished(slots)| < |slots|
  {
    var all := Below(|slots|);
    SubsetSize(Finished(slots), all);
    if i: nat :| i < |slots| && slots[i].Open? {
      SubsetSize(Finished(slots), all - {i});
    }
  }

  /** No call can see the counter at the largest int64. */
  ghost predicate WithinRange(previousId: int, g: Gen) {
    0 <= previousId && previousId + |g.slots| <= MAX_INT64
  }

  ghost predicate Unique(previousId: int, g: Gen) {
    && g.counter == previousId + |Finished(g.slots)|
    && (forall i :: 0 <= i < |g.slots| && g.slots[i].Got? ==> previousId < g.slots[i].id <= g.counter)
    && (forall i, j :: 0 <= i < j < |g.slots| && g.slots[i].Got? && g.slots[j].Got? ==> g.slots[i].id != g.slots[j].id)
  }

  lemma StartKeepsUnique(previousId: int, g: Gen)
    requires WithinRange(previousId, Do(g, StartCall)) && Unique(previousId, g)
    ensures Unique(previousId, Do(g, StartCall))
  {
    FinishedBound(g.slots);
    assert Finished(g.slots + [Open]) == Finished(g.slots);
  }

  lemma DrawKeepsUnique(previousId: int, g: Gen, i: nat)
    requires Enabled(g, DrawId(i)) && WithinRange(previousId, g) && Unique(previousId, g)
    ensures Unique(previousId, Do(g, DrawId(i)))
  {
    FinishedBound(g.slots);
    assert Finished(Do(g, DrawId(i)).slots) == Finished(g.slots) + {i};
  }

  lemma StepKeepsUnique(previousId: int, g: Gen, step: Step)
    requires Enabled(g, step) && WithinRange(previousId, Do(g, step)) && Unique(previousId, g)
    ensures Unique(previousId, Do(g, step))
  {
    if step.StartCall? { StartKeepsUnique(previousId, g); } else { DrawKeepsUnique(previousId, g, step.call); }
  }

  /**
   In every interleaving of any number of callers, as long as the previous id plus the
   calls started stay within int64, the ids drawn are distinct and positive.
   */
  lemma {:induction false} IdsUnique(previousId: int, steps: seq<Step>)
    requires Legal(NewGen(previousId), steps) && WithinRange(previousId, Run(NewGen(previousId), steps))
    ensures Unique(previousId, Run(NewGen(previousId), steps))
  {
    var g0 := NewGen(previousId);
    if steps == [] {
      assert Finished(g0.slots) == {};
    } else {
      IdsUnique(previousId, steps[..|steps| - 1]);
      StepKeepsUnique(previousId, Run(g0, steps[..|steps| - 1]), steps[|steps| - 1]);
    }
  }

  /** Ids once drawn stay, and ids drawn after g exceed everything drawn up to g. */
  ghost predicate Later(g: Gen, g': Gen) {
    && g.counter <= g'.counter && |g.slots| <= |g'.slots|
    && (forall i :: 0 <= i < |g.slots| && g.slots[i].Got? ==> g'.slots[i] == g.slots[i])
    && (forall i :: 0 <= i < |g'.slots| && g'.slots[i].Got? && (i < |g.slots| ==> g.slots[i].Open?) ==>
          g'.slots[i].id > g.counter)
  }

  lemma StepIsLater(previousId: int, g: Gen, step: Step)
    requires Enabled(g, step) && WithinRange(previousId, Do(g, step)) && Unique(previousId, g)
    ensures Later(g, Do(g, step))
  {
    FinishedBound(g.slots);
  }

  lemma LaterTransitive(a: Gen, b: Gen, c: Gen)
    requires Later(a, b) && Later(b, c)
    ensures Later(a, c)
  {
  }

  lemma {:induction false} RunIsLater(previousId: int, steps: seq<Step>, m: nat)
    requires Legal(NewGen(previousId), steps) && WithinRange(previousId, Run(NewGen(previousId), steps))
    requires m <= |steps|
    ensures Legal(NewGen(previousId), steps[..m])
    ensures Later(Run(NewGen(previousId), steps[..m]), Run(NewGen(previousId), steps))
  {
    var g0, n := NewGen(previousId), |steps| - 1;
    if m == |steps| {
      assert steps[..m] == steps;
    } else {
      RunIsLater(previousId, steps[..n], m);
      assert steps[..n][..m] == steps[..m];
      IdsUnique(previousId, steps[..n]);
      StepIsLater(previousId, Run(g0, steps[..n]), steps[n]);
      LaterTransitive(Run(g0, steps[..m]), Run(g0, steps[..n]), Run(g0, steps));
    }
  }

  /** A call that had its id after m steps precedes every call that starts later. */
  lemma NonOverlappingIncrease(previousId: int, steps: seq<Step>, m: nat, a: nat, b: nat)
    requires Legal(NewGen(previousId), steps) && m <= |steps| && Legal(NewGen(previousId), steps[..m])
    requires WithinRange(previousId, Run(NewGen(previousId), steps))
    requires var mid := Run(NewGen(previousId), steps[..m]); a < |mid.slots| && mid.slots[a].Got? && b >= |mid.slots|
    requires var end := Run(NewGen(previousId), steps); b < |end.slots| && end.slots[b].Got?
    ensures var end := Run(NewGen(previousId), steps);
      a < |end.slots| && end.slots[a].Got? && end.slots[a].id < end.slots[b].id
  {
    RunIsLater(previousId, steps, m);
    IdsUnique(previousId, steps[..m]);
  }

  // ---------------------------------------------------------------- the race at the end of the range

  function Starts(n: nat): seq<Step> { seq(n, _ => StartCall) }

  function Draws(n: nat): seq<Step> { seq(n, (i: nat) => DrawId(i)) }

  lemma {:induction false} AllStart(previousId: int, n: nat)
    requires 0 <= previousId < MAX_INT64
    ensures Legal(NewGen(previousId), Starts(n))
    ensures Run(NewGen(previousId), Starts(n)) == Gen(previousId, seq(n, _ => Open))
  {
    if n > 0 {
      AllStart(previousId, n - 1);
      assert Starts(n)[..n - 1] == Starts(n - 1);
    }
  }

  lemma {:induction false} AllDraw(previousId: int, n: nat, k: nat)
    requires 0 <= previousId < MAX_INT64 && k <= n && previousId + k <= MAX_INT64
    ensures Legal(NewGen(previousId), Starts(n) + Draws(k))
    ensures var g := Run(NewGen(previousId), Starts(n) + Draws(k));
      g.counter == previousId + k && |g.slots| == n && forall i :: k <= i < n ==> g.slots[i].Open?
  {
    AllStart(previousId, n);
    var steps := Starts(n) + Draws(k);
    if k == 0 {
      assert steps == Starts(n);
    } else {
      AllDraw(previousId, n, k - 1);
      assert steps[..|steps| - 1] == Starts(n) + Draws(k - 1);
    }
  }

  /**
   The range condition is exact: when the previous id plus the calls exceeds int64, the
   interleaving in which all of them swap before any adds hands out a negative id.
   */
  lemma WrapRace(previousId: int, n: nat)
    requires 0 <= previousId < MAX_INT64 && previousId + n > MAX_INT64
    ensures var steps := Starts(n) + Draws(MAX_INT64 - previousId + 1);
      && Legal(NewGen(previousId), steps)
      && var g := Run(NewGen(previousId), steps);
      && |g.slots| == n && g.slots[MAX_INT64 - previousId] == Got(-9223372036854775808)
  {
    var k := MAX_INT64 - previousId;
    AllDraw(previousId, n, k);
    var steps := Starts(n) + Draws(k + 1);
    assert steps[..|steps| - 1] == Starts(n) + Draws(k);
    assert steps[|steps| - 1] == DrawId(k);
  }

  ghost predicate AllPositive(g: Gen) {
    forall i :: 0 <= i < |g.slots| && g.slots[i].Got? ==> g.slots[i].id > 0
  }

  /** Every interleaving of at most n calls hands out positive ids. */
  ghost predicate AlwaysPositive(previousId: int, n: nat) {
    forall steps :: Legal(NewGen(previousId), steps) && |Run(NewGen(previousId), steps).slots| <= n ==>
      AllPositive(Run(NewGen(previousId), steps))
  }

  /** From a previous id below the largest int64, that is so exactly while the calls fit into the range. */
  lemma PositiveIff(previousId: int, n: nat)
    requires 0 <= previousId < MAX_INT64
    ensures AlwaysPositive(previousId, n) <==> previousId + n <= MAX_INT64
  {
    if previousId + n <= MAX_INT64 {
      forall steps | Legal(NewGen(previousId), steps) && |Run(NewGen(previousId), steps).slots| <= n
        ensures AllPositive(Run(NewGen(previousId), steps))
      {
        IdsUnique(previousId, steps);
      }
    } else {
      WrapRace(previousId, n);
      var steps := Starts(n) + Draws(MAX_INT64 - previousId + 1);
      assert Legal(NewGen(previousId), steps);
      var g := Run(NewGen(previousId), steps);
      assert g.slots[MAX_INT64 - previousId].id < 0;
    }
  }
}

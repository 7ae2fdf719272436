/**
 The counting semaphore over a condition variable. Each locked section is one step:
 entering (first try, or the re-check after a wake-up) and releasing with one Signal.
 Callers pair every Acquire with one Release.
 */
module Semaphore {

  /** Woken threads were signalled and have not run again yet. */
  datatype Thread = Outside | Sleeping | Woken | Holding

  datatype State = State(count: int, max: int, threads: seq<Thread>)

  /** Release names the sleeper that Signal wakes, when there is one. */
  datatype Step = Enter(thread: nat) | Release(thread: nat, wakes: nat)

  ghost predicate Asleep(threads: seq<Thread>) {
    exists t :: 0 <= t < |threads| && threads[t] == Sleeping
  }

  ghost predicate Enabled(s: State, step: Step) {
    match step
    case Enter(t) => t < |s.threads| && (s.threads[t] == Outside || s.threads[t] == Woken)
    case Release(t, w) =>
      && t < |s.threads| && s.threads[t] == Holding
      && (Asleep(s.threads) ==> w < |s.threads| && s.threads[w] == Sleeping)
  }

  ghost function Do(s: State, step: Step): State
    requires Enabled(s, step)
  {
    match step
    case Enter(t) =>
      if s.count >= s.max then s.(threads := s.threads[t := Sleeping])
      else s.(count := s.count + 1, threads := s.threads[t := Holding])
    case Release(t, w) =>
      var left := s.threads[t := Outside];
      s.(count := s.count - 1, threads := if Asleep(s.threads) then left[w := Woken] else left)
  }

  /** The semaphore with its condition variable; the threads are those that use it. */
  class SemaphoreObject {
    var count: int
    const max: int
    var threads: seq<Thread>

    constructor (limit: int, users: nat)
      ensures Initial(Value()) && max == limit && |threads| == users
    {
      count, max, threads := 0, limit, seq(users, i => Outside);
    }

    function Value(): State
      reads this
    {
      State(count, max, threads)
    }

    /**
     One pass of Acquire's loop, on the first try and after every wake-up: take a slot, or
     sleep until signalled and try again.
     */
    method TryAcquire(t: nat) returns (admitted: bool)
      requires t < |threads| && (threads[t] == Outside || threads[t] == Woken)
      modifies this
      ensures admitted <==> old(count) < max
      ensures count == old(count) + (if admitted then 1 else 0)
      ensures threads == old(threads)[t := if admitted then Holding else Sleeping]
      ensures Value() == Do(old(Value()), Enter(t))
    {
      if count >= max {
        Wait(t);
        return false;
      }
      count := count + 1;
      threads := threads[t := Holding];
      return true;
    }

    method Wait(t: nat)
      requires t < |threads|
      modifies this`threads
      ensures threads == old(threads)[t := Sleeping]
    {
      threads := threads[t := Sleeping];
    }

    /** Release; w is the sleeper that Signal wakes, when there is one. */
    method ReleaseSlot(t: nat, w: nat)
      requires t < |threads| && threads[t] == Holding
      requires (exists i :: 0 <= i < |threads| && threads[i] == Sleeping) ==> w < |threads| && threads[w] == Sleeping
      modifies this
      ensures count == old(count) - 1 && |threads| == |old(threads)| && threads[t] == Outside
      ensures forall i :: 0 <= i < |threads| && i != t ==>
                threads[i] == if i == w && old(threads)[i] == Sleeping then Woken else old(threads)[i]
      ensures Value() == Do(old(Value()), Release(t, w))
    {
      count := count - 1;
      threads := threads[t := Outside];
      assert Asleep(threads) <==> Asleep(old(threads)) by {
        if i :| 0 <= i < |threads| && old(threads)[i] == Sleeping { assert threads[i] == Sleeping; }
        if i :| 0 <= i < |threads| && threads[i] == Sleeping { assert old(threads)[i] == Sleeping; }
      }
      Signal(w);
    }

    /** Wakes the sleeper w, when anybody sleeps at all. */
    method Signal(w: nat)
      requires Asleep(threads) ==> w < |threads| && threads[w] == Sleeping
      modifies this`threads
      ensures threads == if Asleep(old(threads)) then old(threads)[w := Woken] else old(threads)
    {
      if w < |threads| && threads[w] == Sleeping { threads := threads[w := Woken]; }
    }
  }

  function Count(threads: seq<Thread>, x: Thread): nat {
    if threads == [] then 0
    else Count(threads[..|threads| - 1], x) + (if threads[|threads| - 1] == x then 1 else 0)
  }

  lemma {:induction false} CountUpdate(threads: seq<Thread>, i: nat, y: Thread, x: Thread)
    requires i < |threads|
    ensures Count(threads[i := y], x) ==
            Count(threads, x) - (if threads[i] == x then 1 else 0) + (if y == x then 1 else 0)
  {
    var n := |threads| - 1;
    var u := threads[i := y];
    if i < n {
      assert u[..n] == threads[..n][i := y];
      CountUpdate(threads[..n], i, y, x);
    } else {
      assert u[..n] == threads[..n];
    }
  }

  lemma {:induction false} CountPositive(threads: seq<Thread>, x: Thread)
    ensures Count(threads, x) > 0 <==> exists t :: 0 <= t < |threads| && threads[t] == x
  {
    if threads != [] {
      var n := |threads| - 1;
      CountPositive(threads[..n], x);
      if t :| 0 <= t < |threads| && threads[t] == x { assert t < n ==> threads[..n][t] == x; }
      if t :| 0 <= t < n && threads[..n][t] == x { assert threads[t] == x; }
    }
  }

  predicate Initial(s: State) {
    s.count == 0 && forall t :: 0 <= t < |s.threads| ==> s.threads[t] == Outside
  }

  ghost predicate Inv(s: State) {
    && s.count == Count(s.threads, Holding)
    && (s.count <= s.max || s.count == 0)
    && (Asleep(s.threads) ==> s.count + Count(s.threads, Woken) >= s.max)
  }

  lemma InitialInv(s: State)
    requires Initial(s)
    ensures Inv(s)
  {
    CountPositive(s.threads, Holding);
  }

  lemma AsleepIff(threads: seq<Thread>)
    ensures Asleep(threads) <==> Count(threads, Sleeping) > 0
  {
    CountPositive(threads, Sleeping);
  }

  lemma StepKeepsInv(s: State, step: Step)
    requires Inv(s) && Enabled(s, step)
    ensures Inv(Do(s, step))
  {
    AsleepIff(s.threads);
    AsleepIff(Do(s, step).threads);
    match step {
      case Enter(t) =>
        var y := if s.count >= s.max then Sleeping else Holding;
        CountUpdate(s.threads, t, y, Holding);
        CountUpdate(s.threads, t, y, Woken);
        CountUpdate(s.threads, t, y, Sleeping);
      case Release(t, w) =>
        var left := s.threads[t := Outside];
        CountPositive(s.threads, Holding);
        CountUpdate(s.threads, t, Outside, Holding);
        CountUpdate(s.threads, t, Outside, Woken);
        CountUpdate(s.threads, t, Outside, Sleeping);
        if Asleep(s.threads) {
          CountUpdate(left, w, Woken, Holding);
          CountUpdate(left, w, Woken, Woken);
          CountUpdate(left, w, Woken, Sleeping);
        }
    }
  }

  ghost predicate Legal(s: State, steps: seq<Step>)
    decreases |steps|, 0
  {
    steps == [] || (Legal(s, steps[..|steps| - 1]) && Enabled(Run(s, steps[..|steps| - 1]), steps[|steps| - 1]))
  }

  ghost function Run(s: State, steps: seq<Step>): State
    requires Legal(s, steps)
    decreases |steps|, 1
  {
    if steps == [] then s else Do(Run(s, steps[..|steps| - 1]), steps[|steps| - 1])
  }

  /**
   In every interleaving of any number of threads the count is the number of holders and
   within the limit, and a sleeper beside a free slot always comes with a woken thread
   that will take it: no wake-up is lost.
   */
  lemma {:induction false} NoLostWakeups(s: State, steps: seq<Step>)
    requires Initial(s) && Legal(s, steps)
    ensures var now := Run(s, steps);
      && Inv(now)
      && (Asleep(now.threads) && now.count < now.max ==>
            exists t: nat :: t < |now.threads| && now.threads[t] == Woken && Enabled(now, Enter(t)) &&
                             Do(now, Enter(t)).threads[t] == Holding)
  {
    if steps == [] {
      InitialInv(s);
    } else {
      NoLostWakeups(s, steps[..|steps| - 1]);
      StepKeepsInv(Run(s, steps[..|steps| - 1]), steps[|steps| - 1]);
    }
    CountPositive(Run(s, steps).threads, Woken);
    if Asleep(Run(s, steps).threads) && Run(s, steps).count < Run(s, steps).max {
      var t: nat :| t < |Run(s, steps).threads| && Run(s, steps).threads[t] == Woken;
      WhoCanStep(Run(s, steps), t);
    }
  }

  /** Whoever is outside or woken can try; whoever holds a slot can release it, waking any sleeper; a sleeper waits. */
  lemma WhoCanStep(s: State, t: nat)
    requires t < |s.threads|
    ensures Enabled(s, Enter(t)) <==> s.threads[t] == Outside || s.threads[t] == Woken
    ensures forall w: nat :: Enabled(s, Release(t, w)) <==>
              && s.threads[t] == Holding
              && ((exists i :: 0 <= i < |s.threads| && s.threads[i] == Sleeping) ==> w < |s.threads| && s.threads[w] == Sleeping)
  {
  }

  /** With a positive limit nobody sleeps once every holder has left and every woken thread has run. */
  lemma QuietMeansNobodyAsleep(s: State, steps: seq<Step>)
    requires Initial(s) && Legal(s, steps) && s.max > 0
    requires var now := Run(s, steps).threads; forall t :: 0 <= t < |now| ==> now[t] == Outside || now[t] == Sleeping
    ensures !Asleep(Run(s, steps).threads)
  {
    NoLostWakeups(s, steps);
    var now := Run(s, steps);
    MaxConstant(s, steps);
    CountPositive(now.threads, Holding);
    CountPositive(now.threads, Woken);
  }

  lemma {:induction false} MaxConstant(s: State, steps: seq<Step>)
    requires Legal(s, steps)
    ensures Run(s, steps).max == s.max
  {
    if steps != [] { MaxConstant(s, steps[..|steps| - 1]); }
  }
}

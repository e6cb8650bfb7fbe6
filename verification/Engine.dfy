/**
 The single-flight, coalescing reconcile engine (packages/orchestrator/src/reconciler/engine.ts).

 `trigger` starts a loop whose first run executes synchronously up to its first `await`; only then is `runningPromise`
 assigned. Between two `await`s nothing else runs, so the engine is a state machine over these pieces.
 */
module Engine {

  /** `starting` loops are in their synchronous first part, `loops` are suspended with a run in flight. */
  datatype State = State(running: bool, pending: bool, runCount: nat, starting: nat, loops: nat)
  {
    function InFlight(): nat { starting + loops }
  }

  datatype Event =
    | Trigger
    | Yield    // the first run of a loop reaches its first await: trigger returns and assigns runningPromise
    | Settle   // a run is over and its loop looks at pendingRerun
    | Throw    // a run ends with an exception out of onOutcome: its loop dies

  const IDLE := State(false, false, 0, 0, 0)

  function Next(s: State, e: Event): State {
    match e
    case Trigger =>
      if s.running then s.(pending := true)
      else s.(pending := false, runCount := s.runCount + 1, starting := s.starting + 1)
    case Yield =>
      if s.starting > 0 then s.(running := true, starting := s.starting - 1, loops := s.loops + 1) else s
    case Settle =>
      if s.starting > 0 || s.loops == 0 then s
      else if s.pending then s.(pending := false, runCount := s.runCount + 1)
      else s.(running := false, loops := s.loops - 1)
    case Throw =>
      if s.starting > 0 || s.loops == 0 then s else s.(loops := s.loops - 1)
  }

  /** `runningPromise` non-null is `running`; the suspended coroutines are ghost. */
  class ReconcileEngine {
    var running: bool
    var pendingRerun: bool
    var runCount: nat
    ghost var starting: nat
    ghost var loops: nat

    ghost function Now(): State
      reads this
    {
      State(running, pendingRerun, runCount, starting, loops)
    }

    constructor ()
      ensures Now() == IDLE
    {
      running, pendingRerun, runCount, starting, loops := false, false, 0, 0, 0;
    }

    /** trigger(), up to the point where the loop it may have started suspends. */
    method TriggerRun()
      modifies this
      ensures Now() == Next(old(Now()), Trigger)
    {
      if running {
        pendingRerun := true;
      } else {
        starting := starting + 1;
        pendingRerun := false;
        runCount := runCount + 1;
      }
    }

    /** The assignment of runningPromise when the asynchronous function first returns. */
    method AssignRunningPromise()
      requires starting > 0
      modifies this
      ensures Now() == Next(old(Now()), Yield)
    {
      running := true;
      starting, loops := starting - 1, loops + 1;
    }

    /** The loop condition after a run: go round again, or stop. */
    method AfterRun()
      requires starting == 0 && loops > 0
      modifies this
      ensures Now() == Next(old(Now()), Settle)
    {
      if pendingRerun {
        pendingRerun := false;
        runCount := runCount + 1;
      } else {
        running := false;
        loops := loops - 1;
      }
    }
  }

  // ---------- runs ----------

  function After(events: seq<Event>): State {
    if events == [] then IDLE else Next(After(events[..|events| - 1]), events[|events| - 1])
  }

  /** The i-th event starts a run. */
  predicate StartsRun(events: seq<Event>, i: nat)
    requires i < |events|
  {
    After(events[..i + 1]).runCount == After(events[..i]).runCount + 1
  }

  /** A trigger from the synchronous first part of a run, before `runningPromise` is assigned. */
  predicate Reentrant(events: seq<Event>, i: nat)
    requires i < |events|
  {
    events[i] == Trigger && After(events[..i]).starting > 0
  }

  ghost predicate NoReentry(events: seq<Event>) { forall i :: 0 <= i < |events| ==> !Reentrant(events, i) }

  lemma AfterStep(events: seq<Event>, i: nat)
    requires i < |events|
    ensures After(events[..i + 1]) == Next(After(events[..i]), events[i])
  {
    assert events[..i + 1][..i] == events[..i];
  }

  lemma ReentrantPrefix(events: seq<Event>, i: nat, k: nat)
    requires i < k <= |events|
    ensures Reentrant(events[..k], i) == Reentrant(events, i)
  {
    assert events[..k][..i] == events[..i];
  }

  /** At most one run in flight; while it is suspended the promise is set. */
  predicate Sane(s: State) {
    && s.InFlight() <= 1
    && (s.starting == 1 ==> !s.running) && (s.loops == 1 ==> s.running)
    && (s.pending ==> s.running)
  }

  lemma {:induction false} SaneWithoutReentry(events: seq<Event>)
    requires NoReentry(events)
    ensures Sane(After(events))
  {
    if events != [] {
      var n := |events| - 1;
      forall i | 0 <= i < n
        ensures !Reentrant(events[..n], i)
      {
        ReentrantPrefix(events, i, n);
      }
      SaneWithoutReentry(events[..n]);
      assert !Reentrant(events, n);
    }
  }

  /** Single flight holds throughout exactly when nothing triggers from inside the first synchronous part of a run. */
  lemma SingleFlight(events: seq<Event>)
    ensures (forall k :: 0 <= k <= |events| ==> After(events[..k]).InFlight() <= 1) <==> NoReentry(events)
  {
    if NoReentry(events) {
      forall k | 0 <= k <= |events|
        ensures After(events[..k]).InFlight() <= 1
      {
        forall i | 0 <= i < k
          ensures !Reentrant(events[..k], i)
        {
          ReentrantPrefix(events, i, k);
        }
        SaneWithoutReentry(events[..k]);
      }
    } else {
      var i := FirstReentry(events);
      AfterStep(events, i);
    }
  }

  /** The first re-entrant trigger finds no promise and starts a second run beside the first. */
  lemma FirstReentry(events: seq<Event>) returns (i: nat)
    requires !NoReentry(events)
    ensures i < |events| && Reentrant(events, i) && !After(events[..i]).running && After(events[..i]).starting == 1
  {
    i := 0;
    while !Reentrant(events, i)
      invariant i < |events| && forall k :: 0 <= k < i ==> !Reentrant(events, k)
      decreases |events| - i
    {
      i := i + 1;
      if i == |events| {
        assert NoReentry(events);
      }
    }
    forall k | 0 <= k < i
      ensures !Reentrant(events[..i], k)
    {
      ReentrantPrefix(events, k, i);
    }
    SaneWithoutReentry(events[..i]);
  }

  ghost predicate NoThrow(events: seq<Event>) { forall i :: 0 <= i < |events| ==> events[i] != Throw }

  /** Some run starts at or after event `t`, before event `u`. */
  ghost predicate ServedBy(events: seq<Event>, t: nat, u: nat)
    requires u <= |events|
  {
    exists r :: t <= r < u && StartsRun(events, r)
  }

  lemma SanePrefix(events: seq<Event>, k: nat)
    requires NoReentry(events) && k <= |events|
    ensures Sane(After(events[..k]))
  {
    forall i | 0 <= i < k
      ensures !Reentrant(events[..k], i)
    {
      ReentrantPrefix(events, i, k);
    }
    SaneWithoutReentry(events[..k]);
  }

  /** Without an exception the promise is set only while a loop is alive. */
  lemma {:induction false} LoopsWhileRunning(events: seq<Event>, k: nat)
    requires NoReentry(events) && NoThrow(events) && k <= |events|
    ensures After(events[..k]).running <==> After(events[..k]).loops == 1
  {
    SanePrefix(events, k);
    if k > 0 {
      SanePrefix(events, k - 1);
      LoopsWhileRunning(events, k - 1);
      AfterStep(events, k - 1);
    }
  }

  /** An exception ends the last live run while the promise is set. */
  predicate Fatal(events: seq<Event>, x: nat)
    requires x < |events|
  {
    && events[x] == Throw && After(events[..x]).loops == 1 && After(events[..x]).starting == 0 && After(events[..x]).running
  }

  ghost predicate FatalBefore(events: seq<Event>, u: nat)
    requires u <= |events|
  {
    exists x :: 0 <= x < u && Fatal(events, x)
  }

  /** In every interleaving: a pending request has its promise set, and a set promise has a live loop unless an exception was fatal. */
  lemma {:induction false} PromiseBacked(events: seq<Event>, u: nat)
    requires u <= |events|
    ensures After(events[..u]).pending ==> After(events[..u]).running
    ensures After(events[..u]).running ==> After(events[..u]).loops >= 1 || FatalBefore(events, u)
  {
    if u > 0 {
      PromiseBacked(events, u - 1);
      AfterStep(events, u - 1);
      hide After;
      if FatalBefore(events, u - 1) {
        var x :| 0 <= x < u - 1 && Fatal(events, x);
        assert FatalBefore(events, u);
      } else if Fatal(events, u - 1) {
        assert FatalBefore(events, u);
      }
    }
  }

  /** In every interleaving a request that no run has served yet is still pending. */
  lemma {:induction false} UnservedPends(events: seq<Event>, t: nat, u: nat)
    requires t < u <= |events| && events[t] == Trigger && !ServedBy(events, t, u)
    ensures After(events[..u]).pending
    decreases u
  {
    AfterStep(events, u - 1);
    assert !StartsRun(events, u - 1);
    if u > t + 1 {
      assert forall r :: t <= r < u - 1 ==> !StartsRun(events, r);
      UnservedPends(events, t, u - 1);
    }
    hide After;
  }

  /** After a fatal exception the promise stays set with nothing in flight, and no event ever starts a run again. */
  lemma {:induction false} FatalForGood(events: seq<Event>, x: nat, u: nat)
    requires x < u <= |events| && Fatal(events, x)
    ensures After(events[..u]).running && After(events[..u]).InFlight() == 0
    ensures forall r :: x <= r < u ==> !StartsRun(events, r)
    decreases u
  {
    AfterStep(events, u - 1);
    if u > x + 1 {
      FatalForGood(events, x, u - 1);
    }
    hide After;
  }

  /**
   Lost triggers, exactly, in every interleaving: at a moment with nothing in flight a trigger is unserved if and only if
   some exception was fatal before any run had started for it.
   */
  lemma LostExactly(events: seq<Event>, t: nat, u: nat)
    requires t < u <= |events| && events[t] == Trigger && After(events[..u]).InFlight() == 0
    ensures !ServedBy(events, t, u) <==> exists x :: 0 <= x < u && Fatal(events, x) && !ServedBy(events, t, x)
  {
    hide After, Fatal, StartsRun;
    if !ServedBy(events, t, u) {
      UnservedPends(events, t, u);
      PromiseBacked(events, u);
      var x :| 0 <= x < u && Fatal(events, x);
      assert !ServedBy(events, t, x);
    }
    if x :| 0 <= x < u && Fatal(events, x) && !ServedBy(events, t, x) {
      FatalForGood(events, x, u);
      forall r | t <= r < u
        ensures !StartsRun(events, r)
      {
      }
    }
  }

  /** No lost wakeup: without exceptions, before the engine goes idle every trigger is followed by a run that starts at or after it. */
  lemma NoLostTrigger(events: seq<Event>, t: nat, u: nat)
    requires NoThrow(events) && t < u <= |events| && events[t] == Trigger
    requires After(events[..u]).InFlight() == 0
    ensures ServedBy(events, t, u)
  {
    hide After, StartsRun;
    LostExactly(events, t, u);
  }

  /** Without re-entrant triggers every exception that ends a run is fatal. */
  lemma ThrowIsFatal(events: seq<Event>, x: nat)
    requires NoReentry(events) && x < |events| && events[x] == Throw && After(events[..x]).InFlight() > 0
    ensures Fatal(events, x) <==> After(events[..x]).starting == 0
  {
    hide After;
    SanePrefix(events, x);
  }

  ghost predicate TriggeredBetween(events: seq<Event>, a: nat, b: nat)
    requires b <= |events|
  {
    exists i :: a < i < b && events[i] == Trigger
  }

  /** While one run is in flight, `pendingRerun` says exactly whether a trigger has arrived since it started. */
  lemma {:induction false} PendingMeansTriggered(events: seq<Event>, r: nat, f: nat)
    requires NoReentry(events) && NoThrow(events) && r < f <= |events| && StartsRun(events, r)
    requires forall i :: r < i < f ==> events[i] != Settle
    ensures After(events[..f]).pending <==> TriggeredBetween(events, r, f)
    ensures After(events[..f]).InFlight() == 1
    decreases f
  {
    hide After;
    SanePrefix(events, f - 1);
    AfterStep(events, f - 1);
    assert !Reentrant(events, f - 1) && events[f - 1] != Throw;
    if f > r + 1 {
      PendingMeansTriggered(events, r, f - 1);
      LoopsWhileRunning(events, f - 1);
      assert !Reentrant(events, f - 1) && events[f - 1] != Throw;
      assert TriggeredBetween(events, r, f) <==> TriggeredBetween(events, r, f - 1) || events[f - 1] == Trigger by {
        MoreTriggers(events, r, f);
      }
    }
  }

  lemma MoreTriggers(events: seq<Event>, r: nat, f: nat)
    requires r + 1 < f <= |events|
    ensures TriggeredBetween(events, r, f) <==> TriggeredBetween(events, r, f - 1) || events[f - 1] == Trigger
  {
  }

  /** Coalescing: the triggers that arrive during one run cause exactly one further run, started when it ends; none cause none. */
  lemma TriggersCoalesce(events: seq<Event>, r: nat, f: nat)
    requires NoReentry(events) && NoThrow(events) && r < f < |events| && StartsRun(events, r)
    requires forall i :: r < i < f ==> events[i] != Settle
    requires events[f] == Settle && After(events[..f]).starting == 0
    ensures After(events[..f]).runCount == After(events[..r + 1]).runCount
    ensures StartsRun(events, f) <==> TriggeredBetween(events, r, f)
    ensures !TriggeredBetween(events, r, f) ==> After(events[..f + 1]).InFlight() == 0
  {
    PendingMeansTriggered(events, r, f);
    AfterStep(events, f);
    CountSteady(events, r, f);
  }

  lemma {:induction false} CountSteady(events: seq<Event>, r: nat, f: nat)
    requires NoReentry(events) && NoThrow(events) && r < f <= |events| && StartsRun(events, r)
    requires forall i :: r < i < f ==> events[i] != Settle
    ensures After(events[..f]).runCount == After(events[..r + 1]).runCount
    decreases f
  {
    if f > r + 1 {
      CountSteady(events, r, f - 1);
      PendingMeansTriggered(events, r, f - 1);
      LoopsWhileRunning(events, f - 1);
      SanePrefix(events, f - 1);
      AfterStep(events, f - 1);
      assert !Reentrant(events, f - 1);
    }
  }

  function Triggers(events: seq<Event>): nat {
    if events == [] then 0 else Triggers(events[..|events| - 1]) + if events[|events| - 1] == Trigger then 1 else 0
  }

  /** Runs never outnumber triggers, whatever happens. */
  lemma {:induction false} RunsBoundedByTriggers(events: seq<Event>)
    ensures After(events).runCount + (if After(events).pending then 1 else 0) <= Triggers(events)
  {
    if events != [] {
      RunsBoundedByTriggers(events[..|events| - 1]);
    }
  }

  /** An exception out of onOutcome wedges the engine: no later event starts a run, whatever triggers arrive. */
  lemma {:induction false} ThrowWedges(events: seq<Event>, x: nat, u: nat)
    requires x < u <= |events| && Fatal(events, x)
    ensures After(events[..u]).runCount == After(events[..x]).runCount
    ensures After(events[..u]).running && After(events[..u]).InFlight() == 0
    decreases u
  {
    AfterStep(events, u - 1);
    FatalForGood(events, x, u);
    if u > x + 1 {
      ThrowWedges(events, x, u - 1);
      FatalForGood(events, x, u - 1);
    }
    hide After;
  }
}

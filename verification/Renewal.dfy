/**
 The renewal scheduler (packages/orchestrator/src/renewal/scheduler.ts) and the stage that consults it on every reconcile
 (packages/orchestrator/src/reconciler/renewal-stage.ts). Instants are milliseconds.
 */
module Renewal {
  import opened Options
  import opened Words
  import opened Strings
  import opened Sorting
  import Engine

  const HOUR: int := 3600_000
  const DAY: int := 86_400_000
  const SPREAD: nat := 4 * 3600_000

  // ---------- jitter ----------

  /** The polynomial hash of a name, before any truncation. */
  function Polynomial(name: string): nat {
    if name == "" then 0 else Polynomial(name[..|name| - 1]) * 31 + name[|name| - 1] as nat
  }

  function Jitter(name: string): (j: nat)
    ensures j < SPREAD
  {
    Polynomial(name) % TWO32 % SPREAD
  }

  /** Base-31 positional notation: a longer name shifts the shorter one's value. */
  lemma {:induction false} PolynomialConcat(a: string, b: string)
    ensures Polynomial(a + b) == Polynomial(a) * Power31(|b|) + Polynomial(b)
  {
    if b == "" {
      assert a + b == a;
    } else {
      var n := |b| - 1;
      PolynomialConcat(a, b[..n]);
      assert (a + b)[..|a + b| - 1] == a + b[..n];
      assert Polynomial(a) * (Power31(n) * 31) == Polynomial(a) * Power31(n) * 31;
    }
  }

  function Power31(n: nat): nat { if n == 0 then 1 else Power31(n - 1) * 31 }

  lemma HashStep(h: nat, c: nat)
    ensures (h % TWO32 * 31 + c) % TWO32 == (h * 31 + c) % TWO32
  {
  }

  /** Truncating at every step gives the same jitter as truncating once. */
  method JitterMs(name: string) returns (j: nat)
    ensures j == Jitter(name)
  {
    var hash: nat := 0;
    for i := 0 to |name|
      invariant hash == Polynomial(name[..i]) % TWO32
    {
      assert name[..i + 1][..i] == name[..i];
      HashStep(Polynomial(name[..i]), name[i] as nat);
      hash := (hash * 31 + name[i] as nat) % TWO32;
    }
    assert name[..|name|] == name;
    j := hash % SPREAD;
  }

  // ---------- decisions ----------

  datatype RenewalState = RenewalState(
    lastAttemptAt: Option<int>,
    lastSuccessAt: Option<int>,
    consecutiveFailures: nat,
    lastError: Option<string>)

  const INITIAL := RenewalState(None, None, 0, None)

  /** The wait after the given number of consecutive failures. */
  function Backoff(failures: nat): int
    requires failures > 0
  {
    [1, 4, 12, 24][if failures - 1 < 3 then failures - 1 else 3] * HOUR
  }

  predicate DueByBackoffOrPace(now: int, state: RenewalState, pace: int) {
    state.lastAttemptAt.Some? ==>
      var elapsed := now - state.lastAttemptAt.value;
      if state.consecutiveFailures > 0 then elapsed >= Backoff(state.consecutiveFailures) else elapsed >= pace
  }

  function RemainingDays(now: int, storedAt: int): real { 90.0 - (now - storedAt) as real / 86_400_000.0 }

  datatype Reason = Uncovered | SanMismatch | RenewalWindow | NotYetDue | BackingOff

  datatype Decision = Decision(due: bool, reason: Reason)

  function ComputeDecision(now: int, name: string, storedAt: Option<int>, namesMatch: bool, state: RenewalState): Decision {
    if storedAt.None? || !namesMatch then
      if !DueByBackoffOrPace(now, state, 0) then Decision(false, BackingOff)
      else Decision(true, if storedAt.Some? then SanMismatch else Uncovered)
    else if RemainingDays(now, storedAt.value) > 30.0 then Decision(false, NotYetDue)
    else if !DueByBackoffOrPace(now, state, 24 * HOUR + Jitter(name)) then Decision(false, BackingOff)
    else Decision(true, RenewalWindow)
  }

  predicate IsEscalated(now: int, storedAt: Option<int>, namesRequired: bool) {
    namesRequired && (storedAt.None? || RemainingDays(now, storedAt.value) < 7.0)
  }

  lemma InDays(now: int, storedAt: int, days: int)
    ensures RemainingDays(now, storedAt) > days as real <==> now - storedAt < (90 - days) * DAY
    ensures RemainingDays(now, storedAt) < days as real <==> now - storedAt > (90 - days) * DAY
  {
    var age := (now - storedAt) as real;
    assert age == age / 86_400_000.0 * 86_400_000.0;
  }

  // ---------- names ----------

  function JoinSorted(names: seq<string>): string { Join(Sort(names, StringLe), ',') }

  predicate NamesMatch(stored: seq<string>, required: seq<string>) { JoinSorted(stored) == JoinSorted(required) }

  predicate NoCommas(names: seq<string>) { forall i :: 0 <= i < |names| ==> ',' !in names[i] }

  lemma SortedNoCommas(names: seq<string>)
    requires NoCommas(names)
    ensures NoCommas(Sort(names, StringLe)) && |Sort(names, StringLe)| == |names|
  {
    var s := Sort(names, StringLe);
    assert multiset(s) == multiset(names);
    assert |multiset(names)| == |names| && |multiset(s)| == |s|;
    forall i | 0 <= i < |s|
      ensures ',' !in s[i]
    {
      assert s[i] in multiset(names);
    }
  }

  lemma JoinSortedApart(stored: seq<string>, required: seq<string>)
    requires NoCommas(stored) && NoCommas(required) && stored != [] && required != []
    ensures NamesMatch(stored, required) <==> multiset(stored) == multiset(required)
  {
    var a, b := Sort(stored, StringLe), Sort(required, StringLe);
    SortedNoCommas(stored);
    SortedNoCommas(required);
    SplitJoin(a, ',');
    SplitJoin(b, ',');
    StringOrder();
    SortIdentifiesPermutations(stored, required, StringLe);
  }

  /** No names at all read like one empty name. */
  lemma JoinSortedEmpty(names: seq<string>)
    requires NoCommas(names)
    ensures JoinSorted(names) == "" <==> names == [] || names == [""]
  {
    assert Sort([], StringLe) == [] && Join([], ',') == "";
    if names != [] {
      SortedNoCommas([""]);
      JoinSortedApart(names, [""]);
      assert JoinSorted([""]) == "" by {
        assert Sort([""], StringLe) == [""];
      }
      OnlyOne(names, [""]);
    }
  }

  lemma OnlyOne(a: seq<string>, b: seq<string>)
    ensures multiset(a) == multiset(b) && |b| == 1 ==> a == b
  {
    if multiset(a) == multiset(b) && |b| == 1 {
      Sorting.SameSize(a, b);
      assert b[0] in multiset(a);
    }
  }

  /** For host names, which hold no comma, the comparison ignores order and nothing else, except that no names match one empty name. */
  lemma NamesMatchExactly(stored: seq<string>, required: seq<string>)
    requires NoCommas(stored) && NoCommas(required)
    ensures NamesMatch(stored, required) <==>
            multiset(stored) == multiset(required) || (stored == [] && required == [""]) || (stored == [""] && required == [])
  {
    hide JoinSorted;
    if stored != [] && required != [] {
      JoinSortedApart(stored, required);
    } else {
      JoinSortedEmpty(stored);
      JoinSortedEmpty(required);
      assert |multiset(stored)| == |stored| && |multiset(required)| == |required|;
    }
  }

  // ---------- the stage ----------

  datatype Meta = Meta(storedAt: int, names: seq<string>)

  /**
   What one run of the stage meets: the names the plan requires, whether an issuer is bound, the certificate found, its three
   clock readings, and what an invocation of the issuer would return and leave in the store.
   */
  datatype Tick = Tick(
    required: seq<string>,
    issuer: bool,
    found: Option<Meta>,
    escalationAt: int,
    decidedAt: int,
    attemptedAt: int,
    failure: Option<string>,
    stored: Option<Meta>)
  {
    predicate Ok() { failure.None? }
  }

  function StoredAt(m: Option<Meta>): Option<int> { if m.Some? then Some(m.value.storedAt) else None }

  predicate Matches(m: Option<Meta>, required: seq<string>) { m.Some? && NamesMatch(m.value.names, required) }

  predicate Attempts(state: RenewalState, t: Tick, name: string) {
    t.required != [] && t.issuer && ComputeDecision(t.decidedAt, name, StoredAt(t.found), Matches(t.found, t.required), state).due
  }

  predicate Degraded(t: Tick) { t.required != [] && IsEscalated(t.escalationAt, StoredAt(t.found), true) }

  function StateAfter(state: RenewalState, t: Tick, name: string): RenewalState {
    if !Attempts(state, t, name) then state
    else if t.Ok() then RenewalState(Some(t.attemptedAt), Some(t.attemptedAt), 0, None)
    else state.(lastAttemptAt := Some(t.attemptedAt), consecutiveFailures := state.consecutiveFailures + 1, lastError := t.failure)
  }

  /** Less than seven of ninety days left, in milliseconds of age. */
  lemma DegradedExactly(t: Tick)
    ensures Degraded(t) <==> t.required != [] && (t.found.None? || t.escalationAt - t.found.value.storedAt > 83 * DAY)
  {
    if t.found.Some? {
      InDays(t.escalationAt, t.found.value.storedAt, 7);
    }
    hide RemainingDays;
  }

  /** The wait a failure count stands for. */
  predicate Waited(elapsed: int, failures: nat) {
    if failures == 1 then elapsed >= 1 * HOUR
    else if failures == 2 then elapsed >= 4 * HOUR
    else if failures == 3 then elapsed >= 12 * HOUR
    else elapsed >= 24 * HOUR
  }

  /** When the stage invokes the issuer, in full: the certificate does not cover the names or is sixty days old, and the pause is over. */
  lemma AttemptsExactly(state: RenewalState, t: Tick, name: string)
    ensures Attempts(state, t, name) <==>
            var covered := t.found.Some? && NamesMatch(t.found.value.names, t.required);
            && t.required != [] && t.issuer
            && (!covered || t.decidedAt - t.found.value.storedAt >= 60 * DAY)
            && (state.lastAttemptAt.Some? ==>
                  var elapsed := t.decidedAt - state.lastAttemptAt.value;
                  if state.consecutiveFailures > 0 then Waited(elapsed, state.consecutiveFailures)
                  else if covered then elapsed >= DAY + Jitter(name) else elapsed >= 0)
  {
    if t.found.Some? {
      InDays(t.decidedAt, t.found.value.storedAt, 30);
    }
    hide NamesMatch, RemainingDays, Jitter;
  }

  class RenewalStage {
    const name: string
    var state: RenewalState
    var degraded: bool       // ctx.degraded of the run
    var invocations: nat
    var certChanges: nat     // calls of onCertChange

    constructor (name: string)
      ensures this.name == name && state == INITIAL && !degraded && invocations == 0 && certChanges == 0
    {
      this.name := name;
      state, degraded, invocations, certChanges := INITIAL, false, 0, 0;
    }

    method Run(t: Tick)
      modifies this
      ensures state == StateAfter(old(state), t, name)
      ensures degraded <==> t.required != [] && (t.found.None? || t.escalationAt - t.found.value.storedAt > 83 * DAY)
      ensures invocations == old(invocations) + if Attempts(old(state), t, name) then 1 else 0
      ensures certChanges == old(certChanges) + if Attempts(old(state), t, name) && t.Ok() then 1 else 0
    {
      hide ComputeDecision, NamesMatch, RemainingDays;
      DegradedExactly(t);
      degraded := false;
      if |t.required| == 0 {
        return;
      }
      var namesMatch := t.found.Some? && NamesMatch(t.found.value.names, t.required);
      if IsEscalated(t.escalationAt, StoredAt(t.found), true) {
        degraded := true;
      }
      if !t.issuer {
        return;
      }
      var decision := ComputeDecision(t.decidedAt, name, StoredAt(t.found), namesMatch, state);
      if !decision.due {
        return;
      }
      invocations := invocations + 1;
      if t.Ok() {
        state := RenewalState(Some(t.attemptedAt), Some(t.attemptedAt), 0, None);
        certChanges := certChanges + 1;
      } else {
        state := state.(lastAttemptAt := Some(t.attemptedAt), consecutiveFailures := state.consecutiveFailures + 1, lastError := t.failure);
      }
    }
  }

  // ---------- whole runs ----------

  /** An invocation of the issuer and the failure count it leaves. */
  datatype Attempt = Attempt(tick: Tick, failures: nat)

  function Trace(state: RenewalState, ticks: seq<Tick>, name: string): seq<Attempt>
    decreases ticks
  {
    if ticks == [] then [] else
      var next := StateAfter(state, ticks[0], name);
      (if Attempts(state, ticks[0], name) then [Attempt(ticks[0], next.consecutiveFailures)] else []) + Trace(next, ticks[1..], name)
  }

  lemma {:induction false} FirstAttempt(state: RenewalState, ticks: seq<Tick>, name: string)
    requires Trace(state, ticks, name) != []
    ensures var a := Trace(state, ticks, name)[0];
            && (!a.tick.Ok() ==> a.failures == state.consecutiveFailures + 1)
            && (state.lastAttemptAt.Some? && state.consecutiveFailures > 0 ==>
                  a.tick.decidedAt - state.lastAttemptAt.value >= Backoff(state.consecutiveFailures))
    decreases ticks
  {
    hide RemainingDays, Matches, Backoff;
    if !Attempts(state, ticks[0], name) {
      FirstAttempt(state, ticks[1..], name);
    }
  }

  lemma {:induction false} NextAttempt(state: RenewalState, ticks: seq<Tick>, name: string, k: nat)
    requires k + 1 < |Trace(state, ticks, name)|
    ensures var a, b := Trace(state, ticks, name)[k], Trace(state, ticks, name)[k + 1];
            && (!b.tick.Ok() ==> b.failures == a.failures + 1)
            && (a.failures > 0 ==> b.tick.decidedAt - a.tick.attemptedAt >= Backoff(a.failures))
    decreases ticks
  {
    hide Backoff, Matches, ComputeDecision;
    var next := StateAfter(state, ticks[0], name);
    if !Attempts(state, ticks[0], name) {
      NextAttempt(next, ticks[1..], name, k);
    } else if k > 0 {
      NextAttempt(next, ticks[1..], name, k - 1);
    } else {
      FirstAttempt(next, ticks[1..], name);
    }
  }

  lemma {:induction false} FailureCounted(state: RenewalState, ticks: seq<Tick>, name: string, k: nat)
    requires k < |Trace(state, ticks, name)| && !Trace(state, ticks, name)[k].tick.Ok()
    ensures Trace(state, ticks, name)[k].failures > 0
  {
    if k == 0 {
      FirstAttempt(state, ticks, name);
    } else {
      NextAttempt(state, ticks, name, k - 1);
    }
  }

  /** The least time n failed attempts can take. */
  function Span(n: nat): int { if n <= 1 then 0 else Span(n - 1) + Backoff(n - 1) }

  lemma {:induction false} SpanInHours(n: nat)
    requires n >= 4
    ensures Span(n) == (17 + 24 * (n - 4)) * HOUR
  {
    if n == 4 {
      assert Span(4) == Span(3) + Backoff(3) && Span(3) == Span(2) + Backoff(2) && Span(2) == Span(1) + Backoff(1);
    } else {
      SpanInHours(n - 1);
    }
  }

  lemma {:induction false} StreakSpan(state: RenewalState, ticks: seq<Tick>, name: string, i: nat, n: nat)
    requires n > 0 && i + n <= |Trace(state, ticks, name)|
    requires forall k :: i <= k < i + n ==> !Trace(state, ticks, name)[k].tick.Ok()
    requires forall t <- ticks :: t.decidedAt <= t.attemptedAt
    ensures var trace := Trace(state, ticks, name);
            trace[i + n - 1].failures >= n && trace[i + n - 1].tick.decidedAt - trace[i].tick.decidedAt >= Span(n)
  {
    var trace := Trace(state, ticks, name);
    FailureCounted(state, ticks, name, i);
    if n > 1 {
      StreakSpan(state, ticks, name, i, n - 1);
      NextAttempt(state, ticks, name, i + n - 2);
      var a := trace[i + n - 2];
      Traced(state, ticks, name, i + n - 2);
      assert Backoff(a.failures) >= Backoff(n - 1);
    }
  }

  lemma {:induction false} Traced(state: RenewalState, ticks: seq<Tick>, name: string, k: nat)
    requires k < |Trace(state, ticks, name)|
    ensures Trace(state, ticks, name)[k].tick in ticks
    decreases ticks
  {
    var next := StateAfter(state, ticks[0], name);
    if !Attempts(state, ticks[0], name) {
      Traced(next, ticks[1..], name, k);
    } else if k > 0 {
      Traced(next, ticks[1..], name, k - 1);
    }
  }

  /** However often the stage runs and whatever it finds, n >= 4 consecutive failed attempts span at least 17 + 24(n - 4) hours. */
  lemma FailuresAreSpaced(state: RenewalState, ticks: seq<Tick>, name: string, i: nat, n: nat)
    requires n >= 4 && i + n <= |Trace(state, ticks, name)|
    requires forall k :: i <= k < i + n ==> !Trace(state, ticks, name)[k].tick.Ok()
    requires forall t <- ticks :: t.decidedAt <= t.attemptedAt
    ensures var trace := Trace(state, ticks, name);
            trace[i + n - 1].tick.decidedAt - trace[i].tick.decidedAt >= (17 + 24 * (n - 4)) * HOUR
  {
    StreakSpan(state, ticks, name, i, n);
    SpanInHours(n);
  }

  // ---------- the store between attempts ----------

  function StoreAfter(state: RenewalState, t: Tick, name: string): Option<Meta> {
    if Attempts(state, t, name) then t.stored else t.found
  }

  /** Nobody but the issuer changes the stored certificate. */
  predicate Continuous(state: RenewalState, found: Option<Meta>, ticks: seq<Tick>, name: string)
    decreases ticks
  {
    ticks != [] ==>
      && ticks[0].found == found
      && Continuous(StateAfter(state, ticks[0], name), StoreAfter(state, ticks[0], name), ticks[1..], name)
  }

  lemma {:induction false} FirstSees(state: RenewalState, found: Option<Meta>, ticks: seq<Tick>, name: string)
    requires Continuous(state, found, ticks, name) && Trace(state, ticks, name) != []
    ensures var t := Trace(state, ticks, name)[0].tick;
            Matches(found, t.required) ==> t.decidedAt - found.value.storedAt >= 60 * DAY
    decreases ticks
  {
    hide Matches, DueByBackoffOrPace;
    if !Attempts(state, ticks[0], name) {
      FirstSees(state, found, ticks[1..], name);
    } else if Matches(found, ticks[0].required) {
      MatchesSome(found, ticks[0].required);
      InDays(ticks[0].decidedAt, found.value.storedAt, 30);
    }
  }

  lemma MatchesSome(m: Option<Meta>, required: seq<string>)
    requires Matches(m, required)
    ensures m.Some?
  {
  }

  /** A certificate whose names are still the required ones is not reissued within 60 days, whether attempts succeed or fail. */
  lemma {:induction false} ReissueInterval(state: RenewalState, found: Option<Meta>, ticks: seq<Tick>, name: string, k: nat)
    requires Continuous(state, found, ticks, name) && k + 1 < |Trace(state, ticks, name)|
    ensures var a, b := Trace(state, ticks, name)[k].tick, Trace(state, ticks, name)[k + 1].tick;
            Matches(a.stored, b.required) ==> b.decidedAt - a.stored.value.storedAt >= 60 * DAY
    decreases ticks
  {
    hide Matches, ComputeDecision;
    var next, store := StateAfter(state, ticks[0], name), StoreAfter(state, ticks[0], name);
    if !Attempts(state, ticks[0], name) {
      ReissueInterval(next, store, ticks[1..], name, k);
    } else if k > 0 {
      ReissueInterval(next, store, ticks[1..], name, k - 1);
    } else {
      FirstSees(next, store, ticks[1..], name);
    }
  }

  // ---------- no escalation ----------

  /** An attempt that issues what was asked for, within a day. */
  predicate Issues(t: Tick) {
    && t.Ok() && Matches(t.stored, t.required)
    && t.decidedAt <= t.stored.value.storedAt <= t.attemptedAt <= t.decidedAt + DAY
  }

  predicate Serviced(state: RenewalState, t: Tick, name: string) {
    && t.required != [] && t.issuer && t.escalationAt <= t.decidedAt
    && (Attempts(state, t, name) ==> Issues(t))
  }

  /** `last` decided before `t`, at most a day earlier, and its attempt was over. */
  predicate Follows(state: RenewalState, last: Tick, t: Tick, name: string) {
    && t.decidedAt <= last.decidedAt + DAY
    && last.decidedAt <= t.decidedAt
    && (Attempts(state, last, name) ==> last.attemptedAt <= t.escalationAt)
  }

  /** Runs at most one day apart, every attempt of which issues the required names. */
  predicate Healthy(state: RenewalState, ticks: seq<Tick>, name: string)
    decreases ticks
  {
    ticks != [] ==>
      && Serviced(state, ticks[0], name)
      && (|ticks| > 1 ==> Follows(state, ticks[0], ticks[1], name))
      && Healthy(StateAfter(state, ticks[0], name), ticks[1..], name)
  }

  /** The situation after a run that leaves a certificate that was current when the run decided. */
  predicate Current(state: RenewalState, store: Option<Meta>, decidedAt: int, next: Tick) {
    && store.Some? && state.consecutiveFailures == 0 && state.lastAttemptAt.Some?
    && var s, a := store.value.storedAt, state.lastAttemptAt.value;
       s <= a <= s + DAY && decidedAt < s + 60 * DAY && a <= next.decidedAt
       && next.escalationAt <= next.decidedAt <= decidedAt + DAY
  }

  lemma CurrentNotDegraded(state: RenewalState, store: Option<Meta>, decidedAt: int, next: Tick)
    requires Current(state, store, decidedAt, next) && next.found == store
    ensures !Degraded(next)
  {
    InDays(next.escalationAt, store.value.storedAt, 7);
  }

  /** A run that issues leaves the next one in order. */
  lemma IssueIsCurrent(state: RenewalState, t: Tick, next: Tick, name: string)
    requires Attempts(state, t, name) && Serviced(state, t, name) && Follows(state, t, next, name)
    requires next.escalationAt <= next.decidedAt
    ensures Current(StateAfter(state, t, name), StoreAfter(state, t, name), t.decidedAt, next)
  {
    hide ComputeDecision, NamesMatch;
  }

  /** A run that finds its certificate current either renews it or has nothing to do yet. */
  lemma CurrentStays(state: RenewalState, store: Option<Meta>, decidedAt: int, t: Tick, next: Tick, name: string)
    requires Current(state, store, decidedAt, t) && t.found == store
    requires Serviced(state, t, name) && Follows(state, t, next, name) && next.escalationAt <= next.decidedAt
    ensures Current(StateAfter(state, t, name), StoreAfter(state, t, name), t.decidedAt, next)
  {
    if Attempts(state, t, name) {
      IssueIsCurrent(state, t, next, name);
    } else {
      InDays(t.decidedAt, store.value.storedAt, 30);
      hide NamesMatch, RemainingDays;
    }
  }

  lemma {:induction false} CurrentNeverEscalates(state: RenewalState, store: Option<Meta>, decidedAt: int, ticks: seq<Tick>, name: string, i: nat)
    requires i < |ticks| && Current(state, store, decidedAt, ticks[0])
    requires Continuous(state, store, ticks, name) && Healthy(state, ticks, name)
    ensures !Degraded(ticks[i])
    decreases ticks
  {
    hide Current, Serviced, Follows, Degraded, StateAfter, StoreAfter;
    if i == 0 {
      CurrentNotDegraded(state, store, decidedAt, ticks[0]);
    } else {
      assert Serviced(StateAfter(state, ticks[0], name), ticks[1], name);
      ServicedOrder(StateAfter(state, ticks[0], name), ticks[1], name);
      CurrentStays(state, store, decidedAt, ticks[0], ticks[1], name);
      assert ticks[1..][0] == ticks[1] && ticks[i] == ticks[1..][i - 1];
      CurrentNeverEscalates(StateAfter(state, ticks[0], name), StoreAfter(state, ticks[0], name), ticks[0].decidedAt, ticks[1..], name, i - 1);
    }
  }

  lemma ServicedOrder(state: RenewalState, t: Tick, name: string)
    requires Serviced(state, t, name)
    ensures t.escalationAt <= t.decidedAt
  {
  }

  /** If every attempt issues the required names and runs are at most a day apart, the framework is degraded in the very first run and never again. */
  lemma EscalatesOnlyBeforeFirstIssue(ticks: seq<Tick>, name: string, i: nat)
    requires Healthy(INITIAL, ticks, name) && Continuous(INITIAL, None, ticks, name) && i < |ticks|
    ensures Degraded(ticks[i]) <==> i == 0
  {
    var t := ticks[0];
    assert Attempts(INITIAL, t, name) && Degraded(t);
    if i > 0 {
      assert ticks[1..][0] == ticks[1] && ticks[i] == ticks[1..][i - 1];
      hide Current, Serviced, Follows, Degraded, StateAfter, StoreAfter, Attempts;
      assert Serviced(StateAfter(INITIAL, t, name), ticks[1], name);
      ServicedOrder(StateAfter(INITIAL, t, name), ticks[1], name);
      IssueIsCurrent(INITIAL, t, ticks[1], name);
      CurrentNeverEscalates(StateAfter(INITIAL, t, name), StoreAfter(INITIAL, t, name), t.decidedAt, ticks[1..], name, i - 1);
    }
  }

  // ---------- the follow-up run ----------

  /** After a success, exactly when the next run would invoke the issuer again: at once if the names were not stored. */
  lemma DueAfterSuccess(state: RenewalState, t: Tick, next: Tick, name: string)
    requires Attempts(state, t, name) && t.Ok() && next.found == t.stored && t.attemptedAt <= next.decidedAt
    requires next.required != [] && next.issuer
    ensures Attempts(StateAfter(state, t, name), next, name) <==>
            || !Matches(t.stored, next.required)
            || (&& next.decidedAt - t.stored.value.storedAt >= 60 * DAY
                && next.decidedAt - t.attemptedAt >= 24 * HOUR + Jitter(name))
  {
    if t.stored.Some? {
      InDays(next.decidedAt, t.stored.value.storedAt, 30);
    }
    hide NamesMatch, RemainingDays, Jitter;
  }

  // ---------- the stage inside the engine ----------

  /** The triggers one run of the stage sends: the broker sends one when a certificate is stored, the stage one when the issuer reports success. */
  function TriggersOf(state: RenewalState, t: Tick, name: string): seq<Engine.Event> {
    (if Attempts(state, t, name) && t.stored != t.found then [Engine.Trigger] else []) +
    (if Attempts(state, t, name) && t.Ok() then [Engine.Trigger] else [])
  }

  /** What happens to engine and renewal state together: an event of the engine, or the renewal stage of the run in flight. */
  datatype Event = Of(e: Engine.Event) | StageRuns(t: Tick)

  datatype Machine = Machine(engine: Engine.State, state: RenewalState)

  function EngineAfter(s: Engine.State, events: seq<Engine.Event>): Engine.State {
    if events == [] then s else Engine.Next(EngineAfter(s, events[..|events| - 1]), events[|events| - 1])
  }

  /** The engine events an event amounts to; the stage runs only inside a run that has suspended. */
  function Emitted(m: Machine, e: Event, name: string): seq<Engine.Event> {
    match e
    case Of(x) => [x]
    case StageRuns(t) => if m.engine.starting == 0 && m.engine.loops > 0 then TriggersOf(m.state, t, name) else []
  }

  function Next(m: Machine, e: Event, name: string): Machine {
    Machine(EngineAfter(m.engine, Emitted(m, e, name)),
            if e.StageRuns? && m.engine.starting == 0 && m.engine.loops > 0 then StateAfter(m.state, e.t, name) else m.state)
  }

  function MachineAfter(m: Machine, events: seq<Event>, name: string): Machine
    decreases events
  {
    if events == [] then m else MachineAfter(Next(m, events[0], name), events[1..], name)
  }

  function AllEmitted(m: Machine, events: seq<Event>, name: string): seq<Engine.Event>
    decreases events
  {
    if events == [] then [] else Emitted(m, events[0], name) + AllEmitted(Next(m, events[0], name), events[1..], name)
  }

  lemma {:induction false} EngineConcat(a: seq<Engine.Event>, b: seq<Engine.Event>)
    ensures EngineAfter(Engine.After(a), b) == Engine.After(a + b)
  {
    hide Engine.Next;
    if b == [] {
      assert a + b == a;
    } else {
      EngineConcat(a, b[..|b| - 1]);
      assert (a + b)[..|a + b| - 1] == a + b[..|b| - 1];
    }
  }

  /** The engine inside the machine is the engine: its history is the events the machine emits. */
  lemma {:induction false} MachineIsEngine(before: seq<Engine.Event>, m: Machine, events: seq<Event>, name: string)
    requires m.engine == Engine.After(before)
    ensures MachineAfter(m, events, name).engine == Engine.After(before + AllEmitted(m, events, name))
    decreases events
  {
    hide Emitted, Engine.After;
    if events == [] {
      assert before + [] == before;
    } else {
      var e := Emitted(m, events[0], name);
      EngineConcat(before, e);
      hide EngineAfter;
      MachineIsEngine(before + e, Next(m, events[0], name), events[1..], name);
      assert before + e + AllEmitted(Next(m, events[0], name), events[1..], name) == before + AllEmitted(m, events, name);
    }
  }

  /** Runs one after the other, each with one renewal stage and no trigger from outside. */
  function RunsOf(ticks: seq<Tick>): seq<Event> {
    if ticks == [] then [] else [StageRuns(ticks[0]), Of(Engine.Settle)] + RunsOf(ticks[1..])
  }

  function StateAt(state: RenewalState, ticks: seq<Tick>, i: nat, name: string): RenewalState
    requires i <= |ticks|
    decreases i
  {
    if i == 0 then state else StateAt(StateAfter(state, ticks[0], name), ticks[1..], i - 1, name)
  }

  /** One run of the loop: it goes round again exactly when its renewal stage triggered the engine. */
  lemma OneRun(m: Machine, t: Tick, name: string)
    requires m.engine == Engine.State(true, false, m.engine.runCount, 0, 1)
    ensures var u, c := Next(Next(m, StageRuns(t), name), Of(Engine.Settle), name), m.engine.runCount;
            && u.state == StateAfter(m.state, t, name)
            && (TriggersOf(m.state, t, name) != [] ==> u.engine == Engine.State(true, false, c + 1, 0, 1))
            && (TriggersOf(m.state, t, name) == [] ==> u.engine == Engine.State(false, false, c, 0, 0))
  {
    hide Attempts, StateAfter;
    var one, two := [Engine.Trigger], [Engine.Trigger, Engine.Trigger];
    var triggers := TriggersOf(m.state, t, name);
    assert triggers == [] || triggers == one || triggers == two;
    assert EngineAfter(m.engine, []) == m.engine && one[..0] == [] && two[..1] == one;
    assert EngineAfter(m.engine, one) == Engine.Next(m.engine, Engine.Trigger);
    assert EngineAfter(m.engine, two) == Engine.Next(EngineAfter(m.engine, one), Engine.Trigger);
    var u := Next(m, StageRuns(t), name);
    var settle := [Engine.Settle];
    assert settle[..0] == [] && EngineAfter(u.engine, settle) == Engine.Next(EngineAfter(u.engine, []), Engine.Settle);
  }

  /** From a run in flight without triggers from outside, the loop makes one more run for every run in a row whose renewal stage triggers, and then stops. */
  lemma {:induction false} LoopFollowsRenewals(m: Machine, ticks: seq<Tick>, name: string)
    requires m.engine == Engine.State(true, false, m.engine.runCount, 0, 1) && ticks != []
    requires forall i :: 0 <= i < |ticks| - 1 ==> TriggersOf(StateAt(m.state, ticks, i, name), ticks[i], name) != []
    ensures var c, last := m.engine.runCount, |ticks| - 1;
            MachineAfter(m, RunsOf(ticks), name).engine ==
            if TriggersOf(StateAt(m.state, ticks, last, name), ticks[last], name) != []
            then Engine.State(true, false, c + last + 1, 0, 1) else Engine.State(false, false, c + last, 0, 0)
    decreases ticks
  {
    hide TriggersOf, Next, Attempts, StateAfter;
    var runs := RunsOf(ticks);
    var u := Next(Next(m, runs[0], name), runs[1], name);
    OneRun(m, ticks[0], name);
    assert runs[1..][0] == runs[1] && runs[1..][1..] == RunsOf(ticks[1..]);
    assert MachineAfter(m, runs, name) == MachineAfter(u, RunsOf(ticks[1..]), name);
    if |ticks| == 1 {
      assert RunsOf([]) == [];
    } else {
      assert TriggersOf(StateAt(m.state, ticks, 0, name), ticks[0], name) != [];
      assert u.engine.runCount == m.engine.runCount + 1;
      assert forall i :: 0 <= i < |ticks| - 1 ==> StateAt(u.state, ticks[1..], i, name) == StateAt(m.state, ticks, i + 1, name) && ticks[1..][i] == ticks[i + 1];
      LoopFollowsRenewals(u, ticks[1..], name);
    }
  }

  /**
   A run of the engine whose renewal succeeds is followed by exactly one further run, which renews nothing, and then the
   engine is idle: the stored certificate matches and the follow-up decides within 60 days. `before` is any history of the
   engine that leaves one run in flight; what follows is emitted by the stage itself.
   */
  lemma ExactlyOneFollowUp(before: seq<Engine.Event>, state: RenewalState, t: Tick, next: Tick, name: string)
    requires Engine.After(before) == Engine.State(true, false, Engine.After(before).runCount, 0, 1)
    requires Attempts(state, t, name) && t.Ok() && next.found == t.stored && t.attemptedAt <= next.decidedAt
    requires Matches(t.stored, next.required) && next.decidedAt - t.stored.value.storedAt < 60 * DAY
    ensures !Attempts(StateAfter(state, t, name), next, name)
    ensures var c, m := Engine.After(before).runCount, Machine(Engine.After(before), state);
            var history := before + AllEmitted(m, RunsOf([t, next]), name);
            Engine.After(history) == Engine.State(false, false, c + 1, 0, 0)
  {
    assert !Attempts(StateAfter(state, t, name), next, name) by {
      if next.required != [] && next.issuer {
        DueAfterSuccess(state, t, next, name);
      }
    }
    hide Attempts, Matches, Engine.After, StateAfter;
    var m, ticks := Machine(Engine.After(before), state), [t, next];
    assert TriggersOf(state, t, name) != [] && TriggersOf(StateAfter(state, t, name), next, name) == [];
    assert ticks[1..] == [next] && StateAt(state, ticks, 0, name) == state;
    assert StateAt(StateAfter(state, t, name), [next], 0, name) == StateAfter(state, t, name);
    hide TriggersOf;
    LoopFollowsRenewals(m, ticks, name);
    MachineIsEngine(before, m, RunsOf(ticks), name);
  }

  /** A success that stores no certificate for the required names is repeated by the very next run, with no pause at all. */
  lemma EmptySuccessRepeats(t: Tick, next: Tick, name: string)
    requires Attempts(INITIAL, t, name) && t.Ok() && t.stored == None == next.found
    requires next.required == t.required && next.issuer && next.decidedAt == t.attemptedAt
    ensures Attempts(StateAfter(INITIAL, t, name), next, name)
  {
    DueAfterSuccess(INITIAL, t, next, name);
  }
}

/**
 Crash convergence of the EXECUTE pass: however often a pass is cut off after
 any Docker call, the next complete pass ends exactly where an uninterrupted
 pass would have ended, and one more pass changes nothing.
 */
module Convergence {
  import opened Options
  import opened DockerView

  /** Whether a step works on the container `x`. */
  predicate Touches(s: Step, x: string) {
    (s.EnsureContainer? && s.name == x) || (s.Connect? && s.container == x)
  }

  /** Every container is ensured at most once, before anything else is done to it. */
  ghost predicate WellFormed(steps: seq<Step>) {
    forall i, j :: 0 <= i < j < |steps| && steps[j].EnsureContainer? ==> !Touches(steps[i], steps[j].name)
  }

  ghost predicate TouchedIn(steps: seq<Step>, x: string) {
    exists i :: 0 <= i < |steps| && Touches(steps[i], x)
  }

  ghost predicate EnsuredIn(steps: seq<Step>, x: string) {
    exists i :: 0 <= i < |steps| && steps[i].EnsureContainer? && steps[i].name == x
  }

  function Entry(v: View, x: string): Option<ContainerView> {
    if x in v.containers then Some(v.containers[x]) else None
  }

  /** Running a concatenation is running its parts one after the other. */
  lemma {:induction false} RunConcat(v: View, a: seq<Step>, b: seq<Step>, h: Hashes)
    ensures var p := Run(v, a, h);
            Run(v, a + b, h) == if !p.ok then p
                                else var q := Run(p.view, b, h); q.(journal := p.journal + q.journal)
    decreases |a|
  {
    hide Apply;
    if a == [] {
      assert a + b == b;
    } else {
      assert (a + b)[0] == a[0] && (a + b)[1..] == a[1..] + b;
      RunConcat(Apply(v, a[0], h).view, a[1..], b, h);
    }
  }

  /** Splitting off the last step. */
  lemma RunSnoc(v: View, steps: seq<Step>, k: nat, h: Hashes)
    requires k < |steps|
    ensures var p := Run(v, steps[..k], h);
            Run(v, steps[..k + 1], h) ==
            if !p.ok then p
            else var o := Apply(p.view, steps[k], h); Pass(o.view, o.Ok(), p.journal + [(steps[k], o.detail)])
  {
    hide Apply;
    assert steps[..k + 1] == steps[..k] + [steps[k]];
    RunConcat(v, steps[..k], [steps[k]], h);
    var p := Run(v, steps[..k], h);
    assert Run(p.view, [steps[k]], h).journal == [(steps[k], Apply(p.view, steps[k], h).detail)];
  }

  /** What a later step of a well-formed pass keeps of the objects an earlier step has settled. */
  ghost predicate Keeps(a: View, b: View, done: seq<Step>, h: Hashes) {
    && (forall n :: n in a.networks ==> n in b.networks && b.networks[n] == a.networks[n])
    && (forall n :: n in a.volumes ==> n in b.volumes && b.volumes[n] == a.volumes[n])
    && (forall x :: TouchedIn(done, x) ==> KeepsContainer(Entry(a, x), Entry(b, x)))
  }

  ghost predicate KeepsContainer(a: Option<ContainerView>, b: Option<ContainerView>) {
    match (a, b)
    case (None, None) => true
    case (Some(c), Some(d)) =>
      d.labels == c.labels && (c.state == RUNNING ==> d.state == RUNNING) && (forall n :: n in c.networks ==> n in d.networks)
    case _ => false
  }

  lemma StepKeeps(v: View, s: Step, done: seq<Step>, h: Hashes)
    requires s.EnsureContainer? ==> !TouchedIn(done, s.name)
    ensures Keeps(v, Apply(v, s, h).view, done, h)
  {
    hide NetworkLabels, VolumeLabels, ContainerLabels, Strip, Matches;
  }

  lemma KeepsTransitive(a: View, b: View, c: View, done: seq<Step>, h: Hashes)
    requires Keeps(a, b, done, h) && Keeps(b, c, done, h)
    ensures Keeps(a, c, done, h)
  {
    forall x | TouchedIn(done, x)
      ensures KeepsContainer(Entry(a, x), Entry(c, x))
    {
      assert KeepsContainer(Entry(a, x), Entry(b, x)) && KeepsContainer(Entry(b, x), Entry(c, x));
    }
  }

  /** The first `i` steps stay settled while a well-formed pass goes on. */
  lemma {:induction false} PrefixKeeps(v: View, steps: seq<Step>, i: nat, k: nat, h: Hashes)
    requires WellFormed(steps) && i <= k <= |steps|
    requires Run(v, steps[..k], h).ok
    ensures Run(v, steps[..i], h).ok
    ensures Keeps(Run(v, steps[..i], h).view, Run(v, steps[..k], h).view, steps[..i], h)
    decreases k - i
  {
    hide Apply, KeepsContainer;
    var a := Run(v, steps[..i], h).view;
    if i == k {
      hide *;
      KeepsReflexive(a, steps[..i], h);
    } else {
      RunSnoc(v, steps, k - 1, h);
      PrefixKeeps(v, steps, i, k - 1, h);
      var b := Run(v, steps[..k - 1], h).view;
      StepKeeps(b, steps[k - 1], steps[..i], h);
      KeepsTransitive(a, b, Apply(b, steps[k - 1], h).view, steps[..i], h);
    }
  }

  lemma KeepsReflexive(a: View, done: seq<Step>, h: Hashes)
    ensures Keeps(a, a, done, h)
  {
  }

  /** The container of the cut step is gone, or created again but not started; nothing else differs. */
  ghost predicate CutInside(u: View, s: Step, c: View, h: Hashes) {
    && s.EnsureContainer?
    && c.networks == u.networks && c.volumes == u.volumes
    && (s.name !in u.containers || !Matches(u.containers[s.name], s.spec, h))
    && (|| c.containers == u.containers - {s.name}
        || c.containers == u.containers[s.name := FreshContainer(s.spec, s.service, s.core, h)])
  }

  /**
   `c` is what a crash leaves when the first `k` steps are complete: the view after them, or that view
   with the container of step `k` removed, or created again but not yet started.
   */
  ghost predicate CrashPoint(v: View, steps: seq<Step>, k: nat, c: View, h: Hashes)
    requires k <= |steps|
  {
    var p := Run(v, steps[..k], h);
    && p.ok
    && (c == p.view || (k < |steps| && CutInside(p.view, steps[k], c, h)))
  }

  lemma CrashKeeps(v: View, steps: seq<Step>, k: nat, i: nat, c: View, h: Hashes)
    requires WellFormed(steps) && i <= k <= |steps|
    requires CrashPoint(v, steps, k, c, h)
    ensures Run(v, steps[..i], h).ok
    ensures Keeps(Run(v, steps[..i], h).view, c, steps[..i], h)
  {
    hide Run, Matches;
    PrefixKeeps(v, steps, i, k, h);
    var u := Run(v, steps[..k], h).view;
    if c != u {
      assert forall x :: TouchedIn(steps[..i], x) ==> x != steps[k].name;
    }
  }

  /** Container `x` was ensured, and `c` does not show it with the hash of its spec: a pass makes it anew. */
  ghost predicate Reset(done: seq<Step>, c: View, x: string, h: Hashes) {
    exists i :: 0 <= i < |done| && done[i].EnsureContainer? && done[i].name == x
                && !(x in c.containers && Matches(c.containers[x], done[i].spec, h))
  }

  /** How the replay `a` from the crash view `c` stands to the original run `b`, both after the steps `done`. */
  ghost predicate Sim(b: View, a: View, c: View, done: seq<Step>, h: Hashes) {
    && a.networks == c.networks && a.volumes == c.volumes
    && forall x :: Entry(a, x) == if Reset(done, c, x, h) then Entry(b, x) else Entry(c, x)
  }

  /** What ensuring does to the one container entry it works on. */
  function Ensured(e: Option<ContainerView>, s: Step, h: Hashes): ContainerView
    requires s.EnsureContainer?
  {
    if e.Some? && Matches(e.value, s.spec, h) then e.value.(state := RUNNING)
    else FreshContainer(s.spec, s.service, s.core, h).(state := RUNNING)
  }

  lemma ApplyEnsure(v: View, s: Step, h: Hashes)
    requires s.EnsureContainer?
    ensures var o := Apply(v, s, h);
            && o.Ok() && o.view.networks == v.networks && o.view.volumes == v.volumes
            && Entry(o.view, s.name) == Some(Ensured(Entry(v, s.name), s, h))
            && (forall x :: x != s.name ==> Entry(o.view, x) == Entry(v, x))
            && (!o.Changed() <==> Entry(v, s.name).Some? && Matches(Entry(v, s.name).value, s.spec, h)
                                  && Entry(v, s.name).value.state == RUNNING)
  {
  }

  /** What connecting does to the one container entry it works on. */
  function Attached(e: Option<ContainerView>, network: string): Option<ContainerView> {
    if e.Some? && network !in e.value.networks then Some(e.value.(networks := e.value.networks + [network])) else e
  }

  lemma ApplyConnect(v: View, s: Step, h: Hashes)
    requires s.Connect?
    ensures var o := Apply(v, s, h); var e := Entry(v, s.container);
            && o.view.networks == v.networks && o.view.volumes == v.volumes
            && (o.Ok() <==> e.None? || s.network in e.value.networks || s.network in v.networks)
            && (o.Ok() ==> Entry(o.view, s.container) == Attached(e, s.network))
            && (forall x :: x != s.container ==> Entry(o.view, x) == Entry(v, x))
            && (o.Ok() ==> (!o.Changed() <==> Entry(o.view, s.container) == e))
  {
    var e := Entry(v, s.container);
    if e.Some? && s.network !in e.value.networks {
      assert |e.value.networks + [s.network]| > |e.value.networks|;
    }
  }

  lemma SimEnsure(b: View, a: View, c: View, s: Step, done: seq<Step>, h: Hashes)
    requires s.EnsureContainer? && !TouchedIn(done, s.name)
    requires Keeps(b, c, done, h) && Keeps(Apply(b, s, h).view, c, done + [s], h)
    requires Sim(b, a, c, done, h)
    ensures Apply(a, s, h).Ok()
    ensures Sim(Apply(b, s, h).view, Apply(a, s, h).view, c, done + [s], h)
    ensures !Apply(a, s, h).Changed() <==> !Reset(done + [s], c, s.name, h)
  {
    hide Apply;
    ApplyEnsure(a, s, h);
    ApplyEnsure(b, s, h);
    ResetSnoc(done, s, c, h);
    assert TouchedIn(done + [s], s.name) by { assert Touches((done + [s])[|done|], s.name); }
    assert KeepsContainer(Entry(Apply(b, s, h).view, s.name), Entry(c, s.name));
    assert !Reset(done, c, s.name, h) by {
      assert forall i :: 0 <= i < |done| ==> !Touches(done[i], s.name);
    }
    assert Entry(a, s.name) == Entry(c, s.name);
  }

  lemma SimConnect(b: View, a: View, c: View, s: Step, done: seq<Step>, h: Hashes)
    requires s.Connect? && Apply(b, s, h).Ok()
    requires Keeps(b, c, done, h) && Keeps(Apply(b, s, h).view, c, done + [s], h)
    requires Sim(b, a, c, done, h)
    ensures Apply(a, s, h).Ok()
    ensures Sim(Apply(b, s, h).view, Apply(a, s, h).view, c, done + [s], h)
    ensures !Reset(done, c, s.container, h) ==> !Apply(a, s, h).Changed()
  {
    hide Apply;
    ApplyConnect(a, s, h);
    ApplyConnect(b, s, h);
    ResetSnoc(done, s, c, h);
    assert TouchedIn(done + [s], s.container) by { assert Touches((done + [s])[|done|], s.container); }
    assert KeepsContainer(Entry(Apply(b, s, h).view, s.container), Entry(c, s.container));
    assert Entry(a, s.container) == if Reset(done, c, s.container, h) then Entry(b, s.container) else Entry(c, s.container);
  }

  lemma SimStep(b: View, a: View, c: View, s: Step, done: seq<Step>, h: Hashes)
    requires s.EnsureContainer? ==> !TouchedIn(done, s.name)
    requires Apply(b, s, h).Ok()
    requires Keeps(b, c, done, h) && Keeps(Apply(b, s, h).view, c, done + [s], h)
    requires Sim(b, a, c, done, h)
    ensures Apply(a, s, h).Ok()
    ensures Sim(Apply(b, s, h).view, Apply(a, s, h).view, c, done + [s], h)
  {
    if s.EnsureContainer? {
      hide *;
      SimEnsure(b, a, c, s, done, h);
    } else if s.Connect? {
      hide *;
      SimConnect(b, a, c, s, done, h);
    } else {
      hide Matches, Reset, KeepsContainer;
      ResetSnoc(done, s, c, h);
    }
  }

  lemma ResetSnoc(done: seq<Step>, s: Step, c: View, h: Hashes)
    ensures forall x :: Reset(done + [s], c, x, h) <==>
                        || Reset(done, c, x, h)
                        || (s.EnsureContainer? && s.name == x && !(x in c.containers && Matches(c.containers[x], s.spec, h)))
  {
    assert (done + [s])[|done|] == s;
    assert forall i :: 0 <= i < |done| ==> (done + [s])[i] == done[i];
  }

  lemma {:induction false} Replay(v: View, steps: seq<Step>, k: nat, i: nat, c: View, h: Hashes)
    requires WellFormed(steps) && i <= k <= |steps|
    requires CrashPoint(v, steps, k, c, h)
    ensures Run(c, steps[..i], h).ok
    ensures Sim(Run(v, steps[..i], h).view, Run(c, steps[..i], h).view, c, steps[..i], h)
  {
    hide Apply, Keeps, Sim, CrashPoint;
    if i == 0 {
      hide *;
      assert steps[..0] == [];
      SimStart(v, c, h);
    } else {
      Replay(v, steps, k, i - 1, c, h);
      RunSnoc(v, steps, i - 1, h);
      RunSnoc(c, steps, i - 1, h);
      CrashKeeps(v, steps, k, i - 1, c, h);
      CrashKeeps(v, steps, k, i, c, h);
      assert steps[..i] == steps[..i - 1] + [steps[i - 1]];
      SimStep(Run(v, steps[..i - 1], h).view, Run(c, steps[..i - 1], h).view, c, steps[i - 1], steps[..i - 1], h);
    }
  }

  lemma SimStart(v: View, c: View, h: Hashes)
    ensures Run(c, [], h) == Pass(c, true, [])
    ensures Sim(Run(v, [], h).view, c, c, [], h)
  {
  }

  lemma SameView(a: View, b: View)
    requires a.networks == b.networks && a.volumes == b.volumes
    requires forall x :: Entry(a, x) == Entry(b, x)
    ensures a == b
  {
    assert forall x :: x in a.containers <==> Entry(a, x).Some?;
    assert forall x :: x in b.containers <==> Entry(b, x).Some?;
    assert a.containers == b.containers;
  }

  /** Replaying the completed steps leaves the crash view as it is. */
  lemma ReplayIsIdentity(v: View, steps: seq<Step>, k: nat, c: View, h: Hashes)
    requires WellFormed(steps) && k <= |steps| && CrashPoint(v, steps, k, c, h)
    ensures Run(c, steps[..k], h).ok && Run(c, steps[..k], h).view == c
  {
    hide Apply, Matches, Run;
    Replay(v, steps, k, k, c, h);
    var u, a := Run(v, steps[..k], h).view, Run(c, steps[..k], h).view;
    forall x
      ensures Entry(a, x) == Entry(c, x)
    {
      if Reset(steps[..k], c, x, h) {
        assert k < |steps| && steps[k].EnsureContainer? ==> steps[k].name != x;
        assert Entry(u, x) == Entry(c, x);
      }
    }
    SameView(a, c);
  }

  /** The step that was cut off ends where it would have ended. */
  lemma CutStepCompletes(u: View, c: View, s: Step, h: Hashes)
    requires CutInside(u, s, c, h)
    ensures Apply(c, s, h).Ok() && Apply(u, s, h).Ok() && Apply(c, s, h).view == Apply(u, s, h).view
  {
    hide Apply;
    ApplyEnsure(c, s, h);
    ApplyEnsure(u, s, h);
    SameView(Apply(c, s, h).view, Apply(u, s, h).view);
  }

  /** Crash convergence for one crash point. */
  lemma ResumeFromCrashPoint(v: View, steps: seq<Step>, k: nat, c: View, h: Hashes)
    requires WellFormed(steps) && k <= |steps| && CrashPoint(v, steps, k, c, h)
    ensures Run(c, steps, h).view == Run(v, steps, h).view
    ensures Run(c, steps, h).ok == Run(v, steps, h).ok
  {
    hide Apply, Matches;
    var u := Run(v, steps[..k], h).view;
    assert steps == steps[..k] + steps[k..];
    RunConcat(v, steps[..k], steps[k..], h);
    RunConcat(c, steps[..k], steps[k..], h);
    ReplayIsIdentity(v, steps, k, c, h);
    if c != u {
      assert steps[k..][0] == steps[k];
      CutStepCompletes(u, c, steps[k], h);
    }
  }

  lemma CallsOfStep(u: View, s: Step, j: nat, h: Hashes)
    requires j < |Calls(u, s, h)|
    ensures Apply(u, s, h).Ok()
    ensures Calls(u, s, h)[j] == Apply(u, s, h).view || CutInside(u, s, Calls(u, s, h)[j], h)
  {
  }

  /** Every view a pass goes through is a crash point. */
  lemma {:induction false} CallIsCrashPoint(v: View, steps: seq<Step>, j: nat, h: Hashes) returns (k: nat)
    requires j < |AllCalls(v, steps, h)|
    ensures k <= |steps| && CrashPoint(v, steps, k, AllCalls(v, steps, h)[j], h)
    decreases |steps|
  {
    hide Apply, Calls, CutInside;
    var s, c := steps[0], AllCalls(v, steps, h)[j];
    var o, n := Apply(v, s, h), |Calls(v, s, h)|;
    if j >= n {
      var k' := CallIsCrashPoint(o.view, steps[1..], j - n, h);
      k := k' + 1;
      assert steps[..k] == [s] + steps[1..][..k'];
      RunConcat(v, [s], steps[1..][..k'], h);
      assert Run(v, [s], h).ok && Run(v, [s], h).view == o.view;
    } else {
      CallsOfStep(v, s, j, h);
      assert c == Calls(v, s, h)[j];
      assert steps[..0] == [] && steps[..1] == [s];
      k := if c == o.view then 1 else 0;
      assert Run(v, [s], h).ok && Run(v, [s], h).view == o.view;
      assert Run(v, [], h).view == v;
    }
  }

  /**
   Crash convergence: stopping a pass after any Docker call, and running a complete pass from what is left,
   ends in the same networks, volumes, labels, running states and attachments, and with the same verdict,
   as the pass that is not interrupted.
   */
  lemma CrashConvergence(v: View, steps: seq<Step>, j: nat, h: Hashes)
    requires WellFormed(steps) && j < |AllCalls(v, steps, h)|
    ensures Run(AllCalls(v, steps, h)[j], steps, h).view == Run(v, steps, h).view
    ensures Run(AllCalls(v, steps, h)[j], steps, h).ok == Run(v, steps, h).ok
  {
    hide *;
    var k := CallIsCrashPoint(v, steps, j, h);
    ResumeFromCrashPoint(v, steps, k, AllCalls(v, steps, h)[j], h);
  }

  /** The view left by passes of which the i-th is cut off after `cuts[i]` Docker calls (or ends before that). */
  function Interrupted(v: View, steps: seq<Step>, cuts: seq<nat>, h: Hashes): View
    decreases |cuts|
  {
    if cuts == [] then v
    else
      var calls := AllCalls(v, steps, h);
      Interrupted(LastView(v, if cuts[0] <= |calls| then calls[..cuts[0]] else calls), steps, cuts[1..], h)
  }

  /** Any number of interrupted passes before the complete one make no difference. */
  lemma {:induction false} RepeatedCrashConvergence(v: View, steps: seq<Step>, cuts: seq<nat>, h: Hashes)
    requires WellFormed(steps)
    ensures Run(Interrupted(v, steps, cuts, h), steps, h).view == Run(v, steps, h).view
    ensures Run(Interrupted(v, steps, cuts, h), steps, h).ok == Run(v, steps, h).ok
    decreases |cuts|
  {
    hide AllCalls, Run, WellFormed;
    if cuts != [] {
      var calls := AllCalls(v, steps, h);
      var done := if cuts[0] <= |calls| then calls[..cuts[0]] else calls;
      RepeatedCrashConvergence(LastView(v, done), steps, cuts[1..], h);
      if done != [] {
        CrashConvergence(v, steps, |done| - 1, h);
      }
    }
  }
}

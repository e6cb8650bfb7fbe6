/**
 When a pass succeeds, and when the pass after a successful one reports no change:
 exact conditions that can be read off the starting view and the plan.
 */
module Quiescence {
  import opened Options
  import opened ContainerSpecs
  import opened DockerView
  import opened Convergence

  /** A step with no earlier work on its container finds that container as the pass found it. */
  lemma {:induction false} Untouched(v: View, steps: seq<Step>, k: nat, x: string, h: Hashes)
    requires k <= |steps| && Run(v, steps[..k], h).ok && !TouchedIn(steps[..k], x)
    ensures Entry(Run(v, steps[..k], h).view, x) == Entry(v, x)
  {
    hide Apply;
    if k > 0 {
      RunSnoc(v, steps, k - 1, h);
      assert !TouchedIn(steps[..k - 1], x) by {
        assert forall i :: 0 <= i < k - 1 ==> steps[..k - 1][i] == steps[..k][i];
      }
      Untouched(v, steps, k - 1, x, h);
      assert !Touches(steps[..k][k - 1], x);
      UntouchedStep(Run(v, steps[..k - 1], h).view, steps[k - 1], x, h);
    }
  }

  lemma UntouchedStep(v: View, s: Step, x: string, h: Hashes)
    requires !Touches(s, x)
    ensures Entry(Apply(v, s, h).view, x) == Entry(v, x)
  {
  }

  /** The `changed` flag a pass journals for each of its steps. */
  lemma JournalEntry(c: View, steps: seq<Step>, i: nat, h: Hashes)
    requires i < |steps| && Run(c, steps, h).ok
    ensures Run(c, steps[..i], h).ok
    ensures |Run(c, steps, h).journal| == |steps|
    ensures Run(c, steps, h).journal[i] == (steps[i], Apply(Run(c, steps[..i], h).view, steps[i], h).detail)
  {
    hide Apply;
    assert steps == steps[..i + 1] + steps[i + 1..];
    RunConcat(c, steps[..i + 1], steps[i + 1..], h);
    RunSnoc(c, steps, i, h);
    JournalLength(c, steps, h);
    JournalLength(c, steps[..i], h);
  }

  lemma {:induction false} JournalLength(c: View, steps: seq<Step>, h: Hashes)
    ensures Run(c, steps, h).ok ==> |Run(c, steps, h).journal| == |steps|
    decreases |steps|
  {
    hide Apply;
    if steps != [] {
      JournalLength(Apply(c, steps[0], h).view, steps[1..], h);
    }
  }

  /** No ensure or connect step of the pass reports a change (`proxy.reload` always does). */
  ghost predicate Quiet(p: Pass) {
    forall i :: 0 <= i < |p.journal| ==>
      p.journal[i].0.ProxyReload? || !p.journal[i].1.Changed()
  }

  /** `spec.labels` does not replace the confighash label by something else. */
  predicate HashLabelKept(spec: ContainerSpec, h: Hashes) {
    ConfigHash in spec.labels ==> spec.labels[ConfigHash] == h.config(spec)
  }

  /** The step's container already carries the hash of its spec in `v`. */
  predicate AlreadyMatching(v: View, s: Step, h: Hashes)
    requires s.EnsureContainer?
  {
    s.name in v.containers && Matches(v.containers[s.name], s.spec, h)
  }

  /** After step `s`, its container shows the hash of its spec. */
  predicate LabelSettles(v: View, s: Step, h: Hashes) {
    s.EnsureContainer? ==> HashLabelKept(s.spec, h) || AlreadyMatching(v, s, h)
  }

  /** Which label the container of step `i` ends up with. */
  lemma FinalLabel(v: View, steps: seq<Step>, i: nat, h: Hashes)
    requires WellFormed(steps) && i < |steps| && steps[i].EnsureContainer? && Run(v, steps, h).ok
    ensures var c := Run(v, steps, h).view; var s := steps[i];
            && s.name in c.containers
            && (Matches(c.containers[s.name], s.spec, h) <==> HashLabelKept(s.spec, h) || AlreadyMatching(v, s, h))
  {
    hide Apply, Run;
    var s, n := steps[i], |steps|;
    assert steps[..n] == steps;
    PrefixKeeps(v, steps, i, n, h);
    RunSnoc(v, steps, i, h);
    assert !TouchedIn(steps[..i], s.name);
    Untouched(v, steps, i, s.name, h);
    hide Matches, KeepsContainer, Ensured;
    var b := Run(v, steps[..i], h).view;
    assert Entry(b, s.name) == Entry(v, s.name);
    EnsuredStays(v, steps, i, h);
    EnsuredLabel(b, s, Run(v, steps, h).view, h);
  }

  /** What a container step leaves survives the rest of the pass. */
  lemma EnsuredStays(v: View, steps: seq<Step>, i: nat, h: Hashes)
    requires WellFormed(steps) && i < |steps| && steps[i].EnsureContainer? && Run(v, steps, h).ok
    ensures var b := Run(v, steps[..i], h).view;
            KeepsContainer(Entry(Apply(b, steps[i], h).view, steps[i].name), Entry(Run(v, steps, h).view, steps[i].name))
  {
    hide Apply, Run, Matches;
    var s, n := steps[i], |steps|;
    assert steps[..n] == steps;
    PrefixKeeps(v, steps, i + 1, n, h);
    RunSnoc(v, steps, i, h);
    assert TouchedIn(steps[..i + 1], s.name) by { assert Touches(steps[..i + 1][i], s.name); }
  }

  lemma EnsuredLabel(b: View, s: Step, c: View, h: Hashes)
    requires s.EnsureContainer? && KeepsContainer(Entry(Apply(b, s, h).view, s.name), Entry(c, s.name))
    ensures s.name in c.containers
    ensures Matches(c.containers[s.name], s.spec, h) <==> HashLabelKept(s.spec, h) || AlreadyMatching(b, s, h)
  {
    ApplyEnsure(b, s, h);
    hide Apply;
    var e, before := Entry(Apply(b, s, h).view, s.name), Entry(b, s.name);
    assert e == Some(Ensured(before, s, h));
    EnsuredMatches(before, s, h);
    hide Ensured, ContainerLabels;
    assert Entry(c, s.name).Some? && Entry(c, s.name).value.labels == e.value.labels;
  }

  lemma EnsuredMatches(before: Option<ContainerView>, s: Step, h: Hashes)
    requires s.EnsureContainer?
    ensures Matches(Ensured(before, s, h), s.spec, h) <==> HashLabelKept(s.spec, h) || (before.Some? && Matches(before.value, s.spec, h))
  {
  }

  /** A container that does not match its spec is made anew by its step, and keeps the labels of that moment to the end of the pass. */
  lemma MadeAnew(v: View, steps: seq<Step>, m: nat, h: Hashes)
    requires WellFormed(steps) && m < |steps| && steps[m].EnsureContainer? && Run(v, steps, h).ok
    requires !AlreadyMatching(v, steps[m], h)
    ensures var u, s := Run(v, steps, h).view, steps[m];
            s.name in u.containers && u.containers[s.name].labels == FreshContainer(s.spec, s.service, s.core, h).labels
  {
    hide Apply, Run, FreshContainer, Matches;
    var s := steps[m];
    assert steps[..|steps|] == steps;
    PrefixKeeps(v, steps, m, |steps|, h);
    assert !TouchedIn(steps[..m], s.name);
    Untouched(v, steps, m, s.name, h);
    var b := Run(v, steps[..m], h).view;
    ApplyEnsure(b, s, h);
    EnsuredStays(v, steps, m, h);
    assert Entry(b, s.name) == Entry(v, s.name);
  }

  /** How step `i` of the second pass reports. */
  lemma SecondPassStep(v: View, steps: seq<Step>, i: nat, h: Hashes)
    requires WellFormed(steps) && i < |steps| && Run(v, steps, h).ok
    ensures var c := Run(v, steps, h).view;
            var o := Apply(Run(c, steps[..i], h).view, steps[i], h);
            && (steps[i].EnsureContainer? ==> (!o.Changed() <==> AlreadyMatching(c, steps[i], h)))
            && (steps[i].Connect? && !Reset(steps[..i], c, steps[i].container, h) ==> !o.Changed())
            && (!steps[i].EnsureContainer? && !steps[i].Connect? && !steps[i].ProxyReload? ==> !o.Changed())
  {
    hide Apply, Keeps, Sim, Run;
    var n, s := |steps|, steps[i];
    assert steps[..n] == steps;
    var c := Run(v, steps, h).view;
    assert CrashPoint(v, steps, n, c, h);
    Replay(v, steps, n, i, c, h);
    CrashKeeps(v, steps, n, i, c, h);
    CrashKeeps(v, steps, n, i + 1, c, h);
    RunSnoc(v, steps, i, h);
    assert steps[..i + 1] == steps[..i] + [s];
    var b, a := Run(v, steps[..i], h).view, Run(c, steps[..i], h).view;
    if s.EnsureContainer? {
      assert !TouchedIn(steps[..i], s.name);
      SimEnsure(b, a, c, s, steps[..i], h);
      ResetSnoc(steps[..i], s, c, h);
    } else if s.Connect? {
      SimConnect(b, a, c, s, steps[..i], h);
    } else if !s.ProxyReload? {
      ExistsAlready(b, a, c, s, steps[..i], h);
    }
  }

  lemma ExistsAlready(b: View, a: View, c: View, s: Step, done: seq<Step>, h: Hashes)
    requires !s.EnsureContainer? && !s.Connect? && !s.ProxyReload?
    requires Keeps(Apply(b, s, h).view, c, done + [s], h) && Sim(b, a, c, done, h)
    ensures !Apply(a, s, h).Changed()
  {
    hide KeepsContainer, Reset, Entry;
  }

  /**
   One more pass reports no change exactly when each container spec leaves the confighash label alone,
   or its container already carried the right hash before the first pass.
   */
  lemma SecondPassQuiet(v: View, steps: seq<Step>, h: Hashes)
    requires WellFormed(steps) && Run(v, steps, h).ok
    ensures var second := Run(Run(v, steps, h).view, steps, h);
            && second.ok && second.view == Run(v, steps, h).view
            && (Quiet(second) <==> forall i :: 0 <= i < |steps| ==> LabelSettles(v, steps[i], h))
  {
    hide Apply, Run, Matches, HashLabelKept;
    var n, c := |steps|, Run(v, steps, h).view;
    assert steps[..n] == steps;
    assert CrashPoint(v, steps, n, c, h);
    ReplayIsIdentity(v, steps, n, c, h);
    var second := Run(c, steps, h);
    JournalLength(c, steps, h);
    forall i | 0 <= i < n
      ensures second.journal[i] == (steps[i], Apply(Run(c, steps[..i], h).view, steps[i], h).detail)
      ensures steps[i].EnsureContainer? ==>
                (!second.journal[i].1.Changed() <==> HashLabelKept(steps[i].spec, h) || AlreadyMatching(v, steps[i], h))
      ensures steps[i].Connect? && !Reset(steps[..i], c, steps[i].container, h) ==> !second.journal[i].1.Changed()
      ensures !steps[i].EnsureContainer? && !steps[i].Connect? && !steps[i].ProxyReload? ==> !second.journal[i].1.Changed()
    {
      JournalEntry(c, steps, i, h);
      SecondPassStep(v, steps, i, h);
      if steps[i].EnsureContainer? {
        FinalLabel(v, steps, i, h);
      }
    }
    if forall i :: 0 <= i < n ==> LabelSettles(v, steps[i], h) {
      forall i | 0 <= i < n && steps[i].Connect?
        ensures !Reset(steps[..i], c, steps[i].container, h)
      {
        forall j | 0 <= j < i && steps[j].EnsureContainer?
          ensures AlreadyMatching(c, steps[j], h)
        {
          assert LabelSettles(v, steps[j], h);
          FinalLabel(v, steps, j, h);
        }
      }
    } else {
      var i :| 0 <= i < n && !LabelSettles(v, steps[i], h);
      assert second.journal[i].1.Changed();
    }
  }

  ghost predicate NetworkEnsured(done: seq<Step>, n: string) {
    exists i :: 0 <= i < |done| && done[i].EnsureNetwork? && done[i].name == n
  }

  /** The container is attached to the network in `v`, and the steps `done` have not made it anew. */
  ghost predicate StillAttached(v: View, done: seq<Step>, x: string, n: string, h: Hashes) {
    && x in v.containers && n in v.containers[x].networks
    && forall i :: 0 <= i < |done| && done[i].EnsureContainer? && done[i].name == x ==> Matches(v.containers[x], done[i].spec, h)
  }

  /** What has to hold of the starting view for step `s`, coming after `done`, to succeed. */
  ghost predicate Feasible(v: View, done: seq<Step>, s: Step, h: Hashes) {
    match s
    case Connect(x, n) =>
      || n in v.networks || NetworkEnsured(done, n) || StillAttached(v, done, x, n, h)
      || (x !in v.containers && !EnsuredIn(done, x))
    case ProxyReload(exitOk) => exitOk
    case _ => true
  }

  /** Networks, presence and attachments after the steps `done`, told from the starting view. */
  ghost predicate Traced(v: View, done: seq<Step>, u: View, h: Hashes) {
    && (forall n :: n in u.networks <==> n in v.networks || NetworkEnsured(done, n))
    && (forall x :: Entry(u, x).None? <==> x !in v.containers && !EnsuredIn(done, x))
    && (forall x, n :: StillAttached(v, done, x, n, h) ==> Entry(u, x).Some? && n in Entry(u, x).value.networks)
    && (forall x, n :: Entry(u, x).Some? && n in Entry(u, x).value.networks ==> StillAttached(v, done, x, n, h) || n in u.networks)
  }

  lemma EnsuredSnoc(done: seq<Step>, s: Step, v: View, h: Hashes)
    ensures forall n :: NetworkEnsured(done + [s], n) <==> NetworkEnsured(done, n) || (s.EnsureNetwork? && s.name == n)
    ensures forall x :: EnsuredIn(done + [s], x) <==> EnsuredIn(done, x) || (s.EnsureContainer? && s.name == x)
    ensures forall x, n :: StillAttached(v, done + [s], x, n, h) <==>
              StillAttached(v, done, x, n, h) && (s.EnsureContainer? && s.name == x ==> Matches(v.containers[x], s.spec, h))
  {
    hide Matches;
    assert (done + [s])[|done|] == s;
    assert forall i :: 0 <= i < |done| ==> (done + [s])[i] == done[i];
  }

  lemma TraceEnsure(v: View, done: seq<Step>, u: View, s: Step, h: Hashes)
    requires Traced(v, done, u, h)
    requires s.EnsureContainer? && !TouchedIn(done, s.name) && Entry(u, s.name) == Entry(v, s.name)
    ensures Apply(u, s, h).Ok() && Traced(v, done + [s], Apply(u, s, h).view, h)
  {
    hide Apply, NetworkEnsured, EnsuredIn, StillAttached, Matches;
    EnsuredSnoc(done, s, v, h);
    ApplyEnsure(u, s, h);
    AttachedUntouched(v, done, s.name, h);
  }

  lemma TraceConnect(v: View, done: seq<Step>, u: View, s: Step, h: Hashes)
    requires Traced(v, done, u, h) && s.Connect?
    ensures Apply(u, s, h).Ok() <==> Feasible(v, done, s, h)
    ensures Apply(u, s, h).Ok() ==> Traced(v, done + [s], Apply(u, s, h).view, h)
  {
    hide Apply, NetworkEnsured, EnsuredIn, StillAttached, Matches;
    EnsuredSnoc(done, s, v, h);
    ApplyConnect(u, s, h);
  }

  lemma TraceStep(v: View, done: seq<Step>, u: View, s: Step, h: Hashes)
    requires Traced(v, done, u, h)
    requires s.EnsureContainer? ==> !TouchedIn(done, s.name) && Entry(u, s.name) == Entry(v, s.name)
    ensures Apply(u, s, h).Ok() <==> Feasible(v, done, s, h)
    ensures Apply(u, s, h).Ok() ==> Traced(v, done + [s], Apply(u, s, h).view, h)
  {
    hide NetworkEnsured, EnsuredIn, StillAttached, Matches;
    if s.EnsureContainer? {
      hide Apply, Traced;
      TraceEnsure(v, done, u, s, h);
    } else if s.Connect? {
      hide *;
      TraceConnect(v, done, u, s, h);
    } else {
      EnsuredSnoc(done, s, v, h);
    }
  }

  lemma AttachedUntouched(v: View, done: seq<Step>, x: string, h: Hashes)
    requires !TouchedIn(done, x)
    ensures forall n :: StillAttached(v, done, x, n, h) <==> x in v.containers && n in v.containers[x].networks
  {
    assert forall i :: 0 <= i < |done| ==> !Touches(done[i], x);
  }

  lemma {:induction false} PassTrace(v: View, steps: seq<Step>, k: nat, h: Hashes)
    requires WellFormed(steps) && k <= |steps|
    ensures Run(v, steps[..k], h).ok <==> forall i :: 0 <= i < k ==> Feasible(v, steps[..i], steps[i], h)
    ensures Run(v, steps[..k], h).ok ==> Traced(v, steps[..k], Run(v, steps[..k], h).view, h)
  {
    hide Apply, Feasible, Traced;
    if k == 0 {
      TraceStart(v, h);
      assert steps[..0] == [];
    } else {
      PassTrace(v, steps, k - 1, h);
      RunSnoc(v, steps, k - 1, h);
      var s, done := steps[k - 1], steps[..k - 1];
      assert steps[..k] == done + [s];
      if Run(v, done, h).ok {
        var u := Run(v, done, h).view;
        if s.EnsureContainer? {
          assert !TouchedIn(done, s.name);
          Untouched(v, steps, k - 1, s.name, h);
        }
        TraceStep(v, done, u, s, h);
      }
    }
  }

  lemma TraceStart(v: View, h: Hashes)
    ensures Run(v, [], h) == Pass(v, true, [])
    ensures Traced(v, [], v, h)
  {
  }

  /** A pass succeeds exactly when each of its steps is feasible; this can be read off the starting view. */
  lemma PassVerdict(v: View, steps: seq<Step>, h: Hashes)
    requires WellFormed(steps)
    ensures Run(v, steps, h).ok <==> forall i :: 0 <= i < |steps| ==> Feasible(v, steps[..i], steps[i], h)
  {
    hide Run, Feasible;
    assert steps[..|steps|] == steps;
    PassTrace(v, steps, |steps|, h);
  }
}

/**
 Convergence of whole runs cut off after any Docker call, in EXECUTE or in OBSERVE: when the same run, made again to the end,
 ends where the uninterrupted one ends.
 */
module RunConvergence {
  import opened ContainerSpecs
  import opened Plans
  import opened DockerView
  import opened Convergence
  import opened Quiescence
  import opened ExecuteStage
  import opened ObserveStage
  import opened ReconcileRun
  import opened Provenance
  import opened GcConservation
  import opened VolumeOwnership

  /**
   Nothing a step relies on is about to be collected from the world EXECUTE leaves: ensured and attached networks and ensured
   volumes stay; a container that goes would go again if it were made again.
   */
  ghost predicate Secure(u: View, s: Step, desired: set<string>, h: Hashes) {
    match s
    case EnsureNetwork(n, _, _) => n in u.networks && !Collectable(u.networks[n], desired)
    case EnsureVolume(n, _, _) => n in u.volumes && !(Collectable(u.volumes[n], desired) && DataMayGo(u.volumes[n]))
    case EnsureContainer(n, spec, service, core) =>
      n in u.containers && Collectable(u.containers[n].labels, desired) ==> Collectable(FreshContainer(spec, service, core, h).labels, desired)
    case Connect(_, n) => n in u.networks && !Collectable(u.networks[n], desired)
    case _ => true
  }

  // ---------- two passes side by side ----------

  /** The networks and volumes a step needs are there. */
  predicate Ready(v: View, s: Step) {
    match s
    case EnsureNetwork(n, _, _) => n in v.networks
    case EnsureVolume(n, _, _) => n in v.volumes
    case Connect(_, n) => n in v.networks
    case _ => true
  }

  /** The two worlds have the same containers, except under names of `gone`, where `q` has none or a collectable one. */
  ghost predicate Apart(p: View, q: View, gone: set<string>, desired: set<string>) {
    && (forall x :: x !in gone ==> Entry(p, x) == Entry(q, x))
    && (forall x :: x in gone && x in q.containers ==> Collectable(q.containers[x].labels, desired))
  }

  /** A step that finds its networks and volumes changes containers only, and fails only as a reload. */
  lemma ReadyStep(v: View, s: Step, h: Hashes)
    requires Ready(v, s)
    ensures var o := Apply(v, s, h);
            && o.view.networks == v.networks && o.view.volumes == v.volumes
            && (o.Ok() <==> (s.ProxyReload? ==> s.exitOk))
            && (!s.EnsureContainer? && !s.Connect? ==> o.view == v)
  {
    hide FreshContainer, Matches;
  }

  lemma ApartStep(p: View, q: View, s: Step, gone: set<string>, desired: set<string>, h: Hashes)
    requires Apart(p, q, gone, desired) && Ready(p, s) && Ready(q, s)
    requires s.EnsureContainer? && s.name in gone ==> Collectable(FreshContainer(s.spec, s.service, s.core, h).labels, desired)
    ensures Apart(Apply(p, s, h).view, Apply(q, s, h).view, gone, desired)
  {
    hide Collectable, FreshContainer, Matches;
    ReadyStep(p, s, h);
    ReadyStep(q, s, h);
    if s.EnsureContainer? {
      ApplyEnsure(p, s, h);
      ApplyEnsure(q, s, h);
      hide Apply;
      EntriesApart(p, q, Apply(p, s, h).view, Apply(q, s, h).view, s.name, gone, desired);
    } else if s.Connect? {
      ApplyConnect(p, s, h);
      ApplyConnect(q, s, h);
      hide Apply;
      EntriesApart(p, q, Apply(p, s, h).view, Apply(q, s, h).view, s.container, gone, desired);
    }
  }

  /** Only one entry has changed. */
  lemma EntriesApart(p: View, q: View, p1: View, q1: View, n: string, gone: set<string>, desired: set<string>)
    requires Apart(p, q, gone, desired)
    requires forall x :: x != n ==> Entry(p1, x) == Entry(p, x) && Entry(q1, x) == Entry(q, x)
    requires if n in gone then (Entry(q1, n).Some? ==> Collectable(Entry(q1, n).value.labels, desired)) else Entry(p1, n) == Entry(q1, n)
    ensures Apart(p1, q1, gone, desired)
  {
    hide Collectable;
    forall x | x in gone && x in q1.containers
      ensures Collectable(q1.containers[x].labels, desired)
    {
      if x != n {
        assert Entry(q1, x) == Entry(q, x);
      }
    }
  }

  lemma {:induction false} Lockstep(p: View, q: View, steps: seq<Step>, gone: set<string>, desired: set<string>, h: Hashes)
    requires Apart(p, q, gone, desired)
    requires forall i :: 0 <= i < |steps| ==> Ready(p, steps[i]) && Ready(q, steps[i])
    requires forall i :: 0 <= i < |steps| && steps[i].EnsureContainer? && steps[i].name in gone ==>
               Collectable(FreshContainer(steps[i].spec, steps[i].service, steps[i].core, h).labels, desired)
    ensures Run(p, steps, h).ok == Run(q, steps, h).ok
    ensures Run(q, steps, h).view.networks == q.networks && Run(q, steps, h).view.volumes == q.volumes
    ensures Apart(Run(p, steps, h).view, Run(q, steps, h).view, gone, desired)
    decreases |steps|
  {
    hide Apply, Apart, FreshContainer, Collectable;
    if steps != [] {
      var s := steps[0];
      ReadyStep(p, s, h);
      ReadyStep(q, s, h);
      ApartStep(p, q, s, gone, desired, h);
      var p1, q1 := Apply(p, s, h).view, Apply(q, s, h).view;
      if Apply(p, s, h).Ok() {
        forall i | 0 <= i < |steps[1..]|
          ensures Ready(p1, steps[1..][i]) && Ready(q1, steps[1..][i])
        {
          assert Ready(p, steps[i + 1]) && Ready(q, steps[i + 1]);
        }
        Lockstep(p1, q1, steps[1..], gone, desired, h);
      }
    }
  }

  // ---------- whole runs ----------

  /** A partly collected world starts apart from the whole one in the collectable containers only, and is ready for a secure plan. */
  lemma ShrunkApart(u: View, w: View, desired: set<string>)
    requires Shrunk(u, w, desired)
    ensures Apart(u, w, OrphanContainers(u.containers, desired), desired)
  {
    hide Collectable, DataMayGo;
  }

  lemma SecureReady(u: View, w: View, s: Step, desired: set<string>, h: Hashes)
    requires Shrunk(u, w, desired) && Secure(u, s, desired, h)
    ensures Ready(u, s) && Ready(w, s)
    ensures s.EnsureContainer? && s.name in OrphanContainers(u.containers, desired) ==>
              Collectable(FreshContainer(s.spec, s.service, s.core, h).labels, desired)
  {
    hide Collectable, DataMayGo, FreshContainer;
  }

  /** Collecting the whole world and collecting what the second pass makes of the part gives the same. */
  lemma SameCollected(u: View, w: View, q: View, desired: set<string>)
    requires Shrunk(u, w, desired) && q.networks == w.networks && q.volumes == w.volumes
    requires Apart(u, q, OrphanContainers(u.containers, desired), desired)
    ensures Collect(q, desired) == Collect(u, desired)
  {
    hide Collectable, DataMayGo;
    var a, b := Collect(q, desired), Collect(u, desired);
    assert a.networks == b.networks && a.volumes == b.volumes;
    forall x
      ensures x in a.containers <==> x in b.containers
      ensures x in a.containers ==> a.containers[x] == b.containers[x]
    {
      if x !in OrphanContainers(u.containers, desired) {
        assert Entry(u, x) == Entry(q, x);
      }
    }
    assert a.containers == b.containers;
  }

  /** A run made again from a world that collection had begun to clear. */
  lemma ResumeCollected(v: View, r: RunInput, w: View, h: Hashes)
    requires r.graph.Some? ==> DistinctIds(r.graph.value.services)
    requires Completes(v, r, h) && Shrunk(Run(v, StepsOf(r), h).view, w, Desired(r))
    requires forall i :: 0 <= i < |StepsOf(r)| ==> Secure(Run(v, StepsOf(r), h).view, StepsOf(r)[i], Desired(r), h)
    ensures RunView(w, r, h) == RunView(v, r, h)
  {
    hide Run, PlanSteps, Desired, Executes, Secure, Shrunk, Apart, Collect, OrphanContainers, Quiet, LabelSettles, FreshContainer, Ready, Collectable;
    var steps, desired := StepsOf(r), Desired(r);
    var u := Run(v, steps, h).view;
    StepsWellFormed(r);
    SecondPassQuiet(v, steps, h);
    var gone := OrphanContainers(u.containers, desired);
    ShrunkApart(u, w, desired);
    forall i | 0 <= i < |steps|
      ensures Ready(u, steps[i]) && Ready(w, steps[i])
      ensures steps[i].EnsureContainer? && steps[i].name in gone ==>
                Collectable(FreshContainer(steps[i].spec, steps[i].service, steps[i].core, h).labels, desired)
    {
      SecureReady(u, w, steps[i], desired, h);
    }
    Lockstep(u, w, steps, gone, desired, h);
    SameCollected(u, w, Run(w, steps, h).view, desired);
  }

  lemma StepsWellFormed(r: RunInput)
    requires r.graph.Some? ==> DistinctIds(r.graph.value.services)
    ensures WellFormed(StepsOf(r))
  {
    hide PlanSteps;
    if r.graph.Some? {
      PlanStepsWellFormed(r.graph.value, r.gate, r.vols);
    }
  }

  /**
   Whole-run convergence: a run cut off after any of its calls and then made again to the end ends where the uninterrupted run
   ends, if nothing its steps rely on is about to be collected. A cut inside EXECUTE needs no such condition.
   */
  lemma WholeRunConverges(v: View, r: RunInput, w: View, h: Hashes)
    requires r.graph.Some? ==> DistinctIds(r.graph.value.services)
    requires MayEndIn(v, r, w, h)
    requires Completes(v, r, h) && PartlyCollected(Run(v, StepsOf(r), h).view, w, Desired(r)) ==>
               forall i :: 0 <= i < |StepsOf(r)| ==> Secure(Run(v, StepsOf(r), h).view, StepsOf(r)[i], Desired(r), h)
    ensures RunView(w, r, h) == RunView(v, r, h)
  {
    hide Run, StepsOf, AllCalls, Desired, Executes, Secure, Shrunk, PartlyCollected, Collect;
    var steps := StepsOf(r);
    if w == v {
    } else if Executes(r) && w in AllCalls(v, steps, h) {
      StepsWellFormed(r);
      var j :| 0 <= j < |AllCalls(v, steps, h)| && AllCalls(v, steps, h)[j] == w;
      CrashConvergence(v, steps, j, h);
    } else {
      PartlyShrinks(Run(v, steps, h).view, w, Desired(r));
      ResumeCollected(v, r, w, h);
    }
  }

  // ---------- validated plans ----------

  /**
   A plan of desired services only, within their own networks, that sets neither `wanfw.managed` nor `wanfw.service`, with nothing
   parked, whose exposure network is not called like a service's.
   */
  ghost predicate Ordinary(r: RunInput) {
    r.graph.Some? ==>
      var graph := r.graph.value;
      && DistinctIds(graph.services)
      && (forall i :: 0 <= i < |graph.services| ==> OrdinaryService(graph.services[i], Desired(r)) && !IsParked(r.gate, graph.services[i].id))
      && (graph.networkPlan.Some? ==> forall id :: graph.networkPlan.value.attachmentNetwork != ServiceNetworkName(id))
  }

  ghost predicate OrdinaryService(s: ServicePlan, desired: set<string>) {
    s.id in desired && ExecuteProperties.OwnNetworksOnly(s) && Managed !in s.spec.labels && ServiceLabel !in s.spec.labels
  }

  /** No two services of these runs have different ids of which one is a prefix of the other. */
  ghost predicate Unrelated(runs: seq<RunInput>) {
    forall k, i, m, o :: 0 <= k < |runs| && 0 <= m < |runs| && ActiveIn(runs[k], i) && ActiveIn(runs[m], o) ==>
      Service(runs[k], i).id == Service(runs[m], o).id || !Related(Service(runs[k], i).id, Service(runs[m], o).id)
  }

  /** The network is that of a service of the plan, or the exposure network. */
  ghost predicate PlannedNetwork(r: RunInput, n: string) {
    && r.graph.Some?
    && ((exists i :: ActiveIn(r, i) && n == ServiceNetworkName(Service(r, i).id))
        || (r.graph.value.networkPlan.Some? && n == r.graph.value.networkPlan.value.attachmentNetwork))
  }

  ghost predicate PlannedContainer(r: RunInput, n: string) {
    n == PROXY_CONTAINER_NAME || exists i :: ActiveIn(r, i) && n == ServiceContainerName(Service(r, i).id)
  }

  lemma OwnNetwork(s: ServicePlan, n: string)
    requires ExecuteProperties.OwnNetworksOnly(s) && n in WithPrimaryNetwork(s.id, s.spec).networks
    ensures n == ServiceNetworkName(s.id)
  {
  }

  lemma LoopStep(r: RunInput, m: nat) returns (i: int)
    requires r.graph.Some? && m < |AllServiceSteps(r.graph.value.services, r.gate)|
    ensures var st := AllServiceSteps(r.graph.value.services, r.gate)[m]; st.Skip? || (ActiveIn(r, i) && StepOf(Service(r, i), st))
  {
    hide AllServiceSteps, StepOf;
    ServiceLoopSteps(r.graph.value.services, r.gate, m);
    var st := AllServiceSteps(r.graph.value.services, r.gate)[m];
    i := 0;
    if !st.Skip? {
      i :| 0 <= i < |r.graph.value.services| && !IsParked(r.gate, r.graph.value.services[i].id) && StepOf(r.graph.value.services[i], st);
    }
  }

  /** The networks the steps of an ordinary plan ensure or attach to. */
  lemma StepNetworks(r: RunInput, m: nat)
    requires Ordinary(r) && m < |StepsOf(r)|
    ensures StepsOf(r)[m].EnsureNetwork? ==> PlannedNetwork(r, StepsOf(r)[m].name)
    ensures StepsOf(r)[m].Connect? ==> PlannedNetwork(r, StepsOf(r)[m].network)
  {
    hide AllServiceSteps, Desired, WithPrimaryNetwork, ExecuteProperties.OwnNetworksOnly, ServiceNetworkName, ServiceContainerName, IsParked;
    var loop := AllServiceSteps(r.graph.value.services, r.gate);
    if m < |loop| {
      var i := LoopStep(r, m);
      if !loop[m].Skip? && loop[m].Connect? {
        OwnNetwork(Service(r, i), loop[m].network);
      }
    } else {
      forall i | 0 <= i < |r.graph.value.services|
        ensures ActiveIn(r, i)
      {
      }
      ProxyNetworks(r.graph.value, r.vols, m - |loop|);
      if i :| 0 <= i < |r.graph.value.services| && StepsOf(r)[m].Connect? && StepsOf(r)[m].network == ServiceNetworkName(r.graph.value.services[i].id) {
        assert ActiveIn(r, i);
      }
    }
  }

  lemma ProxyNetworks(graph: PlanGraph, vols: ProxyVolumes, m: nat)
    requires m < |ProxySteps(graph, vols) + ReloadSteps(graph)|
    ensures var st := (ProxySteps(graph, vols) + ReloadSteps(graph))[m];
            && (st.EnsureNetwork? || st.Connect? ==> graph.networkPlan.Some?)
            && (st.EnsureNetwork? ==> st.name == graph.networkPlan.value.attachmentNetwork)
            && (st.Connect? && st.network != graph.networkPlan.value.attachmentNetwork ==>
                exists i :: 0 <= i < |graph.services| && st.network == ServiceNetworkName(graph.services[i].id))
  {
    hide ServiceNetworkName;
  }

  /** Planned networks are there after a successful pass, unless the only one is an exposure network without proxy. */
  lemma PlannedThere(v: View, r: RunInput, n: string, h: Hashes)
    requires PlannedNetwork(r, n) && Run(v, StepsOf(r), h).ok
    requires n == "" ==> exists i :: ActiveIn(r, i) && n == ServiceNetworkName(Service(r, i).id)
    ensures n in Run(v, StepsOf(r), h).view.networks
  {
    hide Run, AllServiceSteps, ServiceNetworkName, ProxySpec, ReloadSteps, IsParked;
    var graph, steps := r.graph.value, StepsOf(r);
    var loop := AllServiceSteps(graph.services, r.gate);
    if i :| ActiveIn(r, i) && n == ServiceNetworkName(Service(r, i).id) {
      var k := LoopHasNetworks(graph.services, r.gate, i);
      assert steps[k] == loop[k];
      NetworksEnsured(v, steps, k, h);
    } else {
      assert steps[|loop|] == EnsureNetwork(n, "", true);
      NetworksEnsured(v, steps, |loop|, h);
    }
  }

  /** A planned network is not about to be collected. */
  lemma PlannedStays(views: seq<View>, runs: seq<RunInput>, j: nat, n: string, h: Hashes)
    requires IsHistory(views, runs, h) && 0 < j <= |runs| && n in views[j].networks
    requires PlannedNetwork(runs[j - 1], n) && Ordinary(runs[j - 1])
    ensures !Collectable(views[j].networks[n], Desired(runs[j - 1]))
  {
    hide MayEndIn, Desired, ServiceNetworkName, NetworkLabels, Strip, Collectable, ExecuteProperties.OwnNetworksOnly;
    var k := NetworkOrigin(views, runs, j, n, h);
    var l, r := views[j].networks[n], runs[j - 1];
    NetworkLabelsOf(n, "", true, Desired(r), h);
    if i :| ActiveIn(runs[k], i) && n == ServiceNetworkName(Service(runs[k], i).id) {
      var id := Service(runs[k], i).id;
      NetworkLabelsOf(n, id, false, Desired(r), h);
      if m :| ActiveIn(r, m) && n == ServiceNetworkName(Service(r, m).id) {
        NetworkNameInjective(id, Service(r, m).id);
        assert OrdinaryService(Service(r, m), Desired(r));
      }
    }
  }

  lemma NetworkLabelsOf(n: string, service: string, core: bool, desired: set<string>, h: Hashes)
    ensures Collectable(Strip(NetworkLabels(n, service, core, "", h)), desired) ==> service != "" && service !in desired
  {
  }

  /** Nor a planned volume, if no other service is related to its own. */
  lemma VolumeStays(views: seq<View>, runs: seq<RunInput>, j: nat, o: int, n: string, h: Hashes)
    requires IsHistory(views, runs, h) && 0 < j <= |runs| && n in views[j].volumes && Unrelated(runs)
    requires ActiveIn(runs[j - 1], o) && n in NamedVolumes(Service(runs[j - 1], o).id, Service(runs[j - 1], o).spec.mounts) && Ordinary(runs[j - 1])
    ensures !Collectable(views[j].volumes[n], Desired(runs[j - 1]))
  {
    hide MayEndIn, Desired, NamedVolumes, VolumeLabels, Strip, Collectable, PassesFor, Related, ExecuteProperties.OwnNetworksOnly;
    var k := VolumeOrigin(views, runs, j, n, h);
    var r := runs[j - 1];
    var i :| ActiveIn(runs[k], i) && n in NamedVolumes(Service(runs[k], i).id, Service(runs[k], i).spec.mounts)
             && views[j].volumes[n] == Strip(VolumeLabels(n, Service(runs[k], i).id, Service(runs[k], i).removeVolumes, "", h));
    var s, t := Service(runs[k], i), Service(r, o);
    NamedVolumesExactly(s.id, s.spec.mounts, n);
    NamedVolumesExactly(t.id, t.spec.mounts, n);
    SharedExactly(s.id, t.id);
    assert OrdinaryService(t, Desired(r));
    VolumeLabelsOf(n, s.id, s.removeVolumes, Desired(r), h);
  }

  lemma VolumeLabelsOf(n: string, service: string, rm: bool, desired: set<string>, h: Hashes)
    ensures Collectable(Strip(VolumeLabels(n, service, rm, "", h)), desired) ==> service != "" && service !in desired
  {
  }

  /** Nor the container of a planned service, nor the proxy. */
  lemma ContainerStays(views: seq<View>, runs: seq<RunInput>, j: nat, n: string, h: Hashes)
    requires IsHistory(views, runs, h) && 0 < j <= |runs| && n in views[j].containers
    requires forall k :: 0 <= k < |runs| ==> Ordinary(runs[k])
    requires PlannedContainer(runs[j - 1], n)
    ensures !Collectable(views[j].containers[n].labels, Desired(runs[j - 1]))
  {
    hide MayEndIn, Desired, Collectable, ServiceContainerName, LabelsFor, ExecuteProperties.OwnNetworksOnly;
    var k := ContainerOrigin(views, runs, j, n, h);
    var l, r := views[j].containers[n].labels, runs[j - 1];
    ProxyNotCollectable(l, Desired(r));
    if !ProxyLabels(l) {
      var i :| ActiveIn(runs[k], i) && n == ServiceContainerName(Service(runs[k], i).id) && l == LabelsFor(Service(runs[k], i), h);
      var s := Service(runs[k], i);
      NamesDiffer(s.id);
      var o :| ActiveIn(r, o) && n == ServiceContainerName(Service(r, o).id);
      NameInjective(s.id, Service(r, o).id);
      assert OrdinaryService(s, Desired(runs[k])) && OrdinaryService(Service(r, o), Desired(r));
      SparedExactly(s, Desired(r), h);
    }
  }

  /** In a history of ordinary, unrelated plans every step is secure when OBSERVE begins. */
  lemma StepSecure(views: seq<View>, runs: seq<RunInput>, j: nat, v: View, m: nat, h: Hashes)
    requires IsHistory(views, runs, h) && 0 < j == |runs| && Unrelated(runs)
    requires forall k :: 0 <= k < |runs| ==> Ordinary(runs[k])
    requires Run(v, StepsOf(runs[j - 1]), h).ok && views[j] == Run(v, StepsOf(runs[j - 1]), h).view && m < |StepsOf(runs[j - 1])|
    ensures Secure(views[j], StepsOf(runs[j - 1])[m], Desired(runs[j - 1]), h)
  {
    hide Run, AllServiceSteps, Desired, Collectable, DataMayGo, FreshContainer, Ordinary, Unrelated, ServiceNetworkName, ServiceContainerName, NamedVolumes, WithPrimaryNetwork, IsParked, IsHistory, ProxySpec;
    ViewsCount(views, runs, h);
    var r := runs[j - 1];
    var st, u := StepsOf(r)[m], views[j];
    var loop := AllServiceSteps(r.graph.value.services, r.gate);
    StepNetworks(r, m);
    if st.EnsureNetwork? {
      NetworksEnsured(v, StepsOf(r), m, h);
      PlannedStays(views, runs, j, st.name, h);
    } else if st.Connect? {
      ConnectNamed(r, m);
      PlannedThere(v, r, st.network, h);
      PlannedStays(views, runs, j, st.network, h);
    } else if st.EnsureVolume? {
      var i := LoopStep(r, m);
      VolumesEnsured(v, StepsOf(r), m, h);
      VolumeStays(views, runs, j, i, st.name, h);
    } else if st.EnsureContainer? && st.name in u.containers {
      if m < |loop| {
        var i := LoopStep(r, m);
        assert ActiveIn(r, i) && st.name == ServiceContainerName(Service(r, i).id);
      }
      ContainerStays(views, runs, j, st.name, h);
    }
  }

  /** A connect step of the proxy exists only with a named exposure network. */
  lemma ConnectNamed(r: RunInput, m: nat)
    requires Ordinary(r) && m < |StepsOf(r)| && StepsOf(r)[m].Connect?
    ensures StepsOf(r)[m].network == "" ==> exists i :: ActiveIn(r, i) && "" == ServiceNetworkName(Service(r, i).id)
  {
    hide AllServiceSteps, Desired, WithPrimaryNetwork, ExecuteProperties.OwnNetworksOnly, ServiceNetworkName, ServiceContainerName, IsParked;
    var loop := AllServiceSteps(r.graph.value.services, r.gate);
    if m < |loop| {
      var i := LoopStep(r, m);
      OwnNetwork(Service(r, i), loop[m].network);
    } else {
      ProxyNetworks(r.graph.value, r.vols, m - |loop|);
      if i :| 0 <= i < |r.graph.value.services| && StepsOf(r)[m].network == ServiceNetworkName(r.graph.value.services[i].id) {
        assert ActiveIn(r, i);
      }
    }
  }

  /**
   In any history of ordinary plans with unrelated ids, every run that is cut off, after any call of EXECUTE or OBSERVE, and then
   made again to the end leaves exactly what the uninterrupted run would have left.
   */
  lemma OrdinaryRunsConverge(views: seq<View>, runs: seq<RunInput>, j: nat, w: View, h: Hashes)
    requires IsHistory(views, runs, h) && j < |runs| && Unrelated(runs[..j + 1])
    requires forall k :: 0 <= k <= j ==> Ordinary(runs[k])
    requires MayEndIn(views[j], runs[j], w, h)
    ensures RunView(w, runs[j], h) == RunView(views[j], runs[j], h)
  {
    hide Run, StepsOf, Desired, Executes, Unrelated, MayEndIn, Secure, IsHistory, PartlyCollected;
    ViewsCount(views, runs, h);
    var v, r := views[j], runs[j];
    assert r.graph.Some? ==> DistinctIds(r.graph.value.services);
    hide Ordinary;
    if Completes(v, r, h) {
      var past, inputs := views[..j + 1] + [Run(v, StepsOf(r), h).view], runs[..j + 1];
      ObservedHistory(views, runs, j, h);
      forall i | 0 <= i < |StepsOf(r)|
        ensures Secure(Run(v, StepsOf(r), h).view, StepsOf(r)[i], Desired(r), h)
      {
        StepSecure(past, inputs, j + 1, v, i, h);
      }
    }
    WholeRunConverges(v, r, w, h);
  }

  lemma ViewsCount(views: seq<View>, runs: seq<RunInput>, h: Hashes)
    requires IsHistory(views, runs, h)
    ensures |views| == |runs| + 1
  {
  }
}

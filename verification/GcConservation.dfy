/**
 Conservation under garbage collection, over any sequence of reconcile runs: complete ones, failing ones, ones cut off after
 any Docker call of EXECUTE or OBSERVE, and ones whose documents do not all load. Plans may set any label, `wanfw.*` included.
 */
module GcConservation {
  import opened Options
  import opened ContainerSpecs
  import opened Plans
  import opened DockerView
  import opened Quiescence
  import opened ExecuteStage
  import opened ObserveStage
  import opened ReconcileRun
  import opened Provenance
  import ExecuteProperties

  const EMPTY := View(map[], map[], map[])

  ghost predicate OwnedBy(labels: Labels, id: string) { id != "" && ServiceLabel in labels && labels[ServiceLabel] == id }

  /** EXECUTE of the run works on its i-th service. */
  ghost predicate ActiveIn(r: RunInput, i: int) { r.graph.Some? && Active(r.graph.value, r.gate, i) }

  function Service(r: RunInput, i: int): ServicePlan
    requires r.graph.Some? && 0 <= i < |r.graph.value.services|
  {
    r.graph.value.services[i]
  }

  // ---------- which containers collection spares ----------

  /** The service a container is labelled with: `spec.labels` comes last. */
  function LabelledFor(s: ServicePlan): string { if ServiceLabel in s.spec.labels then s.spec.labels[ServiceLabel] else s.id }

  /** What a plan's own labels and the desired services decide about the service's container. */
  predicate Spared(s: ServicePlan, desired: set<string>) {
    || (Managed in s.spec.labels && s.spec.labels[Managed] != "true")
    || LabelledFor(s) == "" || LabelledFor(s) in desired
  }

  lemma SparedExactly(s: ServicePlan, desired: set<string>, h: Hashes)
    ensures Collectable(LabelsFor(s, h), desired) <==> !Spared(s, desired)
  {
  }

  // ---------- one run ----------

  /** A run in which some listed document does not load changes nothing in Docker, wherever it is cut off. */
  lemma BrokenDocumentFreezes(v: View, r: RunInput, w: View, h: Hashes)
    requires || (r.listing.framework.Some? && !r.listing.framework.value.Loads?)
             || (r.listing.services.Readable? && exists e :: e in r.listing.services.entries && IsDocument(e) && !e.content.Loads?)
             || (r.listing.plugins.Readable? && exists e :: e in r.listing.plugins.entries && IsDocument(e) && !e.content.Loads?)
    requires MayEndIn(v, r, w, h)
    ensures w == v && RunView(v, r, h) == v
  {
    hide LoadPasses;
    LoadPassesExactly(r.listing);
  }

  /** `w` is `u` without some collectable objects. */
  ghost predicate Shrunk(u: View, w: View, desired: set<string>) {
    && Thinned(u.networks, w.networks, OrphanNetworks(u.networks, desired))
    && Thinned(u.volumes, w.volumes, ExpiredVolumes(u.volumes, desired))
    && Thinned(u.containers, w.containers, OrphanContainers(u.containers, desired))
  }

  lemma PartlyShrinks(u: View, w: View, desired: set<string>)
    requires PartlyCollected(u, w, desired)
    ensures Shrunk(u, w, desired)
  {
    hide Collectable, DataMayGo;
  }

  /** Every world a run may end in comes from what its steps made, by removing collectable objects. */
  lemma RunTrace(v: View, r: RunInput, w: View, h: Hashes) returns (u: View)
    requires MayEndIn(v, r, w, h)
    ensures Accounted(v, u, StepsOf(r), h) && Shrunk(u, w, Desired(r))
  {
    hide Accounted, StepsOf, Run, AllCalls, Desired, Executes, Collectable, DataMayGo, PartlyCollected;
    var steps := StepsOf(r);
    if w == v {
      u := v;
      AccountedSame(v, steps, h);
    } else if Executes(r) && w in AllCalls(v, steps, h) {
      u := w;
      var j :| 0 <= j < |AllCalls(v, steps, h)| && AllCalls(v, steps, h)[j] == w;
      AccountedCalls(v, steps, j, h);
    } else {
      u := Run(v, steps, h).view;
      AccountedRun(v, steps, h);
      PartlyShrinks(u, w, Desired(r));
    }
  }

  lemma CollectableOwned(l: Labels, desired: set<string>)
    requires Collectable(l, desired)
    ensures exists id :: OwnedBy(l, id) && id !in desired
  {
    assert OwnedBy(l, l[ServiceLabel]);
  }

  /** What a run declares about a network it makes: it is that of an active service, labelled for it, or the unlabelled exposure network. */
  ghost predicate NetworkDeclared(r: RunInput, n: string, l: Labels, h: Hashes) {
    && r.graph.Some?
    && (forall i :: ActiveIn(r, i) && n == ServiceNetworkName(Service(r, i).id) ==> l == Strip(NetworkLabels(n, Service(r, i).id, false, "", h)))
    && ((exists i :: ActiveIn(r, i) && n == ServiceNetworkName(Service(r, i).id)) || l == Strip(NetworkLabels(n, "", true, "", h)))
  }

  ghost predicate VolumeDeclared(r: RunInput, n: string, l: Labels, h: Hashes) {
    exists i :: ActiveIn(r, i) && n in NamedVolumes(Service(r, i).id, Service(r, i).spec.mounts)
                && l == Strip(VolumeLabels(n, Service(r, i).id, Service(r, i).removeVolumes, "", h))
  }

  ghost predicate ContainerDeclared(r: RunInput, n: string, l: Labels, h: Hashes) {
    || (exists i :: ActiveIn(r, i) && n == ServiceContainerName(Service(r, i).id) && l == LabelsFor(Service(r, i), h))
    || (n == PROXY_CONTAINER_NAME && ProxyLabels(l))
  }

  lemma NetworkOfRun(r: RunInput, n: string, l: Labels, h: Hashes)
    requires NetworkMade(StepsOf(r), n, l, h)
    ensures NetworkDeclared(r, n, l, h)
  {
    hide PlanSteps, NetworkLabels, Strip;
    PlanNetwork(r.graph.value, r.gate, r.vols, n, l, h);
    if i :| Active(r.graph.value, r.gate, i) && n == ServiceNetworkName(r.graph.value.services[i].id) {
      assert ActiveIn(r, i) && Service(r, i) == r.graph.value.services[i];
    }
  }

  lemma VolumeOfRun(r: RunInput, n: string, l: Labels, h: Hashes)
    requires VolumeMade(StepsOf(r), n, l, h)
    ensures VolumeDeclared(r, n, l, h)
  {
    hide PlanSteps, VolumeLabels, Strip, NamedVolumes;
    PlanVolume(r.graph.value, r.gate, r.vols, n, l, h);
    var i :| Active(r.graph.value, r.gate, i) && n in NamedVolumes(r.graph.value.services[i].id, r.graph.value.services[i].spec.mounts)
             && l == Strip(VolumeLabels(n, r.graph.value.services[i].id, r.graph.value.services[i].removeVolumes, "", h));
    assert ActiveIn(r, i) && Service(r, i) == r.graph.value.services[i];
  }

  lemma ContainerOfRun(r: RunInput, n: string, l: Labels, h: Hashes)
    requires ContainerMade(StepsOf(r), n, l, h)
    ensures ContainerDeclared(r, n, l, h)
  {
    hide PlanSteps, LabelsFor;
    PlanContainer(r.graph.value, r.gate, r.vols, n, l, h);
    if i :| Active(r.graph.value, r.gate, i) && n == ServiceContainerName(r.graph.value.services[i].id) && l == LabelsFor(r.graph.value.services[i], h) {
      assert ActiveIn(r, i) && Service(r, i) == r.graph.value.services[i];
    }
  }

  /** Whatever is new after a run was declared by it; networks and volumes that stay keep their labels; containers keep theirs or are made again. */
  lemma ObjectsDeclared(v: View, r: RunInput, w: View, h: Hashes)
    requires MayEndIn(v, r, w, h)
    ensures forall n :: n in w.networks ==> if n in v.networks then w.networks[n] == v.networks[n] else NetworkDeclared(r, n, w.networks[n], h)
    ensures forall n :: n in w.volumes ==> if n in v.volumes then w.volumes[n] == v.volumes[n] else VolumeDeclared(r, n, w.volumes[n], h)
    ensures forall n :: n in w.containers ==>
              (n in v.containers && w.containers[n].labels == v.containers[n].labels) || ContainerDeclared(r, n, w.containers[n].labels, h)
  {
    hide StepsOf, NetworkMade, VolumeMade, ContainerMade, NetworkDeclared, VolumeDeclared, ContainerDeclared, Desired, OrphanNetworks, OrphanContainers, ExpiredVolumes, MayEndIn;
    var u := RunTrace(v, r, w, h);
    forall n | n in w.networks && n !in v.networks
      ensures NetworkDeclared(r, n, w.networks[n], h)
    {
      NetworkOfRun(r, n, w.networks[n], h);
    }
    forall n | n in w.volumes && n !in v.volumes
      ensures VolumeDeclared(r, n, w.volumes[n], h)
    {
      VolumeOfRun(r, n, w.volumes[n], h);
    }
    forall n | n in w.containers && !(n in v.containers && w.containers[n].labels == v.containers[n].labels)
      ensures ContainerDeclared(r, n, w.containers[n].labels, h)
    {
      ContainerOfRun(r, n, w.containers[n].labels, h);
    }
  }

  /** A network or volume that a run, cut off or not, removes is labelled with a service absent from desired state; a volume also opted in. */
  lemma OnlyOrphansGo(v: View, r: RunInput, w: View, h: Hashes)
    requires MayEndIn(v, r, w, h)
    ensures forall n :: n in v.networks && n !in w.networks ==> exists id :: OwnedBy(v.networks[n], id) && id !in Desired(r)
    ensures forall n :: n in v.volumes && n !in w.volumes ==>
              DataMayGo(v.volumes[n]) && exists id :: OwnedBy(v.volumes[n], id) && id !in Desired(r)
  {
    hide StepsOf, NetworkMade, VolumeMade, ContainersTraced, Desired, DataMayGo, Collectable, MayEndIn, OwnedBy;
    var u := RunTrace(v, r, w, h);
    forall n | n in v.networks && n !in w.networks
      ensures exists id :: OwnedBy(v.networks[n], id) && id !in Desired(r)
    {
      CollectableOwned(u.networks[n], Desired(r));
    }
    forall n | n in v.volumes && n !in w.volumes
      ensures DataMayGo(v.volumes[n]) && exists id :: OwnedBy(v.volumes[n], id) && id !in Desired(r)
    {
      CollectableOwned(u.volumes[n], Desired(r));
    }
  }

  /**
   A container that a whole run removes for good carried a service absent from desired state when the run found it, or belongs
   to a service of the plan whose own labels do not spare it.
   */
  lemma ContainersLost(v: View, r: RunInput, n: string, h: Hashes)
    requires n in v.containers && n !in RunView(v, r, h).containers
    ensures || (exists id :: OwnedBy(v.containers[n].labels, id) && id !in Desired(r))
            || (exists i :: ActiveIn(r, i) && n == ServiceContainerName(Service(r, i).id) && !Spared(Service(r, i), Desired(r)))
  {
    hide StepsOf, Run, NetworksGrown, VolumesGrown, ContainerMade, Desired, Collectable, OwnedBy, Spared, LabelsFor, Executes;
    var u := Run(v, StepsOf(r), h).view;
    AccountedRun(v, StepsOf(r), h);
    var l := u.containers[n].labels;
    assert Collectable(l, Desired(r));
    if l == v.containers[n].labels {
      CollectableOwned(l, Desired(r));
    } else {
      ContainerOfRun(r, n, l, h);
      if ProxyLabels(l) {
        ProxyNotCollectable(l, Desired(r));
      }
      var i :| ActiveIn(r, i) && n == ServiceContainerName(Service(r, i).id) && l == LabelsFor(Service(r, i), h);
      SparedExactly(Service(r, i), Desired(r), h);
    }
  }

  lemma ProxyNotCollectable(l: Labels, desired: set<string>)
    ensures ProxyLabels(l) ==> !Collectable(l, desired)
  {
  }

  /** A container that a run makes for a service survives the run's OBSERVE exactly when the plan's labels spare it. */
  lemma NewContainerFate(v: View, r: RunInput, i: nat, h: Hashes)
    requires ActiveIn(r, i) && DistinctIds(r.graph.value.services) && Completes(v, r, h)
    requires var n, spec := ServiceContainerName(Service(r, i).id), WithPrimaryNetwork(Service(r, i).id, Service(r, i).spec);
             !(n in v.containers && Matches(v.containers[n], spec, h))
    ensures var n := ServiceContainerName(Service(r, i).id);
            && n in Run(v, StepsOf(r), h).view.containers
            && (n in RunView(v, r, h).containers <==> Spared(Service(r, i), Desired(r)))
  {
    hide Run, PlanSteps, Desired, Spared, Collectable, Executes, Matches, FreshContainer;
    var s, steps := Service(r, i), StepsOf(r);
    PlanStepsWellFormed(r.graph.value, r.gate, r.vols);
    var m := PlanHasContainer(r.graph.value, r.gate, r.vols, i);
    MadeAnew(v, steps, m, h);
    SparedExactly(s, Desired(r), h);
  }

  lemma PlanHasContainer(graph: PlanGraph, gate: map<string, bool>, vols: ProxyVolumes, i: nat) returns (m: nat)
    requires Active(graph, gate, i)
    ensures m < |PlanSteps(graph, gate, vols)|
    ensures var s := graph.services[i];
            PlanSteps(graph, gate, vols)[m] == EnsureContainer(ServiceContainerName(s.id), WithPrimaryNetwork(s.id, s.spec), s.id, false)
  {
    hide AllServiceSteps, ProxySteps, ReloadSteps, ServiceContainerName, WithPrimaryNetwork;
    m := LoopHasContainers(graph.services, gate, i);
  }

  // ---------- whole histories ----------

  /** The worlds after any number of runs from an empty Docker, each run complete, failed or cut off. */
  ghost predicate IsHistory(views: seq<View>, runs: seq<RunInput>, h: Hashes) {
    && |views| == |runs| + 1 && views[0] == EMPTY
    && forall i :: 0 <= i < |runs| ==> MayEndIn(views[i], runs[i], views[i + 1], h)
  }

  /** Run `j` was not cut off and got through OBSERVE. */
  ghost predicate CompleteRun(views: seq<View>, runs: seq<RunInput>, j: nat, h: Hashes)
    requires j < |runs| && j + 1 < |views|
  {
    Completes(views[j], runs[j], h) && views[j + 1] == RunView(views[j], runs[j], h)
  }

  /** The run that made a network which exists after `j` runs; it has been there since, as it was declared then. */
  lemma {:induction false} NetworkOrigin(views: seq<View>, runs: seq<RunInput>, j: nat, n: string, h: Hashes) returns (k: nat)
    requires IsHistory(views, runs, h) && j <= |runs| && n in views[j].networks
    ensures k < j && n !in views[k].networks && NetworkDeclared(runs[k], n, views[j].networks[n], h)
    ensures forall i :: k < i <= j ==> n in views[i].networks && views[i].networks[n] == views[j].networks[n]
  {
    hide MayEndIn, NetworkDeclared;
    ObjectsDeclared(views[j - 1], runs[j - 1], views[j], h);
    if n in views[j - 1].networks {
      k := NetworkOrigin(views, runs, j - 1, n, h);
    } else {
      k := j - 1;
    }
  }

  /** The same for a volume. */
  lemma {:induction false} VolumeOrigin(views: seq<View>, runs: seq<RunInput>, j: nat, n: string, h: Hashes) returns (k: nat)
    requires IsHistory(views, runs, h) && j <= |runs| && n in views[j].volumes
    ensures k < j && n !in views[k].volumes && VolumeDeclared(runs[k], n, views[j].volumes[n], h)
    ensures forall i :: k < i <= j ==> n in views[i].volumes && views[i].volumes[n] == views[j].volumes[n]
  {
    hide MayEndIn, VolumeDeclared;
    ObjectsDeclared(views[j - 1], runs[j - 1], views[j], h);
    if n in views[j - 1].volumes {
      k := VolumeOrigin(views, runs, j - 1, n, h);
    } else {
      k := j - 1;
    }
  }

  /** The latest run whose plan gave a container the labels it has after `j` runs. */
  lemma {:induction false} ContainerOrigin(views: seq<View>, runs: seq<RunInput>, j: nat, n: string, h: Hashes) returns (k: nat)
    requires IsHistory(views, runs, h) && j <= |runs| && n in views[j].containers
    ensures k < j && ContainerDeclared(runs[k], n, views[j].containers[n].labels, h)
    ensures forall i :: k < i <= j ==> n in views[i].containers && views[i].containers[n].labels == views[j].containers[n].labels
  {
    hide MayEndIn, ContainerDeclared;
    ObjectsDeclared(views[j - 1], runs[j - 1], views[j], h);
    if ContainerDeclared(runs[j - 1], n, views[j].containers[n].labels, h) {
      k := j - 1;
    } else {
      k := ContainerOrigin(views, runs, j - 1, n, h);
    }
  }

  /** A volume disappears only in a run whose desired state lacks its service, and only if the run that made it declared `removeVolumesOnDelete` for it. */
  lemma VolumeLoss(views: seq<View>, runs: seq<RunInput>, j: nat, n: string, h: Hashes) returns (k: nat, i: nat)
    requires IsHistory(views, runs, h) && j < |runs| && n in views[j].volumes && n !in views[j + 1].volumes
    ensures k < j && n !in views[k].volumes && ActiveIn(runs[k], i)
    ensures var s := Service(runs[k], i); n in NamedVolumes(s.id, s.spec.mounts) && s.removeVolumes && s.id !in Desired(runs[j])
  {
    hide MayEndIn, Desired, NamedVolumes, VolumeLabels, Strip, OwnedBy, DataMayGo, ExecuteStage.IsParked;
    OnlyOrphansGo(views[j], runs[j], views[j + 1], h);
    k := VolumeOrigin(views, runs, j, n, h);
    var l := views[j].volumes[n];
    i :| ActiveIn(runs[k], i) && n in NamedVolumes(Service(runs[k], i).id, Service(runs[k], i).spec.mounts)
         && l == Strip(VolumeLabels(n, Service(runs[k], i).id, Service(runs[k], i).removeVolumes, "", h));
    VolumeLabelsSay(n, Service(runs[k], i).id, Service(runs[k], i).removeVolumes, h);
  }

  lemma VolumeLabelsSay(n: string, service: string, rm: bool, h: Hashes)
    ensures var l := Strip(VolumeLabels(n, service, rm, "", h)); (DataMayGo(l) <==> rm) && forall id :: OwnedBy(l, id) ==> id == service
  {
  }

  lemma NetworkLabelsSay(n: string, service: string, h: Hashes, desired: set<string>)
    ensures Collectable(Strip(NetworkLabels(n, service, false, "", h)), desired) <==> service != "" && service !in desired
  {
  }

  /**
   No network outlives its service: a network that some earlier run made for a service, and that is still there after a
   complete run, belongs to a desired service. (The empty id is never written as a label.)
   */
  lemma NoOrphanNetwork(views: seq<View>, runs: seq<RunInput>, k: nat, i: nat, j: nat, h: Hashes)
    requires IsHistory(views, runs, h) && k <= j < |runs| && CompleteRun(views, runs, j, h) && ActiveIn(runs[k], i)
    requires var n := ServiceNetworkName(Service(runs[k], i).id);
             n !in views[k].networks && forall m :: k < m <= j + 1 ==> n in views[m].networks
    ensures Service(runs[k], i).id == "" || Service(runs[k], i).id in Desired(runs[j])
  {
    hide MayEndIn, Desired, Run, StepsOf, Collectable, NetworkLabels, Strip;
    var id := Service(runs[k], i).id;
    var n := ServiceNetworkName(id);
    ObjectsDeclared(views[k], runs[k], views[k + 1], h);
    assert views[k + 1].networks[n] == Strip(NetworkLabels(n, id, false, "", h));
    NetworkStays(views, runs, k + 1, j + 1, n, h);
    NetworkLabelsSay(n, id, h, Desired(runs[j]));
    assert !Collectable(views[j + 1].networks[n], Desired(runs[j]));
  }

  lemma {:induction false} NetworkStays(views: seq<View>, runs: seq<RunInput>, k: nat, j: nat, n: string, h: Hashes)
    requires IsHistory(views, runs, h) && k <= j <= |runs| && forall m :: k <= m <= j ==> n in views[m].networks
    ensures views[j].networks[n] == views[k].networks[n]
    decreases j
  {
    hide MayEndIn;
    if k < j {
      NetworkStays(views, runs, k, j - 1, n, h);
      ObjectsDeclared(views[j - 1], runs[j - 1], views[j], h);
    }
  }

  /** The world OBSERVE finds in run `j`, as the end of a history of its own. */
  lemma ObservedHistory(views: seq<View>, runs: seq<RunInput>, j: nat, h: Hashes)
    requires IsHistory(views, runs, h) && j < |runs| && Completes(views[j], runs[j], h)
    ensures IsHistory(views[..j + 1] + [Run(views[j], StepsOf(runs[j]), h).view], runs[..j + 1], h)
  {
    hide Run, AllCalls, StepsOf, Executes, PartlyCollected;
    LastCall(views[j], StepsOf(runs[j]), h);
  }

  /**
   The fate of every container in every history: a container present when OBSERVE of a complete run begins was made from
   the plan of some run for the service it is named for, and it survives exactly when that plan's labels spare it.
   The proxy always survives.
   */
  lemma ContainerFate(views: seq<View>, runs: seq<RunInput>, j: nat, n: string, h: Hashes) returns (k: nat, i: nat)
    requires IsHistory(views, runs, h) && j < |runs| && CompleteRun(views, runs, j, h)
    requires n in Run(views[j], StepsOf(runs[j]), h).view.containers
    ensures n == PROXY_CONTAINER_NAME ==> n in views[j + 1].containers
    ensures n != PROXY_CONTAINER_NAME ==>
              && k <= j && ActiveIn(runs[k], i) && n == ServiceContainerName(Service(runs[k], i).id)
              && (n in views[j + 1].containers <==> Spared(Service(runs[k], i), Desired(runs[j])))
  {
    hide MayEndIn, Desired, Run, StepsOf, Collectable, Spared, LabelsFor, Executes;
    var u := Run(views[j], StepsOf(runs[j]), h).view;
    var past, inputs := views[..j + 1] + [u], runs[..j + 1];
    ObservedHistory(views, runs, j, h);
    k := ContainerOrigin(past, inputs, j + 1, n, h);
    i := 0;
    var l := u.containers[n].labels;
    assert n in views[j + 1].containers <==> !Collectable(l, Desired(runs[j]));
    assert ContainerDeclared(runs[k], n, l, h);
    if n == PROXY_CONTAINER_NAME {
      forall i | ActiveIn(runs[k], i)
        ensures n != ServiceContainerName(Service(runs[k], i).id)
      {
        NamesDiffer(Service(runs[k], i).id);
      }
      ProxyNotCollectable(l, Desired(runs[j]));
    } else {
      i :| ActiveIn(runs[k], i) && n == ServiceContainerName(Service(runs[k], i).id) && l == LabelsFor(Service(runs[k], i), h);
      SparedExactly(Service(runs[k], i), Desired(runs[j]), h);
    }
  }

  /** No container outlives its service, if no plan sets `wanfw.managed` or `wanfw.service`: what a complete run leaves belongs to desired services and the proxy. */
  lemma NoOrphanContainer(views: seq<View>, runs: seq<RunInput>, j: nat, n: string, h: Hashes)
    requires IsHistory(views, runs, h) && j < |runs| && CompleteRun(views, runs, j, h) && n in views[j + 1].containers
    requires forall k, i :: 0 <= k <= j && ActiveIn(runs[k], i) ==> Managed !in Service(runs[k], i).spec.labels && ServiceLabel !in Service(runs[k], i).spec.labels
    ensures n == PROXY_CONTAINER_NAME || exists id :: n == ServiceContainerName(id) && (id == "" || id in Desired(runs[j]))
  {
    hide MayEndIn, Desired, Run, StepsOf, Collectable, Executes, ActiveIn;
    var k, i := ContainerFate(views, runs, j, n, h);
  }

  // ---------- where the labels of a plan get in the way ----------

  function Labelled(id: string, labels: Labels): ServicePlan {
    ServicePlan(id, ContainerSpec("img", [], [], [], "", [], [], false, labels, NO_BASELINE), "deploy", false)
  }

  function ServiceFile(id: string): DirEntry { DirEntry(id + ".json", true, Loads(id)) }

  function ServiceFiles(services: seq<ServicePlan>): (r: seq<DirEntry>)
    ensures |r| == |services| && forall i :: 0 <= i < |r| ==> r[i] == ServiceFile(services[i].id)
  {
    seq(|services|, i requires 0 <= i < |services| => ServiceFile(services[i].id))
  }

  /** A run over these services, with a framework document, in which every stage passes and nothing is gated or exposed. */
  function PlainRun(services: seq<ServicePlan>, vols: ProxyVolumes): RunInput {
    RunInput(Listing(Some(Loads("framework")), Readable(ServiceFiles(services)), Readable([])),
             _ => Passed, Some(PlanGraph(services, None, None)), map[], vols, "plan", true)
  }

  lemma FileIsDocument(id: string)
    ensures IsDocument(ServiceFile(id)) && ServiceFile(id).content == Loads(id)
  {
    assert (id + ".json")[|id|..] == ".json";
  }

  lemma PlainFiles(services: seq<ServicePlan>)
    ensures forall e :: e in ServiceFiles(services) ==> IsDocument(e) && e.content.Loads?
    ensures forall id :: Loads(id) in Documents(ServiceFiles(services)) <==> exists i :: 0 <= i < |services| && services[i].id == id
  {
    hide IsDocument, ServiceFile, Documents;
    var entries := ServiceFiles(services);
    forall i | 0 <= i < |entries|
      ensures IsDocument(entries[i]) && entries[i].content == Loads(services[i].id)
    {
      FileIsDocument(services[i].id);
    }
  }

  lemma PlainDesired(services: seq<ServicePlan>, vols: ProxyVolumes)
    ensures var r := PlainRun(services, vols);
            && LoadPasses(r.listing) && Executes(r)
            && forall id :: id in Desired(r) <==> exists i :: 0 <= i < |services| && services[i].id == id
  {
    hide Ids, Documents, Errors, IsDocument, ServiceFiles;
    PlainFiles(services);
    LoadPassesExactly(PlainRun(services, vols).listing);
  }

  lemma PlainCompletes(services: seq<ServicePlan>, vols: ProxyVolumes, v: View, h: Hashes)
    requires DistinctIds(services) && forall i :: 0 <= i < |services| ==> services[i].spec.networks == []
    ensures Completes(v, PlainRun(services, vols), h)
  {
    hide Run, PlanSteps, LoadedState;
    PlainDesired(services, vols);
    ExecuteProperties.ValidatedPlanVerdict(PlanGraph(services, None, None), map[], vols, v, h);
  }

  /** A desired service whose plan sets `wanfw.service` to a service that is not desired: every run creates its container and collects it again. */
  lemma RelabelledIsRemadeForever(v: View, vols: ProxyVolumes, h: Hashes)
    requires ServiceContainerName("a") !in v.containers
    ensures var n, r := ServiceContainerName("a"), PlainRun([Labelled("a", map[ServiceLabel := "ghost"])], vols);
            && Completes(v, r, h) && "a" in Desired(r)
            && n in Run(v, StepsOf(r), h).view.containers && n !in RunView(v, r, h).containers
  {
    hide Run, StepsOf, Desired, Executes;
    var services := [Labelled("a", map[ServiceLabel := "ghost"])];
    var r := PlainRun(services, vols);
    PlainDesired(services, vols);
    PlainCompletes(services, vols, v, h);
    assert services[0].id == "a" && ActiveIn(r, 0) && Service(r, 0) == services[0];
    NewContainerFate(v, r, 0, h);
  }

  /** Two complete runs from an empty Docker. */
  function TwoRuns(r0: RunInput, r1: RunInput, h: Hashes): seq<View> {
    [EMPTY, RunView(EMPTY, r0, h), RunView(RunView(EMPTY, r0, h), r1, h)]
  }

  /** A container the first run makes, for a service the second does not have, is left behind if the second spares its labels. */
  lemma LeftBehind(r0: RunInput, r1: RunInput, i: nat, h: Hashes)
    requires Completes(EMPTY, r0, h) && Completes(RunView(EMPTY, r0, h), r1, h)
    requires ActiveIn(r0, i) && DistinctIds(r0.graph.value.services)
    requires forall m :: ActiveIn(r1, m) ==> Service(r1, m).id != Service(r0, i).id
    requires Spared(Service(r0, i), Desired(r0)) && Spared(Service(r0, i), Desired(r1))
    ensures var views, runs := TwoRuns(r0, r1, h), [r0, r1];
            && IsHistory(views, runs, h) && CompleteRun(views, runs, 0, h) && CompleteRun(views, runs, 1, h)
            && ServiceContainerName(Service(r0, i).id) in views[2].containers
  {
    hide Run, AllCalls, StepsOf, Desired, Executes, RunView, MayEndIn, Spared;
    var views, runs, id := TwoRuns(r0, r1, h), [r0, r1], Service(r0, i).id;
    var n := ServiceContainerName(id);
    WholeRun(EMPTY, r0, h);
    WholeRun(views[1], r1, h);
    assert IsHistory(views, runs, h);
    NewContainerFate(EMPTY, r0, i, h);
    AccountedRun(views[1], StepsOf(r1), h);
    NamesDiffer(id);
    var k, m := ContainerFate(views, runs, 1, n, h);
    NameInjective(Service(runs[k], m).id, id);
    assert k == 0;
    assert m == i;
  }

  /** A plan that denies `wanfw.managed`, or borrows the label of another desired service: its container outlives the service. */
  lemma OutlivesItsService(labels: Labels, vols: ProxyVolumes, h: Hashes)
    requires labels == map[Managed := "false"] || labels == map[ServiceLabel := "b"]
    ensures var a, b := Labelled("a", labels), Labelled("b", map[]);
            var r0, r1 := PlainRun([a, b], vols), PlainRun([b], vols);
            var views, runs := TwoRuns(r0, r1, h), [r0, r1];
            && IsHistory(views, runs, h) && CompleteRun(views, runs, 0, h) && CompleteRun(views, runs, 1, h)
            && "a" !in Desired(r1) && ServiceContainerName("a") in views[2].containers
  {
    hide *;
    LabelledIds(labels);
    var both, one := [Labelled("a", labels), Labelled("b", map[])], [Labelled("b", map[])];
    var r0, r1 := PlainRun(both, vols), PlainRun(one, vols);
    PairDesired(both, vols);
    PairDesired(one, vols);
    PairServices(labels, vols);
    PlainCompletes(both, vols, EMPTY, h);
    PlainCompletes(one, vols, RunView(EMPTY, r0, h), h);
    BorrowedSpared(labels, Desired(r0));
    BorrowedSpared(labels, Desired(r1));
    LeftBehind(r0, r1, 0, h);
  }

  lemma LabelledIds(labels: Labels)
    ensures var both, one := [Labelled("a", labels), Labelled("b", map[])], [Labelled("b", map[])];
            && both[0].id == "a" && both[1].id == "b" && one[0].id == "b" && DistinctIds(both) && DistinctIds(one)
            && (forall i :: 0 <= i < |both| ==> both[i].spec.networks == [])
            && (forall i :: 0 <= i < |one| ==> one[i].spec.networks == [])
  {
  }

  lemma PairServices(labels: Labels, vols: ProxyVolumes)
    ensures var a, b := Labelled("a", labels), Labelled("b", map[]);
            var r0, r1 := PlainRun([a, b], vols), PlainRun([b], vols);
            && r0.graph.Some? && r0.graph.value.services == [a, b]
            && ActiveIn(r0, 0) && Service(r0, 0) == a && a.id == "a"
            && forall m :: ActiveIn(r1, m) ==> Service(r1, m).id != "a"
  {
  }

  lemma PairDesired(services: seq<ServicePlan>, vols: ProxyVolumes)
    requires services != [] && services[|services| - 1].id == "b"
    requires |services| == 1 || (|services| == 2 && services[0].id == "a")
    ensures "b" in Desired(PlainRun(services, vols))
    ensures "a" in Desired(PlainRun(services, vols)) <==> |services| == 2
  {
    hide Desired, PlainRun;
    PlainDesired(services, vols);
    assert services[|services| - 1].id == "b" != "a";
  }

  lemma BorrowedSpared(labels: Labels, desired: set<string>)
    requires "b" in desired && (labels == map[Managed := "false"] || labels == map[ServiceLabel := "b"])
    ensures Spared(Labelled("a", labels), desired)
  {
  }

  /** A services directory that cannot be read is no error: nothing is desired, and a complete run collects everything that is managed and owned. */
  lemma UnreadableDirectoryCollectsAll(v: View, r: RunInput, h: Hashes)
    requires r.listing.services.Unreadable? && Completes(v, r, h)
    ensures Desired(r) == {}
    ensures forall n, id :: n in RunView(v, r, h).containers && IsManaged(RunView(v, r, h).containers[n].labels) ==> !OwnedBy(RunView(v, r, h).containers[n].labels, id)
    ensures forall n, id :: n in RunView(v, r, h).networks && IsManaged(RunView(v, r, h).networks[n]) ==> !OwnedBy(RunView(v, r, h).networks[n], id)
  {
    hide Run, StepsOf, Errors, Documents, Reaches;
  }
}

/**
 Where the Docker objects a pass leaves come from: every object was there before, with the labels it has, or was made by a step
 of the pass, with the labels that step gives; and networks and volumes that were there stay.
 */
module Provenance {
  import opened ContainerSpecs
  import opened Plans
  import opened DockerView
  import opened ExecuteStage

  /** A network is made by the first step that ensures it. */
  ghost predicate NetworkMade(steps: seq<Step>, n: string, l: Labels, h: Hashes) {
    exists i :: 0 <= i < |steps| && steps[i].EnsureNetwork? && steps[i].name == n
                && l == Strip(NetworkLabels(n, steps[i].service, steps[i].core, "", h))
                && !EnsuresNetwork(steps[..i], n)
  }

  ghost predicate EnsuresNetwork(steps: seq<Step>, n: string) {
    exists i :: 0 <= i < |steps| && steps[i].EnsureNetwork? && steps[i].name == n
  }

  ghost predicate VolumeMade(steps: seq<Step>, n: string, l: Labels, h: Hashes) {
    exists i :: 0 <= i < |steps| && steps[i].EnsureVolume? && steps[i].name == n
                && l == Strip(VolumeLabels(n, steps[i].service, steps[i].removeOnDelete, "", h))
  }

  ghost predicate ContainerMade(steps: seq<Step>, n: string, l: Labels, h: Hashes) {
    exists i :: 0 <= i < |steps| && steps[i].EnsureContainer? && steps[i].name == n
                && l == FreshContainer(steps[i].spec, steps[i].service, steps[i].core, h).labels
  }

  ghost predicate NetworksGrown(v: View, u: View, steps: seq<Step>, h: Hashes) {
    && (forall n :: n in v.networks ==> n in u.networks && u.networks[n] == v.networks[n])
    && (forall n :: n in u.networks && n !in v.networks ==> NetworkMade(steps, n, u.networks[n], h))
  }

  ghost predicate VolumesGrown(v: View, u: View, steps: seq<Step>, h: Hashes) {
    && (forall n :: n in v.volumes ==> n in u.volumes && u.volumes[n] == v.volumes[n])
    && (forall n :: n in u.volumes && n !in v.volumes ==> VolumeMade(steps, n, u.volumes[n], h))
  }

  /** Containers may also be gone, while one is being made again. */
  ghost predicate ContainersTraced(v: View, u: View, steps: seq<Step>, h: Hashes) {
    && (forall n :: n in u.containers ==>
          (n in v.containers && u.containers[n].labels == v.containers[n].labels) || ContainerMade(steps, n, u.containers[n].labels, h))
    && (forall n :: n in v.containers && n !in u.containers ==> exists i :: 0 <= i < |steps| && steps[i].EnsureContainer? && steps[i].name == n)
  }

  ghost predicate Accounted(v: View, u: View, steps: seq<Step>, h: Hashes) {
    NetworksGrown(v, u, steps, h) && VolumesGrown(v, u, steps, h) && ContainersTraced(v, u, steps, h)
  }

  // ---------- one step ----------

  lemma AccountedSame(v: View, steps: seq<Step>, h: Hashes)
    ensures Accounted(v, v, steps, h)
  {
  }

  lemma NetworkCall(v: View, s: Step, j: nat, h: Hashes)
    requires s.EnsureNetwork? && j < |Calls(v, s, h)|
    ensures Accounted(v, Calls(v, s, h)[j], [s], h)
  {
    hide NetworkLabels, Strip;
    var u := Calls(v, s, h)[j];
    assert [s][0] == s && !EnsuresNetwork([s][..0], s.name);
    assert NetworkMade([s], s.name, u.networks[s.name], h);
  }

  lemma VolumeCall(v: View, s: Step, j: nat, h: Hashes)
    requires s.EnsureVolume? && j < |Calls(v, s, h)|
    ensures Accounted(v, Calls(v, s, h)[j], [s], h)
  {
    hide VolumeLabels, Strip;
    assert [s][0] == s;
    assert VolumeMade([s], s.name, Calls(v, s, h)[j].volumes[s.name], h);
  }

  lemma EntryCall(v: View, s: Step, j: nat, h: Hashes)
    requires s.EnsureContainer? && j < |Calls(v, s, h)|
    ensures var u := Calls(v, s, h)[j];
            && u.networks == v.networks && u.volumes == v.volumes
            && (forall n :: n != s.name ==> (n in u.containers <==> n in v.containers) && (n in u.containers ==> u.containers[n] == v.containers[n]))
            && (s.name in u.containers ==>
                  (s.name in v.containers && u.containers[s.name].labels == v.containers[s.name].labels) || ContainerMade([s], s.name, u.containers[s.name].labels, h))
  {
    hide FreshContainer, Matches;
    assert [s][0] == s;
  }

  lemma ContainerCall(v: View, s: Step, j: nat, h: Hashes)
    requires s.EnsureContainer? && j < |Calls(v, s, h)|
    ensures Accounted(v, Calls(v, s, h)[j], [s], h)
  {
    EntryCall(v, s, j, h);
    hide Calls, ContainerMade;
    assert [s][0] == s;
  }

  lemma ConnectCall(v: View, s: Step, j: nat, h: Hashes)
    requires s.Connect? && j < |Calls(v, s, h)|
    ensures Accounted(v, Calls(v, s, h)[j], [s], h)
  {
  }

  lemma AnyCall(v: View, s: Step, j: nat, h: Hashes)
    requires j < |Calls(v, s, h)|
    ensures Accounted(v, Calls(v, s, h)[j], [s], h)
  {
    hide Accounted;
    if s.EnsureNetwork? { hide *; NetworkCall(v, s, j, h); }
    else if s.EnsureVolume? { hide *; VolumeCall(v, s, j, h); }
    else if s.EnsureContainer? { hide *; ContainerCall(v, s, j, h); }
    else if s.Connect? { hide *; ConnectCall(v, s, j, h); }
  }

  /** A whole step also leaves its network in place and keeps every container name. */
  lemma WholeStep(v: View, s: Step, h: Hashes)
    ensures var u := Apply(v, s, h).view;
            && Accounted(v, u, [s], h)
            && (s.EnsureNetwork? ==> s.name in u.networks)
            && (forall n :: n in v.containers ==> n in u.containers)
  {
    var calls := Calls(v, s, h);
    if calls == [] {
      AccountedSame(v, [s], h);
    } else {
      AnyCall(v, s, |calls| - 1, h);
    }
    hide Accounted, FreshContainer, Matches, NetworkLabels, VolumeLabels, Strip;
  }

  // ---------- one after the other ----------

  lemma MadeFirst(s: Step, rest: seq<Step>, n: string, l: Labels, h: Hashes)
    ensures NetworkMade([s], n, l, h) ==> NetworkMade([s] + rest, n, l, h)
    ensures VolumeMade([s], n, l, h) ==> VolumeMade([s] + rest, n, l, h)
    ensures ContainerMade([s], n, l, h) ==> ContainerMade([s] + rest, n, l, h)
  {
    var all := [s] + rest;
    assert all[0] == s && all[..0] == [];
    assert !EnsuresNetwork([], n);
  }

  lemma MadeLater(s: Step, rest: seq<Step>, n: string, l: Labels, h: Hashes)
    ensures NetworkMade(rest, n, l, h) && !(s.EnsureNetwork? && s.name == n) ==> NetworkMade([s] + rest, n, l, h)
    ensures VolumeMade(rest, n, l, h) ==> VolumeMade([s] + rest, n, l, h)
    ensures ContainerMade(rest, n, l, h) ==> ContainerMade([s] + rest, n, l, h)
  {
    hide NetworkLabels, VolumeLabels, FreshContainer, Strip;
    var all := [s] + rest;
    assert forall i :: 0 <= i < |rest| ==> all[i + 1] == rest[i];
    if NetworkMade(rest, n, l, h) && !(s.EnsureNetwork? && s.name == n) {
      var i :| 0 <= i < |rest| && rest[i].EnsureNetwork? && rest[i].name == n
               && l == Strip(NetworkLabels(n, rest[i].service, rest[i].core, "", h)) && !EnsuresNetwork(rest[..i], n);
      var before := all[..i + 1];
      forall k | 0 <= k < |before|
        ensures !(before[k].EnsureNetwork? && before[k].name == n)
      {
        if k > 0 {
          assert before[k] == rest[..i][k - 1];
        }
      }
      assert !EnsuresNetwork(before, n) && all[i + 1] == rest[i];
    }
    if VolumeMade(rest, n, l, h) {
      var i :| 0 <= i < |rest| && rest[i].EnsureVolume? && rest[i].name == n && l == Strip(VolumeLabels(n, rest[i].service, rest[i].removeOnDelete, "", h));
      assert all[i + 1] == rest[i];
    }
    if ContainerMade(rest, n, l, h) {
      var i :| 0 <= i < |rest| && rest[i].EnsureContainer? && rest[i].name == n && l == FreshContainer(rest[i].spec, rest[i].service, rest[i].core, h).labels;
      assert all[i + 1] == rest[i];
    }
  }

  lemma AllMade(s: Step, rest: seq<Step>, h: Hashes)
    ensures forall n, l :: NetworkMade([s], n, l, h) ==> NetworkMade([s] + rest, n, l, h)
    ensures forall n, l :: NetworkMade(rest, n, l, h) && !(s.EnsureNetwork? && s.name == n) ==> NetworkMade([s] + rest, n, l, h)
    ensures forall n, l :: VolumeMade([s], n, l, h) || VolumeMade(rest, n, l, h) ==> VolumeMade([s] + rest, n, l, h)
    ensures forall n, l :: ContainerMade([s], n, l, h) || ContainerMade(rest, n, l, h) ==> ContainerMade([s] + rest, n, l, h)
  {
    hide *;
    forall n, l
      ensures NetworkMade([s], n, l, h) ==> NetworkMade([s] + rest, n, l, h)
      ensures NetworkMade(rest, n, l, h) && !(s.EnsureNetwork? && s.name == n) ==> NetworkMade([s] + rest, n, l, h)
      ensures VolumeMade([s], n, l, h) || VolumeMade(rest, n, l, h) ==> VolumeMade([s] + rest, n, l, h)
      ensures ContainerMade([s], n, l, h) || ContainerMade(rest, n, l, h) ==> ContainerMade([s] + rest, n, l, h)
    {
      MadeFirst(s, rest, n, l, h);
      MadeLater(s, rest, n, l, h);
    }
  }

  /** A step, complete as far as its network is concerned, and what the steps after it do. */
  lemma AccountedThen(v: View, w: View, u: View, s: Step, rest: seq<Step>, h: Hashes)
    requires Accounted(v, w, [s], h) && Accounted(w, u, rest, h)
    requires s.EnsureNetwork? ==> s.name in w.networks
    ensures Accounted(v, u, [s] + rest, h)
  {
    hide NetworkMade, VolumeMade, ContainerMade;
    AllMade(s, rest, h);
    var all := [s] + rest;
    assert forall i :: 0 <= i < |rest| ==> all[i + 1] == rest[i];
    assert all[0] == s;
    forall n | n in v.containers && n !in u.containers
      ensures exists i :: 0 <= i < |all| && all[i].EnsureContainer? && all[i].name == n
    {
      if n !in w.containers {
        assert s.EnsureContainer? && s.name == n;
      } else {
        var i :| 0 <= i < |rest| && rest[i].EnsureContainer? && rest[i].name == n;
        assert all[i + 1] == rest[i];
      }
    }
  }

  lemma {:induction false} AccountedRun(v: View, steps: seq<Step>, h: Hashes)
    ensures Accounted(v, Run(v, steps, h).view, steps, h)
    ensures forall n :: n in v.containers ==> n in Run(v, steps, h).view.containers
    decreases |steps|
  {
    hide Apply, Accounted;
    if steps == [] {
      AccountedSame(v, [], h);
    } else {
      var o := Apply(v, steps[0], h);
      WholeStep(v, steps[0], h);
      assert steps == [steps[0]] + steps[1..];
      if o.Ok() {
        AccountedRun(o.view, steps[1..], h);
        AccountedThen(v, o.view, Run(v, steps, h).view, steps[0], steps[1..], h);
      } else {
        AccountedSame(o.view, steps[1..], h);
        AccountedThen(v, o.view, o.view, steps[0], steps[1..], h);
      }
    }
  }

  lemma {:induction false} AccountedCalls(v: View, steps: seq<Step>, j: nat, h: Hashes)
    requires j < |AllCalls(v, steps, h)|
    ensures Accounted(v, AllCalls(v, steps, h)[j], steps, h)
    decreases |steps|
  {
    hide Apply, Calls, Accounted;
    var s, n, u := steps[0], |Calls(v, steps[0], h)|, AllCalls(v, steps, h)[j];
    assert steps == [s] + steps[1..];
    if j < n {
      AnyCall(v, s, j, h);
      AccountedSame(u, steps[1..], h);
      NetworkCallEnsures(v, s, j, h);
      AccountedThen(v, u, u, s, steps[1..], h);
    } else {
      var o := Apply(v, s, h);
      WholeStep(v, s, h);
      AccountedCalls(o.view, steps[1..], j - n, h);
      AccountedThen(v, o.view, u, s, steps[1..], h);
    }
  }

  lemma NetworkCallEnsures(v: View, s: Step, j: nat, h: Hashes)
    requires j < |Calls(v, s, h)|
    ensures s.EnsureNetwork? ==> s.name in Calls(v, s, h)[j].networks
  {
    hide FreshContainer, Matches, NetworkLabels, VolumeLabels, Strip;
  }

  /** A successful pass leaves every network it ensures. */
  lemma {:induction false} NetworksEnsured(v: View, steps: seq<Step>, i: nat, h: Hashes)
    requires i < |steps| && steps[i].EnsureNetwork? && Run(v, steps, h).ok
    ensures steps[i].name in Run(v, steps, h).view.networks
    decreases |steps|
  {
    hide Apply;
    var o := Apply(v, steps[0], h);
    if i == 0 {
      WholeStep(v, steps[0], h);
      AccountedRun(o.view, steps[1..], h);
    } else {
      NetworksEnsured(o.view, steps[1..], i - 1, h);
    }
  }

  /** A successful pass leaves every volume it ensures. */
  lemma {:induction false} VolumesEnsured(v: View, steps: seq<Step>, i: nat, h: Hashes)
    requires i < |steps| && steps[i].EnsureVolume? && Run(v, steps, h).ok
    ensures steps[i].name in Run(v, steps, h).view.volumes
    decreases |steps|
  {
    hide Apply;
    var o := Apply(v, steps[0], h);
    if i == 0 {
      assert steps[0].name in o.view.volumes by { VolumeStepMakes(v, steps[0], h); }
      AccountedRun(o.view, steps[1..], h);
    } else {
      VolumesEnsured(o.view, steps[1..], i - 1, h);
    }
  }

  lemma VolumeStepMakes(v: View, s: Step, h: Hashes)
    requires s.EnsureVolume?
    ensures s.name in Apply(v, s, h).view.volumes
  {
    hide VolumeLabels, Strip;
  }

  // ---------- the steps of a plan ----------

  /** A service EXECUTE works on. */
  ghost predicate Active(graph: PlanGraph, gate: map<string, bool>, i: int) {
    0 <= i < |graph.services| && !IsParked(gate, graph.services[i].id)
  }

  /** A step of the service loop belongs to an active service. */
  ghost predicate StepOf(s: ServicePlan, st: Step) {
    match st
    case EnsureNetwork(n, service, core) => n == ServiceNetworkName(s.id) && service == s.id && !core
    case EnsureVolume(n, service, rm) => n in NamedVolumes(s.id, s.spec.mounts) && service == s.id && rm == s.removeVolumes
    case EnsureContainer(n, spec, service, core) =>
      n == ServiceContainerName(s.id) && spec == WithPrimaryNetwork(s.id, s.spec) && service == s.id && !core
    case Connect(_, n) => n in WithPrimaryNetwork(s.id, s.spec).networks
    case _ => true
  }

  lemma {:induction false} ServiceLoopSteps(services: seq<ServicePlan>, gate: map<string, bool>, k: nat)
    requires k < |AllServiceSteps(services, gate)|
    ensures var st := AllServiceSteps(services, gate)[k];
            st.Skip? || exists i :: 0 <= i < |services| && !IsParked(gate, services[i].id) && StepOf(services[i], st)
    decreases |services|
  {
    var n := |services| - 1;
    var a := AllServiceSteps(services[..n], gate);
    if k < |a| {
      ServiceLoopSteps(services[..n], gate, k);
      var st := a[k];
      if !st.Skip? {
        var i :| 0 <= i < n && !IsParked(gate, services[..n][i].id) && StepOf(services[..n][i], st);
        assert services[..n][i] == services[i];
      }
    } else {
      var st := GatedSteps(services[n], gate)[k - |a|];
      assert AllServiceSteps(services, gate)[k] == st;
      if !st.Skip? {
        BlockStep(services[n], gate, k - |a|);
      }
    }
  }

  lemma BlockStep(s: ServicePlan, gate: map<string, bool>, k: nat)
    requires k < |GatedSteps(s, gate)| && !GatedSteps(s, gate)[k].Skip?
    ensures !IsParked(gate, s.id) && StepOf(s, GatedSteps(s, gate)[k])
  {
    hide NamedVolumes, ServiceNetworkName, ServiceContainerName, WithPrimaryNetwork;
  }

  /** A service's block is somewhere in the loop. */
  lemma {:induction false} LoopHasBlock(services: seq<ServicePlan>, gate: map<string, bool>, i: nat) returns (k: nat)
    requires i < |services|
    ensures k + |GatedSteps(services[i], gate)| <= |AllServiceSteps(services, gate)|
    ensures forall m :: 0 <= m < |GatedSteps(services[i], gate)| ==> AllServiceSteps(services, gate)[k + m] == GatedSteps(services[i], gate)[m]
    decreases |services|
  {
    hide GatedSteps;
    var n := |services| - 1;
    var a := AllServiceSteps(services[..n], gate);
    if i < n {
      assert services[..n][i] == services[i];
      k := LoopHasBlock(services[..n], gate, i);
    } else {
      k := |a|;
    }
  }

  /** Every step of a service's block is somewhere in the loop. */
  lemma LoopHas(services: seq<ServicePlan>, gate: map<string, bool>, i: nat, m: nat) returns (k: nat)
    requires i < |services| && m < |GatedSteps(services[i], gate)|
    ensures k < |AllServiceSteps(services, gate)| && AllServiceSteps(services, gate)[k] == GatedSteps(services[i], gate)[m]
  {
    hide GatedSteps, AllServiceSteps;
    k := LoopHasBlock(services, gate, i);
    k := k + m;
  }

  lemma LoopHasNetworks(services: seq<ServicePlan>, gate: map<string, bool>, i: nat) returns (k: nat)
    requires i < |services| && !IsParked(gate, services[i].id)
    ensures k < |AllServiceSteps(services, gate)| && AllServiceSteps(services, gate)[k] == EnsureNetwork(ServiceNetworkName(services[i].id), services[i].id, false)
  {
    hide ServiceNetworkName, AllServiceSteps;
    k := LoopHas(services, gate, i, 0);
  }

  lemma LoopHasContainers(services: seq<ServicePlan>, gate: map<string, bool>, i: nat) returns (k: nat)
    requires i < |services| && !IsParked(gate, services[i].id)
    ensures k < |AllServiceSteps(services, gate)|
    ensures AllServiceSteps(services, gate)[k]
         == EnsureContainer(ServiceContainerName(services[i].id), WithPrimaryNetwork(services[i].id, services[i].spec), services[i].id, false)
  {
    hide ServiceNetworkName, ServiceContainerName, WithPrimaryNetwork, StorageSteps, AllServiceSteps;
    k := LoopHas(services, gate, i, |StorageSteps(services[i])|);
  }

  /** A network a plan makes belongs to an active service of that name, or else is the exposure network. */
  lemma PlanNetwork(graph: PlanGraph, gate: map<string, bool>, vols: ProxyVolumes, n: string, l: Labels, h: Hashes)
    requires NetworkMade(PlanSteps(graph, gate, vols), n, l, h)
    ensures forall i :: Active(graph, gate, i) && n == ServiceNetworkName(graph.services[i].id) ==>
              l == Strip(NetworkLabels(n, graph.services[i].id, false, "", h))
    ensures (exists i :: Active(graph, gate, i) && n == ServiceNetworkName(graph.services[i].id)) || l == Strip(NetworkLabels(n, "", true, "", h))
  {
    hide NetworkLabels, Strip, AllServiceSteps, ServiceNetworkName, ProxySpec;
    var steps, loop := PlanSteps(graph, gate, vols), AllServiceSteps(graph.services, gate);
    var m :| 0 <= m < |steps| && steps[m].EnsureNetwork? && steps[m].name == n
             && l == Strip(NetworkLabels(n, steps[m].service, steps[m].core, "", h)) && !EnsuresNetwork(steps[..m], n);
    if m < |loop| {
      assert steps[m] == loop[m];
      ServiceLoopSteps(graph.services, gate, m);
      var i :| 0 <= i < |graph.services| && !IsParked(gate, graph.services[i].id) && StepOf(graph.services[i], loop[m]);
      assert Active(graph, gate, i);
    }
    forall i | Active(graph, gate, i) && n == ServiceNetworkName(graph.services[i].id)
      ensures l == Strip(NetworkLabels(n, graph.services[i].id, false, "", h))
    {
      if m >= |loop| {
        var k := LoopHasNetworks(graph.services, gate, i);
        LoopComesFirst(loop, steps, m, n, k);
      } else {
        var j :| 0 <= j < |graph.services| && !IsParked(gate, graph.services[j].id) && StepOf(graph.services[j], loop[m]);
        NetworkNameInjective(graph.services[i].id, graph.services[j].id);
      }
    }
  }

  lemma LoopComesFirst(loop: seq<Step>, steps: seq<Step>, m: nat, n: string, k: nat)
    requires loop <= steps && |loop| <= m <= |steps| && k < |loop| && loop[k].EnsureNetwork? && loop[k].name == n
    ensures EnsuresNetwork(steps[..m], n)
  {
    assert steps[..m][k] == loop[k];
  }

  lemma NetworkNameInjective(a: string, b: string)
    ensures ServiceNetworkName(a) == ServiceNetworkName(b) ==> a == b
  {
    assert ServiceNetworkName(a)[10..] == a && ServiceNetworkName(b)[10..] == b;
  }

  lemma PlanVolume(graph: PlanGraph, gate: map<string, bool>, vols: ProxyVolumes, n: string, l: Labels, h: Hashes)
    requires VolumeMade(PlanSteps(graph, gate, vols), n, l, h)
    ensures exists i :: Active(graph, gate, i) && n in NamedVolumes(graph.services[i].id, graph.services[i].spec.mounts)
                        && l == Strip(VolumeLabels(n, graph.services[i].id, graph.services[i].removeVolumes, "", h))
  {
    hide VolumeLabels, Strip, AllServiceSteps, NamedVolumes, ProxySpec;
    var steps, loop := PlanSteps(graph, gate, vols), AllServiceSteps(graph.services, gate);
    var m :| 0 <= m < |steps| && steps[m].EnsureVolume? && steps[m].name == n && l == Strip(VolumeLabels(n, steps[m].service, steps[m].removeOnDelete, "", h));
    assert steps[m] == loop[m];
    ServiceLoopSteps(graph.services, gate, m);
    var i :| 0 <= i < |graph.services| && !IsParked(gate, graph.services[i].id) && StepOf(graph.services[i], loop[m]);
    assert Active(graph, gate, i);
  }

  /** The labels a service's container is created with. */
  function LabelsFor(s: ServicePlan, h: Hashes): Labels { FreshContainer(WithPrimaryNetwork(s.id, s.spec), s.id, false, h).labels }

  /** The labels the proxy is created with, but for its hash. */
  ghost predicate ProxyLabels(l: Labels) { Managed in l && l[Managed] == "true" && ServiceLabel !in l }

  lemma PlanContainer(graph: PlanGraph, gate: map<string, bool>, vols: ProxyVolumes, n: string, l: Labels, h: Hashes)
    requires ContainerMade(PlanSteps(graph, gate, vols), n, l, h)
    ensures || (exists i :: Active(graph, gate, i) && n == ServiceContainerName(graph.services[i].id) && l == LabelsFor(graph.services[i], h))
            || (n == PROXY_CONTAINER_NAME && ProxyLabels(l))
  {
    hide FreshContainer, AllServiceSteps, ServiceContainerName, WithPrimaryNetwork, ProxySpec;
    var steps, loop := PlanSteps(graph, gate, vols), AllServiceSteps(graph.services, gate);
    var m :| 0 <= m < |steps| && steps[m].EnsureContainer? && steps[m].name == n && l == FreshContainer(steps[m].spec, steps[m].service, steps[m].core, h).labels;
    if m < |loop| {
      assert steps[m] == loop[m];
      ServiceLoopSteps(graph.services, gate, m);
      var i :| 0 <= i < |graph.services| && !IsParked(gate, graph.services[i].id) && StepOf(graph.services[i], loop[m]);
      assert Active(graph, gate, i);
    } else {
      var spec := ProxySpec(graph.networkPlan.value.attachmentNetwork, ServiceNetworks(graph.services), HostPorts(graph.networkPlan.value), vols);
      assert steps[m] == EnsureContainer(PROXY_CONTAINER_NAME, spec, "", true);
      ProxyIsUnowned(graph.networkPlan.value.attachmentNetwork, ServiceNetworks(graph.services), HostPorts(graph.networkPlan.value), vols, h);
    }
  }

  lemma ProxyIsUnowned(exposure: string, networks: seq<string>, ports: seq<int>, vols: ProxyVolumes, h: Hashes)
    ensures ProxyLabels(FreshContainer(ProxySpec(exposure, networks, ports, vols), "", true, h).labels)
  {
  }
}

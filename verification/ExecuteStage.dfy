/**
 The EXECUTE stage (packages/orchestrator/src/reconciler/execute-stage.ts): the ordered steps
 per service, then the core-emitted proxy, then the proxy reload. Its pass over a plan is
 shown to be the pass over `PlanSteps`, to which the convergence results apply.
 */
module ExecuteStage {
  import opened Options
  import opened ContainerSpecs
  import opened Plans
  import opened DockerView
  import opened DockerClients
  import opened Convergence

  const PROXY_CONTAINER_NAME := "wanfw-proxy"
  const PROXY_IMAGE := "caddy@sha256:af5fdcd76f2db5e4e974ee92f96ee8c0fc3edb55bd4ba5032547cbf3f65e486d"

  datatype NetworkPlan = NetworkPlan(attachmentNetwork: string, endpointKind: string, ports: seq<int>)

  /** `reload` is `Some` when a complete proxy render exists; its value says whether the reload command exits with 0. */
  datatype PlanGraph = PlanGraph(services: seq<ServicePlan>, networkPlan: Option<NetworkPlan>, reload: Option<bool>)

  datatype ProxyVolumes = ProxyVolumes(certs: string, proxycfg: string)

  function ServiceNetworkName(id: string): string { "wanfw_svc_" + id }

  function ServiceContainerName(id: string): string { "wanfw_" + id }

  function NamedVolumes(id: string, mounts: seq<MountSpec>): seq<string> {
    if mounts == [] then []
    else (if mounts[0].kind.VolumeMount? && ServiceContainerName(id) <= mounts[0].source then [mounts[0].source] else []) +
         NamedVolumes(id, mounts[1..])
  }

  function WithPrimaryNetwork(id: string, spec: ContainerSpec): ContainerSpec {
    if spec.networks != [] then spec else spec.(networks := [ServiceNetworkName(id)])
  }

  function VolumeSteps(id: string, volumes: seq<string>, rm: bool): seq<Step> {
    seq(|volumes|, i requires 0 <= i < |volumes| => EnsureVolume(volumes[i], id, rm))
  }

  function ConnectSteps(container: string, networks: seq<string>): seq<Step> {
    seq(|networks|, i requires 0 <= i < |networks| => Connect(container, networks[i]))
  }

  function StorageSteps(s: ServicePlan): seq<Step> {
    [EnsureNetwork(ServiceNetworkName(s.id), s.id, false)] + VolumeSteps(s.id, NamedVolumes(s.id, s.spec.mounts), s.removeVolumes)
  }

  function ServiceSteps(s: ServicePlan): seq<Step> {
    var spec := WithPrimaryNetwork(s.id, s.spec);
    StorageSteps(s) +
    ([EnsureContainer(ServiceContainerName(s.id), spec, s.id, false)] +
     ConnectSteps(ServiceContainerName(s.id), spec.networks))
  }

  /** A service is parked when GATE holds an entry for it that is not approved. */
  predicate IsParked(gate: map<string, bool>, id: string) { id in gate && !gate[id] }

  function GatedSteps(s: ServicePlan, gate: map<string, bool>): seq<Step> {
    if IsParked(gate, s.id) then [Skip(s.id)] else ServiceSteps(s)
  }

  function AllServiceSteps(services: seq<ServicePlan>, gate: map<string, bool>): seq<Step> {
    if services == [] then []
    else AllServiceSteps(services[..|services| - 1], gate) + GatedSteps(services[|services| - 1], gate)
  }

  function ServiceNetworks(services: seq<ServicePlan>): seq<string> {
    seq(|services|, i requires 0 <= i < |services| => ServiceNetworkName(services[i].id))
  }

  function ProxySpec(exposure: string, serviceNetworks: seq<string>, ports: seq<int>, vols: ProxyVolumes): ContainerSpec {
    ContainerSpec(
      PROXY_IMAGE,
      [MountSpec(VolumeMount, vols.certs, "/data/certs", true), MountSpec(VolumeMount, vols.proxycfg, "/etc/caddy", true)],
      [], [exposure] + serviceNetworks, "", ports, [], false, map[],
      Baseline([], [], map[], [], "", false, "", "", "unless-stopped"))
  }

  function HostPorts(n: NetworkPlan): seq<int> { if n.endpointKind == "host-ports" then n.ports else [] }

  function ProxySteps(plan: PlanGraph, vols: ProxyVolumes): seq<Step> {
    if plan.networkPlan.None? || plan.networkPlan.value.attachmentNetwork == "" then []
    else
      var exposure := plan.networkPlan.value.attachmentNetwork;
      var spec := ProxySpec(exposure, ServiceNetworks(plan.services), HostPorts(plan.networkPlan.value), vols);
      [EnsureNetwork(exposure, "", true)] +
      ([EnsureContainer(PROXY_CONTAINER_NAME, spec, "", true)] + ConnectSteps(PROXY_CONTAINER_NAME, spec.networks))
  }

  function ReloadSteps(plan: PlanGraph): seq<Step> {
    if plan.reload.Some? then [ProxyReload(plan.reload.value)] else []
  }

  function PlanSteps(plan: PlanGraph, gate: map<string, bool>, vols: ProxyVolumes): seq<Step> {
    AllServiceSteps(plan.services, gate) + ProxySteps(plan, vols) + ReloadSteps(plan)
  }

  // ---------- the plan's steps are well formed ----------

  ghost predicate TouchesOnly(steps: seq<Step>, x: string) {
    forall i, y :: 0 <= i < |steps| && Touches(steps[i], y) ==> y == x
  }

  lemma WellFormedConcat(a: seq<Step>, b: seq<Step>)
    requires WellFormed(a) && WellFormed(b)
    requires forall i, j :: 0 <= i < |a| && 0 <= j < |b| && b[j].EnsureContainer? ==> !Touches(a[i], b[j].name)
    ensures WellFormed(a + b)
  {
  }

  lemma ServiceStepsTouch(s: ServicePlan, gate: map<string, bool>)
    ensures WellFormed(GatedSteps(s, gate)) && TouchesOnly(GatedSteps(s, gate), ServiceContainerName(s.id))
  {
  }

  lemma ProxyStepsTouch(plan: PlanGraph, vols: ProxyVolumes)
    ensures WellFormed(ProxySteps(plan, vols)) && TouchesOnly(ProxySteps(plan, vols), PROXY_CONTAINER_NAME)
  {
  }

  lemma {:induction false} AllServiceStepsTouch(services: seq<ServicePlan>, gate: map<string, bool>)
    requires DistinctIds(services)
    ensures WellFormed(AllServiceSteps(services, gate))
    ensures forall i, y :: 0 <= i < |AllServiceSteps(services, gate)| && Touches(AllServiceSteps(services, gate)[i], y) ==>
              exists j :: 0 <= j < |services| && y == ServiceContainerName(services[j].id)
  {
    hide GatedSteps;
    if services != [] {
      var n := |services| - 1;
      AllServiceStepsTouch(services[..n], gate);
      ServiceStepsTouch(services[n], gate);
      var a, b := AllServiceSteps(services[..n], gate), GatedSteps(services[n], gate);
      forall i, j | 0 <= i < |a| && 0 <= j < |b| && b[j].EnsureContainer?
        ensures !Touches(a[i], b[j].name)
      {
        assert Touches(b[j], b[j].name);
        NamesDiffer(services[n].id);
        if Touches(a[i], b[j].name) {
          var m :| 0 <= m < n && b[j].name == ServiceContainerName(services[..n][m].id);
          NameInjective(services[m].id, services[n].id);
        }
      }
      WellFormedConcat(a, b);
    }
  }

  lemma NameInjective(a: string, b: string)
    ensures ServiceContainerName(a) == ServiceContainerName(b) ==> a == b
  {
    assert ServiceContainerName(a)[6..] == a && ServiceContainerName(b)[6..] == b;
  }

  lemma NamesDiffer(id: string)
    ensures ServiceContainerName(id) != PROXY_CONTAINER_NAME
  {
    assert ServiceContainerName(id)[5] == '_' && PROXY_CONTAINER_NAME[5] == '-';
  }

  lemma PlanStepsWellFormed(plan: PlanGraph, gate: map<string, bool>, vols: ProxyVolumes)
    requires DistinctIds(plan.services)
    ensures WellFormed(PlanSteps(plan, gate, vols))
  {
    hide ProxySteps, AllServiceSteps;
    AllServiceStepsTouch(plan.services, gate);
    ProxyStepsTouch(plan, vols);
    var a, b := AllServiceSteps(plan.services, gate), ProxySteps(plan, vols);
    forall i, j | 0 <= i < |a| && 0 <= j < |b| && b[j].EnsureContainer?
      ensures !Touches(a[i], b[j].name)
    {
      assert Touches(b[j], b[j].name);
      if Touches(a[i], b[j].name) {
        var m :| 0 <= m < |plan.services| && b[j].name == ServiceContainerName(plan.services[m].id);
        NamesDiffer(plan.services[m].id);
      }
    }
    WellFormedConcat(a, b);
    WellFormedConcat(a + b, ReloadSteps(plan));
  }

  // ---------- the stage itself ----------

  /** The client and the journal are where the steps `done`, started from `v0`, take them. */
  ghost predicate Tracks(docker: DockerClient, v0: View, h0: seq<View>, done: seq<Step>, journal: seq<(Step, Detail)>, h: Hashes)
    reads docker
  {
    && docker.Valid()
    && docker.Snapshot() == Run(v0, done, h).view
    && docker.history == h0 + AllCalls(v0, done, h)
    && journal == Run(v0, done, h).journal
  }

  lemma {:induction false} CallsConcat(v: View, a: seq<Step>, b: seq<Step>, h: Hashes)
    ensures AllCalls(v, a + b, h) ==
            AllCalls(v, a, h) + if Run(v, a, h).ok then AllCalls(Run(v, a, h).view, b, h) else []
    decreases |a|
  {
    hide Apply, Calls;
    if a == [] {
      assert a + b == b;
    } else {
      assert (a + b)[0] == a[0] && (a + b)[1..] == a[1..] + b;
      CallsConcat(Apply(v, a[0], h).view, a[1..], b, h);
    }
  }

  /** One more step of a pass that has not failed. */
  lemma OneStep(v: View, done: seq<Step>, s: Step, h: Hashes)
    requires Run(v, done, h).ok
    ensures var u := Run(v, done, h).view; var o := Apply(u, s, h); var p := Run(v, done + [s], h);
            && p == Pass(o.view, o.Ok(), Run(v, done, h).journal + [(s, o.detail)])
            && AllCalls(v, done + [s], h) == AllCalls(v, done, h) + Calls(u, s, h)
  {
    hide Apply, Calls;
    assert (done + [s])[..|done|] == done && (done + [s])[..|done| + 1] == done + [s];
    RunSnoc(v, done + [s], |done|, h);
    CallsConcat(v, done, [s], h);
    var u := Run(v, done, h).view;
    assert AllCalls(u, [s], h) == Calls(u, s, h);
  }

  /** A failed pass ignores the steps that would have followed. */
  lemma Stopped(v: View, done: seq<Step>, rest: seq<Step>, h: Hashes)
    requires !Run(v, done, h).ok
    ensures Run(v, done + rest, h) == Run(v, done, h)
    ensures AllCalls(v, done + rest, h) == AllCalls(v, done, h)
  {
    RunConcat(v, done, rest, h);
    CallsConcat(v, done, rest, h);
  }

  /** The connect loop over one container's networks. */
  method ConnectAll(docker: DockerClient, container: string, networks: seq<string>, h: Hashes, journal0: seq<(Step, Detail)>,
                    ghost v0: View, ghost h0: seq<View>, ghost done: seq<Step>)
    returns (ok: bool, journal: seq<(Step, Detail)>)
    requires Run(v0, done, h).ok && Tracks(docker, v0, h0, done, journal0, h)
    modifies docker
    ensures Tracks(docker, v0, h0, done + ConnectSteps(container, networks), journal, h)
    ensures ok == Run(v0, done + ConnectSteps(container, networks), h).ok
  {
    hide Apply, Calls, Run, AllCalls;
    journal := journal0;
    ghost var steps := ConnectSteps(container, networks);
    assert done + steps[..0] == done;
    for i := 0 to |networks|
      invariant Run(v0, done + steps[..i], h).ok && Tracks(docker, v0, h0, done + steps[..i], journal, h)
    {
      OneStep(v0, done + steps[..i], steps[i], h);
      assert done + steps[..i] + [steps[i]] == done + steps[..i + 1];
      var detail := ConnectStep(docker, container, networks[i], h);
      journal := journal + [(Connect(container, networks[i]), detail)];
      if detail == Failed {
        Stopped(v0, done + steps[..i + 1], steps[i + 1..], h);
        assert done + steps[..i + 1] + steps[i + 1..] == done + steps;
        return false, journal;
      }
    }
    assert steps[..|networks|] == steps;
    ok := true;
  }

  /** The network and the volumes of a service. */
  method ExecuteStorage(docker: DockerClient, s: ServicePlan, plan: string, h: Hashes, journal0: seq<(Step, Detail)>,
                        ghost v0: View, ghost h0: seq<View>, ghost done: seq<Step>)
    returns (journal: seq<(Step, Detail)>)
    requires Run(v0, done, h).ok && Tracks(docker, v0, h0, done, journal0, h)
    modifies docker
    ensures Run(v0, done + StorageSteps(s), h).ok && Tracks(docker, v0, h0, done + StorageSteps(s), journal, h)
  {
    hide Apply, Calls, Run, AllCalls, NamedVolumes, ServiceNetworkName, VolumeSteps;
    ghost var s0 := EnsureNetwork(ServiceNetworkName(s.id), s.id, false);
    OneStep(v0, done, s0, h);
    var detail := EnsureNetworkStep(docker, ServiceNetworkName(s.id), s.id, false, plan, h);
    NeverFails(Run(v0, done, h).view, s0, h);
    journal := journal0 + [(EnsureNetwork(ServiceNetworkName(s.id), s.id, false), detail)];
    ghost var now := done + [s0];
    var volumes := NamedVolumes(s.id, s.spec.mounts);
    journal := ExecuteVolumes(docker, s.id, volumes, s.removeVolumes, plan, h, journal, v0, h0, now);
    assert now + VolumeSteps(s.id, volumes, s.removeVolumes) == done + StorageSteps(s);
  }

  /** The loop over a service's named volumes. */
  method ExecuteVolumes(docker: DockerClient, id: string, volumes: seq<string>, rm: bool, plan: string, h: Hashes, journal0: seq<(Step, Detail)>,
                        ghost v0: View, ghost h0: seq<View>, ghost done: seq<Step>)
    returns (journal: seq<(Step, Detail)>)
    requires Run(v0, done, h).ok && Tracks(docker, v0, h0, done, journal0, h)
    modifies docker
    ensures var vs := VolumeSteps(id, volumes, rm); Run(v0, done + vs, h).ok && Tracks(docker, v0, h0, done + vs, journal, h)
  {
    hide Apply, Calls, Run, AllCalls;
    journal := journal0;
    ghost var vs := VolumeSteps(id, volumes, rm);
    assert done + vs[..0] == done;
    for i := 0 to |volumes|
      invariant Run(v0, done + vs[..i], h).ok && Tracks(docker, v0, h0, done + vs[..i], journal, h)
    {
      OneStep(v0, done + vs[..i], vs[i], h);
      assert done + vs[..i] + [vs[i]] == done + vs[..i + 1];
      var detail := EnsureVolumeStep(docker, volumes[i], id, rm, plan, h);
      NeverFails(Run(v0, done + vs[..i], h).view, vs[i], h);
      journal := journal + [(EnsureVolume(volumes[i], id, rm), detail)];
    }
    assert vs[..|volumes|] == vs;
  }

  /** The body of the service loop for a service that is not parked. */
  method ExecuteService(docker: DockerClient, s: ServicePlan, plan: string, h: Hashes, journal0: seq<(Step, Detail)>,
                        ghost v0: View, ghost h0: seq<View>, ghost done: seq<Step>)
    returns (ok: bool, journal: seq<(Step, Detail)>)
    requires Run(v0, done, h).ok && Tracks(docker, v0, h0, done, journal0, h)
    modifies docker
    ensures Tracks(docker, v0, h0, done + ServiceSteps(s), journal, h)
    ensures ok == Run(v0, done + ServiceSteps(s), h).ok
  {
    hide Apply, Calls, Run, AllCalls, StorageSteps, ConnectSteps;
    journal := ExecuteStorage(docker, s, plan, h, journal0, v0, h0, done);
    ghost var now := done + StorageSteps(s);
    var spec := WithPrimaryNetwork(s.id, s.spec);
    var name := ServiceContainerName(s.id);
    ghost var c := EnsureContainer(name, spec, s.id, false);
    OneStep(v0, now, c, h);
    NeverFails(Run(v0, now, h).view, c, h);
    var detail := EnsureContainerStep(docker, name, spec, s.id, false, plan, h);
    journal := journal + [(EnsureContainer(name, spec, s.id, false), detail)];
    now := now + [c];
    ok, journal := ConnectAll(docker, name, spec.networks, h, journal, v0, h0, now);
    assert now + ConnectSteps(name, spec.networks) == done + ServiceSteps(s);
  }

  lemma NeverFails(v: View, s: Step, h: Hashes)
    requires !s.Connect? && !s.ProxyReload?
    ensures Apply(v, s, h).Ok()
  {
  }

  method ExecuteProxy(docker: DockerClient, graph: PlanGraph, vols: ProxyVolumes, plan: string, h: Hashes, journal0: seq<(Step, Detail)>,
                      ghost v0: View, ghost h0: seq<View>, ghost done: seq<Step>)
    returns (ok: bool, journal: seq<(Step, Detail)>)
    requires Run(v0, done, h).ok && Tracks(docker, v0, h0, done, journal0, h)
    modifies docker
    ensures Tracks(docker, v0, h0, done + ProxySteps(graph, vols), journal, h)
    ensures ok == Run(v0, done + ProxySteps(graph, vols), h).ok
  {
    hide Apply, Calls, Run, AllCalls;
    if graph.networkPlan.None? || graph.networkPlan.value.attachmentNetwork == "" {
      assert done + [] == done;
      return true, journal0;
    }
    var exposure := graph.networkPlan.value.attachmentNetwork;
    ghost var s0 := EnsureNetwork(exposure, "", true);
    OneStep(v0, done, s0, h);
    NeverFails(Run(v0, done, h).view, s0, h);
    var detail := EnsureNetworkStep(docker, exposure, "", true, plan, h);
    journal := journal0 + [(EnsureNetwork(exposure, "", true), detail)];
    ghost var now := done + [s0];

    var spec := ProxySpec(exposure, ServiceNetworks(graph.services), HostPorts(graph.networkPlan.value), vols);
    ghost var c := EnsureContainer(PROXY_CONTAINER_NAME, spec, "", true);
    OneStep(v0, now, c, h);
    NeverFails(Run(v0, now, h).view, c, h);
    detail := EnsureContainerStep(docker, PROXY_CONTAINER_NAME, spec, "", true, plan, h);
    journal := journal + [(EnsureContainer(PROXY_CONTAINER_NAME, spec, "", true), detail)];
    now := now + [c];
    ok, journal := ConnectAll(docker, PROXY_CONTAINER_NAME, spec.networks, h, journal, v0, h0, now);
    assert now + ConnectSteps(PROXY_CONTAINER_NAME, spec.networks) == done + ProxySteps(graph, vols);
  }

  lemma SkipStep(v: View, id: string, h: Hashes)
    ensures Apply(v, Skip(id), h) == Outcome(v, Parked) && Calls(v, Skip(id), h) == []
  {
  }

  lemma ReloadStep(v: View, exitOk: bool, h: Hashes)
    ensures Apply(v, ProxyReload(exitOk), h) == Outcome(v, if exitOk then Reloaded else Failed)
    ensures Calls(v, ProxyReload(exitOk), h) == []
  {
  }

  lemma {:induction false} PrefixOfServices(services: seq<ServicePlan>, gate: map<string, bool>, i: nat)
    requires i <= |services|
    ensures AllServiceSteps(services[..i], gate) <= AllServiceSteps(services, gate)
    decreases |services| - i
  {
    hide GatedSteps;
    if i == |services| {
      assert services[..i] == services;
    } else {
      PrefixOfServices(services, gate, i + 1);
      assert services[..i + 1][..i] == services[..i];
    }
  }

  /** One turn of the service loop: a parked service is only journaled. */
  method ExecuteGated(docker: DockerClient, s: ServicePlan, gate: map<string, bool>, plan: string, h: Hashes,
                      journal0: seq<(Step, Detail)>, ghost v0: View, ghost h0: seq<View>, ghost done: seq<Step>)
    returns (ok: bool, journal: seq<(Step, Detail)>)
    requires Run(v0, done, h).ok && Tracks(docker, v0, h0, done, journal0, h)
    modifies docker
    ensures Tracks(docker, v0, h0, done + GatedSteps(s, gate), journal, h)
    ensures ok == Run(v0, done + GatedSteps(s, gate), h).ok
    ensures docker.history == old(docker.history) + AllCalls(old(docker.Snapshot()), GatedSteps(s, gate), h)
  {
    hide Apply, Calls, ServiceSteps, Run, AllCalls;
    CallsConcat(v0, done, GatedSteps(s, gate), h);
    if IsParked(gate, s.id) {
      OneStep(v0, done, Skip(s.id), h);
      SkipStep(Run(v0, done, h).view, s.id, h);
      journal := journal0 + [(Skip(s.id), Parked)];
      ok := true;
    } else {
      ok, journal := ExecuteService(docker, s, plan, h, journal0, v0, h0, done);
    }
  }

  /** The service loop, left at the first service that fails. */
  method ExecuteServices(docker: DockerClient, services: seq<ServicePlan>, gate: map<string, bool>, plan: string, h: Hashes)
    returns (ok: bool, journal: seq<(Step, Detail)>)
    requires docker.Valid()
    modifies docker
    ensures Tracks(docker, old(docker.Snapshot()), old(docker.history), AllServiceSteps(services, gate), journal, h)
    ensures ok == Run(old(docker.Snapshot()), AllServiceSteps(services, gate), h).ok
  {
    hide *;
    ghost var v0, h0 := docker.Snapshot(), docker.history;
    StartTracking(docker, services, gate, h);
    journal := [];
    ok := true;
    for i := 0 to |services|
      invariant ok && Run(v0, AllServiceSteps(services[..i], gate), h).ok
      invariant Tracks(docker, v0, h0, AllServiceSteps(services[..i], gate), journal, h)
    {
      ghost var done := AllServiceSteps(services[..i], gate);
      ghost var now := done + GatedSteps(services[i], gate);
      NextService(services, gate, i);
      ok, journal := ExecuteGated(docker, services[i], gate, plan, h, journal, v0, h0, done);
      if !ok {
        ghost var all := AllServiceSteps(services, gate);
        PrefixOfServices(services, gate, i + 1);
        assert all == now + all[|now|..];
        Stopped(v0, now, all[|now|..], h);
        StoppedTracks(docker, v0, h0, now, all[|now|..], journal, h);
        return;
      }
    }
    assert services[..|services|] == services;
  }

  lemma StartTracking(docker: DockerClient, services: seq<ServicePlan>, gate: map<string, bool>, h: Hashes)
    requires docker.Valid()
    ensures Run(docker.Snapshot(), AllServiceSteps(services[..0], gate), h).ok
    ensures Tracks(docker, docker.Snapshot(), docker.history, AllServiceSteps(services[..0], gate), [], h)
  {
  }

  lemma NextService(services: seq<ServicePlan>, gate: map<string, bool>, i: nat)
    requires i < |services|
    ensures AllServiceSteps(services[..i + 1], gate) == AllServiceSteps(services[..i], gate) + GatedSteps(services[i], gate)
  {
    assert services[..i + 1][..i] == services[..i];
  }

  lemma StoppedTracks(docker: DockerClient, v0: View, h0: seq<View>, done: seq<Step>, rest: seq<Step>, journal: seq<(Step, Detail)>, h: Hashes)
    requires !Run(v0, done, h).ok && Tracks(docker, v0, h0, done, journal, h)
    ensures Tracks(docker, v0, h0, done + rest, journal, h)
  {
    hide Run, AllCalls;
    Stopped(v0, done, rest, h);
  }

  /** EXECUTE: a pass over the plan's steps, with the journal, the verdict and every intermediate Docker state of that pass. */
  method Execute(docker: DockerClient, graph: PlanGraph, gate: map<string, bool>, vols: ProxyVolumes, plan: string, h: Hashes)
    returns (ok: bool, journal: seq<(Step, Detail)>)
    requires docker.Valid()
    modifies docker
    ensures docker.Valid()
    ensures Pass(docker.Snapshot(), ok, journal) == Run(old(docker.Snapshot()), PlanSteps(graph, gate, vols), h)
    ensures docker.history == old(docker.history) + AllCalls(old(docker.Snapshot()), PlanSteps(graph, gate, vols), h)
  {
    hide Apply, Calls, AllServiceSteps, ProxySteps, Run, AllCalls;
    ghost var v0, h0 := docker.Snapshot(), docker.history;
    ok, journal := ExecuteServices(docker, graph.services, gate, plan, h);
    ghost var done := AllServiceSteps(graph.services, gate);
    if !ok {
      Stopped(v0, done, ProxySteps(graph, vols), h);
      Stopped(v0, done + ProxySteps(graph, vols), ReloadSteps(graph), h);
      return;
    }
    ok, journal := ExecuteProxy(docker, graph, vols, plan, h, journal, v0, h0, done);
    done := done + ProxySteps(graph, vols);
    if !ok {
      Stopped(v0, done, ReloadSteps(graph), h);
      return;
    }
    if graph.reload.Some? {
      OneStep(v0, done, ProxyReload(graph.reload.value), h);
      ReloadStep(Run(v0, done, h).view, graph.reload.value, h);
      ok := graph.reload.value;
      journal := journal + [(ProxyReload(graph.reload.value), if ok then Reloaded else Failed)];
    } else {
      assert done + [] == done;
    }
  }
}

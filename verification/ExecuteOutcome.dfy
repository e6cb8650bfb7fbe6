/**
 What a successful EXECUTE leaves behind, told from the plan and Docker's names alone
 (packages/orchestrator/src/reconciler/execute-stage.ts, packages/orchestrator/src/execute/proxy-container.ts).
 */
module ExecuteOutcome {
  import opened ContainerSpecs
  import opened Plans
  import opened DockerView
  import opened Convergence
  import opened Quiescence
  import opened ExecuteStage
  import opened Provenance

  // ---------- one container ----------

  /** An ensured container is running at the end of a successful pass, and carries its hash unless its spec says otherwise. */
  lemma EnsuredRuns(v: View, steps: seq<Step>, j: nat, h: Hashes)
    requires WellFormed(steps) && j < |steps| && steps[j].EnsureContainer? && Run(v, steps, h).ok
    ensures var u, s := Run(v, steps, h).view, steps[j];
            && s.name in u.containers && u.containers[s.name].state == "running"
            && (ConfigHash !in s.spec.labels ==> ConfigHash in u.containers[s.name].labels && u.containers[s.name].labels[ConfigHash] == h.config(s.spec))
  {
    FinalLabel(v, steps, j, h);
    EnsuredStays(v, steps, j, h);
    ApplyEnsure(Run(v, steps[..j], h).view, steps[j], h);
    hide Run, Apply, FreshContainer;
    assert RUNNING == "running";
  }

  /** A network attached to an ensured container stays attached. */
  lemma AttachedStays(v: View, steps: seq<Step>, j: nat, i: nat, h: Hashes)
    requires WellFormed(steps) && j < i < |steps| && Run(v, steps, h).ok
    requires steps[j].EnsureContainer? && steps[i].Connect? && steps[i].container == steps[j].name
    ensures var u, x := Run(v, steps, h).view, steps[j].name; x in u.containers && steps[i].network in u.containers[x].networks
  {
    hide Run, Apply, FreshContainer, Matches;
    var n, x := |steps|, steps[j].name;
    assert steps[..n] == steps;
    PrefixKeeps(v, steps, i, n, h);
    PrefixKeeps(v, steps, j + 1, i, h);
    PrefixKeeps(v, steps, i + 1, n, h);
    PrefixKeeps(v, steps, j, i, h);
    var a, b, c := Run(v, steps[..j + 1], h).view, Run(v, steps[..i], h).view, Run(v, steps[..i + 1], h).view;
    RunSnoc(v, steps, j, h);
    RunSnoc(v, steps, i, h);
    ApplyEnsure(Run(v, steps[..j], h).view, steps[j], h);
    ApplyConnect(b, steps[i], h);
    assert TouchedIn(steps[..j + 1], x) by { assert Touches(steps[..j + 1][j], x); }
    assert TouchedIn(steps[..i + 1], x) by { assert Touches(steps[..i + 1][i], x); }
    assert Entry(a, x).Some? && KeepsContainer(Entry(a, x), Entry(b, x));
    assert Entry(c, x) == Attached(Entry(b, x), steps[i].network);
    assert KeepsContainer(Entry(c, x), Entry(Run(v, steps, h).view, x));
  }

  // ---------- a service ----------

  /** Where a service's steps are in the plan: its volumes, its container, and its attachments behind it. */
  lemma ServiceLayout(graph: PlanGraph, gate: map<string, bool>, vols: ProxyVolumes, i: nat) returns (k: nat, c: nat)
    requires Active(graph, gate, i)
    ensures var s, steps := graph.services[i], PlanSteps(graph, gate, vols);
            var volumes, spec := NamedVolumes(s.id, s.spec.mounts), WithPrimaryNetwork(s.id, s.spec);
            && k < |steps| && steps[k] == EnsureNetwork(ServiceNetworkName(s.id), s.id, false)
            && c == k + 1 + |volumes| && c + |spec.networks| < |steps|
            && (forall m :: 0 <= m < |volumes| ==> steps[k + 1 + m] == EnsureVolume(volumes[m], s.id, s.removeVolumes))
            && steps[c] == EnsureContainer(ServiceContainerName(s.id), spec, s.id, false)
            && (forall m :: 0 <= m < |spec.networks| ==> steps[c + 1 + m] == Connect(ServiceContainerName(s.id), spec.networks[m]))
  {
    hide AllServiceSteps, ProxySteps, ReloadSteps, ServiceContainerName, ServiceNetworkName, WithPrimaryNetwork, NamedVolumes;
    var s := graph.services[i];
    k := LoopHasBlock(graph.services, gate, i);
    c := k + 1 + |NamedVolumes(s.id, s.spec.mounts)|;
    BlockLayout(s);
    assert GatedSteps(s, gate) == ServiceSteps(s);
    hide GatedSteps, ServiceSteps;
    var loop, steps := AllServiceSteps(graph.services, gate), PlanSteps(graph, gate, vols);
    assert forall m :: 0 <= m < |loop| ==> steps[m] == loop[m];
    var block := ServiceSteps(s);
    assert forall m :: 0 <= m < |block| ==> steps[k + m] == block[m];
    assert steps[k + 0] == block[0];
    var volumes, spec := NamedVolumes(s.id, s.spec.mounts), WithPrimaryNetwork(s.id, s.spec);
    forall m | 0 <= m < |volumes|
      ensures steps[k + 1 + m] == EnsureVolume(volumes[m], s.id, s.removeVolumes)
    {
      assert steps[k + (1 + m)] == block[1 + m];
    }
    assert steps[k + (1 + |volumes|)] == block[1 + |volumes|];
    forall m | 0 <= m < |spec.networks|
      ensures steps[c + 1 + m] == Connect(ServiceContainerName(s.id), spec.networks[m])
    {
      assert steps[k + (2 + |volumes| + m)] == block[2 + |volumes| + m];
    }
  }

  lemma BlockLayout(s: ServicePlan)
    ensures var volumes, spec, block := NamedVolumes(s.id, s.spec.mounts), WithPrimaryNetwork(s.id, s.spec), ServiceSteps(s);
            && |block| == 2 + |volumes| + |spec.networks|
            && block[0] == EnsureNetwork(ServiceNetworkName(s.id), s.id, false)
            && (forall m :: 0 <= m < |volumes| ==> block[1 + m] == EnsureVolume(volumes[m], s.id, s.removeVolumes))
            && block[1 + |volumes|] == EnsureContainer(ServiceContainerName(s.id), spec, s.id, false)
            && (forall m :: 0 <= m < |spec.networks| ==> block[2 + |volumes| + m] == Connect(ServiceContainerName(s.id), spec.networks[m]))
  {
    hide ServiceContainerName, ServiceNetworkName, WithPrimaryNetwork, NamedVolumes;
  }

  lemma {:induction false} OwnVolumesListed(id: string, mounts: seq<MountSpec>, i: nat)
    requires i < |mounts| && mounts[i].kind.VolumeMount? && "wanfw_" + id <= mounts[i].source
    ensures mounts[i].source in NamedVolumes(id, mounts)
  {
    if i > 0 {
      OwnVolumesListed(id, mounts[1..], i - 1);
    }
  }

  /**
   After a successful EXECUTE every service that is not parked has its network and its own volumes, and its container runs,
   attached to every network its plan lists, or to its own when the plan lists none.
   */
  lemma ServiceDeployed(graph: PlanGraph, gate: map<string, bool>, vols: ProxyVolumes, v: View, i: nat, h: Hashes)
    requires DistinctIds(graph.services) && Run(v, PlanSteps(graph, gate, vols), h).ok && i < |graph.services|
    requires graph.services[i].id in gate ==> gate[graph.services[i].id]
    ensures var s, u := graph.services[i], Run(v, PlanSteps(graph, gate, vols), h).view;
            var x, own := "wanfw_" + s.id, "wanfw_svc_" + s.id;
            && own in u.networks
            && (forall m :: m in s.spec.mounts && m.kind.VolumeMount? && x <= m.source ==> m.source in u.volumes)
            && x in u.containers && u.containers[x].state == "running"
            && (forall n :: n in s.spec.networks ==> n in u.containers[x].networks)
            && (s.spec.networks == [] ==> own in u.containers[x].networks)
            && (ConfigHash !in s.spec.labels ==>
                  ConfigHash in u.containers[x].labels
                  && u.containers[x].labels[ConfigHash] == h.config(if s.spec.networks == [] then s.spec.(networks := [own]) else s.spec))
  {
    hide Run, PlanSteps, NamedVolumes;
    var s, steps := graph.services[i], PlanSteps(graph, gate, vols);
    PlanStepsWellFormed(graph, gate, vols);
    var k, c := ServiceLayout(graph, gate, vols, i);
    NetworksEnsured(v, steps, k, h);
    EnsuredRuns(v, steps, c, h);
    var u := Run(v, steps, h).view;
    var volumes, spec := NamedVolumes(s.id, s.spec.mounts), WithPrimaryNetwork(s.id, s.spec);
    forall m | m in s.spec.mounts && m.kind.VolumeMount? && "wanfw_" + s.id <= m.source
      ensures m.source in u.volumes
    {
      var o :| 0 <= o < |s.spec.mounts| && s.spec.mounts[o] == m;
      OwnVolumesListed(s.id, s.spec.mounts, o);
      var w :| 0 <= w < |volumes| && volumes[w] == m.source;
      VolumesEnsured(v, steps, k + 1 + w, h);
    }
    forall w | 0 <= w < |spec.networks|
      ensures spec.networks[w] in u.containers["wanfw_" + s.id].networks
    {
      assert steps[c + 1 + w] == Connect(ServiceContainerName(s.id), spec.networks[w]);
      AttachedStays(v, steps, c, c + 1 + w, h);
    }
    assert s.spec.networks == [] ==> spec.networks[0] == "wanfw_svc_" + s.id;
  }

  /** The labels of a container that did not show the hash of its spec before: the plan's own, over those of the orchestrator. */
  lemma ServiceLabelled(graph: PlanGraph, gate: map<string, bool>, vols: ProxyVolumes, v: View, i: nat, h: Hashes)
    requires DistinctIds(graph.services) && Run(v, PlanSteps(graph, gate, vols), h).ok && i < |graph.services|
    requires graph.services[i].id in gate ==> gate[graph.services[i].id]
    requires "wanfw_" + graph.services[i].id !in v.containers
    ensures var s, u := graph.services[i], Run(v, PlanSteps(graph, gate, vols), h).view;
            var x := "wanfw_" + s.id;
            && x in u.containers
            && var l := u.containers[x].labels;
               && (forall k :: k in s.spec.labels && k != PlanLabel ==> k in l && l[k] == s.spec.labels[k])
               && (Managed !in s.spec.labels ==> Managed in l && l[Managed] == "true")
               && (ServiceLabel !in s.spec.labels && s.id != "" ==> ServiceLabel in l && l[ServiceLabel] == s.id)
               && (forall k :: k in l ==> k in s.spec.labels || k == Managed || k == ServiceLabel || k == ConfigHash)
  {
    hide Run, PlanSteps, NamedVolumes;
    var s, steps := graph.services[i], PlanSteps(graph, gate, vols);
    PlanStepsWellFormed(graph, gate, vols);
    var k, c := ServiceLayout(graph, gate, vols, i);
    MadeAnew(v, steps, c, h);
    FreshLabels(WithPrimaryNetwork(s.id, s.spec), s.id, h);
  }

  lemma FreshLabels(spec: ContainerSpec, id: string, h: Hashes)
    ensures var l := FreshContainer(spec, id, false, h).labels;
            && (forall k :: k in spec.labels && k != PlanLabel ==> k in l && l[k] == spec.labels[k])
            && (Managed !in spec.labels ==> Managed in l && l[Managed] == "true")
            && (ServiceLabel !in spec.labels && id != "" ==> ServiceLabel in l && l[ServiceLabel] == id)
            && (forall k :: k in l ==> k in spec.labels || k == Managed || k == ServiceLabel || k == ConfigHash)
  {
  }

  // ---------- the proxy ----------

  /** What the proxy container is to be: both volumes read-only, the exposure network first, ports only when the host publishes them. */
  function ProxyWanted(graph: PlanGraph, vols: ProxyVolumes): ContainerSpec
    requires graph.networkPlan.Some?
  {
    var edge := graph.networkPlan.value;
    ContainerSpec(
      "caddy@sha256:af5fdcd76f2db5e4e974ee92f96ee8c0fc3edb55bd4ba5032547cbf3f65e486d",
      [MountSpec(VolumeMount, vols.certs, "/data/certs", true), MountSpec(VolumeMount, vols.proxycfg, "/etc/caddy", true)],
      [],
      [edge.attachmentNetwork] + seq(|graph.services|, i requires 0 <= i < |graph.services| => "wanfw_svc_" + graph.services[i].id),
      "", if edge.endpointKind == "host-ports" then edge.ports else [], [], false, map[],
      Baseline([], [], map[], [], "", false, "", "", "unless-stopped"))
  }

  /** After a successful EXECUTE with an exposure network the proxy runs as wanted, attached to it and to every service's network. */
  lemma ProxyDeployed(graph: PlanGraph, gate: map<string, bool>, vols: ProxyVolumes, v: View, h: Hashes)
    requires DistinctIds(graph.services) && Run(v, PlanSteps(graph, gate, vols), h).ok
    requires graph.networkPlan.Some? && graph.networkPlan.value.attachmentNetwork != ""
    ensures var u, x, edge := Run(v, PlanSteps(graph, gate, vols), h).view, "wanfw-proxy", graph.networkPlan.value.attachmentNetwork;
            && edge in u.networks && x in u.containers && u.containers[x].state == "running"
            && edge in u.containers[x].networks
            && (forall i :: 0 <= i < |graph.services| ==> "wanfw_svc_" + graph.services[i].id in u.containers[x].networks)
            && ConfigHash in u.containers[x].labels && u.containers[x].labels[ConfigHash] == h.config(ProxyWanted(graph, vols))
  {
    hide Run, AllServiceSteps, ReloadSteps;
    var steps, loop, proxy := PlanSteps(graph, gate, vols), AllServiceSteps(graph.services, gate), ProxySteps(graph, vols);
    var edge := graph.networkPlan.value.attachmentNetwork;
    var spec := ProxySpec(edge, ServiceNetworks(graph.services), HostPorts(graph.networkPlan.value), vols);
    assert spec.networks == ProxyWanted(graph, vols).networks && spec == ProxyWanted(graph, vols);
    PlanStepsWellFormed(graph, gate, vols);
    var e := |loop|;
    assert steps[e] == EnsureNetwork(edge, "", true);
    assert steps[e + 1] == EnsureContainer(PROXY_CONTAINER_NAME, spec, "", true);
    NetworksEnsured(v, steps, e, h);
    EnsuredRuns(v, steps, e + 1, h);
    forall m | 0 <= m < |spec.networks|
      ensures spec.networks[m] in Run(v, steps, h).view.containers["wanfw-proxy"].networks
    {
      assert steps[e + 2 + m] == Connect(PROXY_CONTAINER_NAME, spec.networks[m]);
      AttachedStays(v, steps, e + 1, e + 2 + m, h);
    }
    hide ProxySteps;
    assert spec.networks[0] == edge;
    assert forall i :: 0 <= i < |graph.services| ==> spec.networks[i + 1] == "wanfw_svc_" + graph.services[i].id;
  }

  // ---------- the journal ----------

  /** A successful pass journals every step, in order. */
  lemma {:induction false} JournalComplete(v: View, steps: seq<Step>, h: Hashes)
    requires Run(v, steps, h).ok
    ensures var j := Run(v, steps, h).journal; |j| == |steps| && forall k :: 0 <= k < |j| ==> j[k].0 == steps[k]
    decreases |steps|
  {
    hide Apply;
    if steps != [] {
      JournalComplete(Apply(v, steps[0], h).view, steps[1..], h);
    }
  }

  /** Only a skipped service is journaled as parked, and a reload that is journaled in a successful pass has worked. */
  lemma {:induction false} JournalDetail(v: View, steps: seq<Step>, k: nat, h: Hashes)
    requires Run(v, steps, h).ok && k < |Run(v, steps, h).journal| && k < |steps|
    ensures var d := Run(v, steps, h).journal[k].1;
            && (steps[k].Skip? <==> d == Parked)
            && (steps[k].ProxyReload? ==> steps[k].exitOk && d == Reloaded)
    decreases |steps|
  {
    hide Calls;
    if k > 0 {
      JournalDetail(Apply(v, steps[0], h).view, steps[1..], k - 1, h);
      hide Apply;
      assert Run(v, steps, h).journal[k] == Run(Apply(v, steps[0], h).view, steps[1..], h).journal[k - 1];
    }
  }

  /** A successful EXECUTE journals every parked service as such, and ends with the reload if there is a render. */
  lemma ParkedAndReloadJournaled(graph: PlanGraph, gate: map<string, bool>, vols: ProxyVolumes, v: View, h: Hashes)
    requires Run(v, PlanSteps(graph, gate, vols), h).ok
    ensures var j := Run(v, PlanSteps(graph, gate, vols), h).journal;
            && (forall i :: 0 <= i < |graph.services| && graph.services[i].id in gate && !gate[graph.services[i].id] ==>
                 (Skip(graph.services[i].id), Parked) in j)
            && (graph.reload.Some? ==> j != [] && j[|j| - 1] == (ProxyReload(true), Reloaded))
  {
    hide Run, AllServiceSteps, ServiceSteps, ProxySteps;
    var steps, loop := PlanSteps(graph, gate, vols), AllServiceSteps(graph.services, gate);
    JournalComplete(v, steps, h);
    var j := Run(v, steps, h).journal;
    forall i | 0 <= i < |graph.services| && graph.services[i].id in gate && !gate[graph.services[i].id]
      ensures (Skip(graph.services[i].id), Parked) in j
    {
      var k := LoopHas(graph.services, gate, i, 0);
      assert steps[k] == Skip(graph.services[i].id);
      JournalDetail(v, steps, k, h);
      assert j[k] == (Skip(graph.services[i].id), Parked);
    }
    if graph.reload.Some? {
      var k := |steps| - 1;
      assert steps[k] == ProxyReload(graph.reload.value);
      JournalDetail(v, steps, k, h);
    }
  }

  // ---------- what a step reports, and how it goes about ----------

  /** A step other than a reload reports a change exactly when it made a Docker call. */
  lemma ChangedExactly(v: View, s: Step, h: Hashes)
    ensures !s.ProxyReload? ==> (Apply(v, s, h).Changed() <==> Calls(v, s, h) != [])
    ensures s.ProxyReload? ==> Calls(v, s, h) == [] && (Apply(v, s, h).Changed() <==> s.exitOk)
  {
    hide FreshContainer, Matches, NetworkLabels, VolumeLabels, Strip;
  }

  /** Nothing that stays is relabelled by a call. */
  ghost predicate SameLabels(a: View, b: View) {
    && (forall n :: n in a.networks && n in b.networks ==> a.networks[n] == b.networks[n])
    && (forall n :: n in a.volumes && n in b.volumes ==> a.volumes[n] == b.volumes[n])
    && (forall n :: n in a.containers && n in b.containers ==> a.containers[n].labels == b.containers[n].labels)
  }

  /** The view before the j-th call. */
  function Before(v: View, views: seq<View>, j: nat): View
    requires j < |views|
  {
    if j == 0 then v else views[j - 1]
  }

  lemma StepRelabelsNothing(v: View, s: Step, j: nat, h: Hashes)
    requires j < |Calls(v, s, h)|
    ensures SameLabels(Before(v, Calls(v, s, h), j), Calls(v, s, h)[j])
  {
    hide FreshContainer, Matches, NetworkLabels, VolumeLabels, Strip;
  }

  /** Docker cannot relabel: a container whose hash differs is removed by one call before another makes it again. */
  lemma {:induction false} NothingRelabelled(v: View, steps: seq<Step>, j: nat, h: Hashes)
    requires j < |AllCalls(v, steps, h)|
    ensures SameLabels(Before(v, AllCalls(v, steps, h), j), AllCalls(v, steps, h)[j])
    decreases |steps|
  {
    hide Apply, Calls, SameLabels;
    var calls := Calls(v, steps[0], h);
    if j < |calls| {
      StepRelabelsNothing(v, steps[0], j, h);
    } else {
      var u := Apply(v, steps[0], h).view;
      NothingRelabelled(u, steps[1..], j - |calls|, h);
      LastIsApplied(v, steps[0], h);
    }
  }

  lemma LastIsApplied(v: View, s: Step, h: Hashes)
    ensures Apply(v, s, h).view == LastView(v, Calls(v, s, h))
  {
  }
}

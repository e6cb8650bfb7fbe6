/**
 What EXECUTE guarantees about whole plans: convergence after any crashes, when the next pass is
 silent, and exactly when a validated plan succeeds.
 */
module ExecuteProperties {
  import opened Options
  import opened ContainerSpecs
  import opened Plans
  import opened DockerView
  import opened Convergence
  import opened Quiescence
  import opened ExecuteStage

  /** Passes over a plan that were cut off after any Docker calls, followed by a complete one, end where a single complete pass ends. */
  lemma ExecuteConverges(graph: PlanGraph, gate: map<string, bool>, vols: ProxyVolumes, v: View, cuts: seq<nat>, h: Hashes)
    requires DistinctIds(graph.services)
    ensures var steps := PlanSteps(graph, gate, vols);
            var once, resumed := Run(v, steps, h), Run(Interrupted(v, steps, cuts, h), steps, h);
            resumed.view == once.view && resumed.ok == once.ok
  {
    PlanStepsWellFormed(graph, gate, vols);
    hide *;
    RepeatedCrashConvergence(v, PlanSteps(graph, gate, vols), cuts, h);
  }

  /** The service's container step leaves a container that the next pass recognises. */
  ghost predicate Recognised(v: View, s: ServicePlan, h: Hashes) {
    var spec := WithPrimaryNetwork(s.id, s.spec);
    || HashLabelKept(spec, h)
    || (ServiceContainerName(s.id) in v.containers && Matches(v.containers[ServiceContainerName(s.id)], spec, h))
  }

  ghost predicate AllSettle(v: View, steps: seq<Step>, h: Hashes) {
    forall i :: 0 <= i < |steps| ==> LabelSettles(v, steps[i], h)
  }

  ghost predicate AllRecognised(v: View, services: seq<ServicePlan>, gate: map<string, bool>, h: Hashes) {
    forall i :: 0 <= i < |services| && !IsParked(gate, services[i].id) ==> Recognised(v, services[i], h)
  }

  lemma AllSettleConcat(v: View, a: seq<Step>, b: seq<Step>, h: Hashes)
    ensures AllSettle(v, a + b, h) <==> AllSettle(v, a, h) && AllSettle(v, b, h)
  {
    hide LabelSettles;
    if AllSettle(v, a + b, h) {
      assert forall i :: 0 <= i < |a| ==> a[i] == (a + b)[i];
      assert forall i :: 0 <= i < |b| ==> b[i] == (a + b)[|a| + i];
    }
  }

  /** Every ensure-container step of the service loop is that of a service which is not parked. */
  lemma {:induction false} EnsureStepsOfServices(services: seq<ServicePlan>, gate: map<string, bool>, v: View, h: Hashes)
    ensures AllRecognised(v, services, gate, h) <==> AllSettle(v, AllServiceSteps(services, gate), h)
    decreases |services|
  {
    hide Recognised, GatedSteps, LabelSettles;
    if services != [] {
      var n := |services| - 1;
      EnsureStepsOfServices(services[..n], gate, v, h);
      EnsureStepOfService(services[n], gate, v, h);
      AllSettleConcat(v, AllServiceSteps(services[..n], gate), GatedSteps(services[n], gate), h);
      assert forall i :: 0 <= i < n ==> services[..n][i] == services[i];
      if AllRecognised(v, services, gate, h) {
        assert AllRecognised(v, services[..n], gate, h);
      }
    }
  }

  lemma EnsureStepOfService(s: ServicePlan, gate: map<string, bool>, v: View, h: Hashes)
    ensures (!IsParked(gate, s.id) ==> Recognised(v, s, h)) <==> AllSettle(v, GatedSteps(s, gate), h)
  {
    hide HashLabelKept, Matches, WithPrimaryNetwork;
    if !IsParked(gate, s.id) {
      var k := 1 + |VolumeSteps(s.id, NamedVolumes(s.id, s.spec.mounts), s.removeVolumes)|;
      assert ServiceSteps(s)[k].EnsureContainer?;
      assert Recognised(v, s, h) <==> LabelSettles(v, ServiceSteps(s)[k], h);
    }
  }

  /**
   After a successful pass the next one succeeds, leaves everything as it is, and reports no change for any ensure or
   connect step exactly when no executed service hides its confighash label behind a label of its own
   (or its container carried the right one from the start).
   */
  lemma SecondExecuteQuiet(graph: PlanGraph, gate: map<string, bool>, vols: ProxyVolumes, v: View, h: Hashes)
    requires DistinctIds(graph.services)
    requires Run(v, PlanSteps(graph, gate, vols), h).ok
    ensures var steps := PlanSteps(graph, gate, vols);
            var second := Run(Run(v, steps, h).view, steps, h);
            && second.ok && second.view == Run(v, steps, h).view
            && (Quiet(second) <==> AllRecognised(v, graph.services, gate, h))
  {
    hide Run, Quiet, Recognised, AllServiceSteps, WellFormed, AllRecognised, ProxySteps;
    PlanStepsWellFormed(graph, gate, vols);
    var steps := PlanSteps(graph, gate, vols);
    SecondPassQuiet(v, steps, h);
    EnsureStepsOfServices(graph.services, gate, v, h);
    AllSettleConcat(v, AllServiceSteps(graph.services, gate), ProxySteps(graph, vols), h);
    AllSettleConcat(v, AllServiceSteps(graph.services, gate) + ProxySteps(graph, vols), ReloadSteps(graph), h);
    ProxySettles(v, graph, vols, h);
  }

  lemma ProxySettles(v: View, graph: PlanGraph, vols: ProxyVolumes, h: Hashes)
    ensures AllSettle(v, ProxySteps(graph, vols), h) && AllSettle(v, ReloadSteps(graph), h)
  {
  }

  /** VALIDATE lets a service attach to its own network only. */
  predicate OwnNetworksOnly(s: ServicePlan) {
    forall i :: 0 <= i < |s.spec.networks| ==> s.spec.networks[i] == ServiceNetworkName(s.id)
  }

  lemma OwnBlockSucceeds(u: View, s: ServicePlan, gate: map<string, bool>, h: Hashes)
    requires OwnNetworksOnly(s)
    ensures Run(u, GatedSteps(s, gate), h).ok
  {
    hide Run, StillAttached;
    ServiceStepsTouch(s, gate);
    var b := GatedSteps(s, gate);
    PassVerdict(u, b, h);
    forall i | 0 <= i < |b|
      ensures Feasible(u, b[..i], b[i], h)
    {
      if b[i].Connect? {
        assert b[..i][0] == b[0];
        assert NetworkEnsured(b[..i], ServiceNetworkName(s.id));
      }
    }
  }

  lemma {:induction false} OwnBlocksSucceed(v: View, services: seq<ServicePlan>, gate: map<string, bool>, h: Hashes)
    requires forall i :: 0 <= i < |services| && !IsParked(gate, services[i].id) ==> OwnNetworksOnly(services[i])
    ensures Run(v, AllServiceSteps(services, gate), h).ok
    ensures forall n :: NetworkEnsured(AllServiceSteps(services, gate), n) <==>
              exists i :: 0 <= i < |services| && !IsParked(gate, services[i].id) && n == ServiceNetworkName(services[i].id)
    decreases |services|
  {
    hide Run, GatedSteps;
    if services == [] {
      assert AllServiceSteps(services, gate) == [];
      SimStart(v, v, h);
    } else {
      var n := |services| - 1;
      OwnBlocksSucceed(v, services[..n], gate, h);
      var a, b := AllServiceSteps(services[..n], gate), GatedSteps(services[n], gate);
      RunConcat(v, a, b, h);
      if IsParked(gate, services[n].id) {
        SkipSucceeds(Run(v, a, h).view, services[n], gate, h);
      } else {
        OwnBlockSucceeds(Run(v, a, h).view, services[n], gate, h);
      }
      BlockNetworks(services[n], gate);
      forall m
        ensures NetworkEnsured(a + b, m) <==> NetworkEnsured(a, m) || NetworkEnsured(b, m)
      {
        NetworkEnsuredConcat(a, b, m);
      }
    }
  }

  lemma NetworkEnsuredConcat(a: seq<Step>, b: seq<Step>, n: string)
    ensures NetworkEnsured(a + b, n) <==> NetworkEnsured(a, n) || NetworkEnsured(b, n)
  {
    if NetworkEnsured(a, n) {
      var i :| 0 <= i < |a| && a[i].EnsureNetwork? && a[i].name == n;
      assert (a + b)[i] == a[i];
    }
    if NetworkEnsured(b, n) {
      var i :| 0 <= i < |b| && b[i].EnsureNetwork? && b[i].name == n;
      assert (a + b)[|a| + i] == b[i];
    }
  }

  lemma SkipSucceeds(u: View, s: ServicePlan, gate: map<string, bool>, h: Hashes)
    requires IsParked(gate, s.id)
    ensures Run(u, GatedSteps(s, gate), h).ok
  {
  }

  lemma BlockNetworks(s: ServicePlan, gate: map<string, bool>)
    ensures forall n :: NetworkEnsured(GatedSteps(s, gate), n) <==> !IsParked(gate, s.id) && n == ServiceNetworkName(s.id)
  {
    if !IsParked(gate, s.id) {
      assert ServiceSteps(s)[0] == EnsureNetwork(ServiceNetworkName(s.id), s.id, false);
    }
  }

  /** The proxy keeps its container, and with it an attachment it already has. */
  ghost predicate ProxyKeeps(v: View, graph: PlanGraph, vols: ProxyVolumes, n: string, h: Hashes)
    requires graph.networkPlan.Some?
  {
    var spec := ProxySpec(graph.networkPlan.value.attachmentNetwork, ServiceNetworks(graph.services), HostPorts(graph.networkPlan.value), vols);
    && PROXY_CONTAINER_NAME in v.containers
    && Matches(v.containers[PROXY_CONTAINER_NAME], spec, h)
    && n in v.containers[PROXY_CONTAINER_NAME].networks
  }

  ghost predicate ProxyFinds(u: View, graph: PlanGraph, vols: ProxyVolumes, n: string, h: Hashes)
    requires graph.networkPlan.Some?
  {
    n in u.networks || n == graph.networkPlan.value.attachmentNetwork || ProxyKeeps(u, graph, vols, n, h)
  }

  lemma ProxyStepVerdict(u: View, graph: PlanGraph, vols: ProxyVolumes, k: nat, h: Hashes)
    requires graph.networkPlan.Some? && graph.networkPlan.value.attachmentNetwork != ""
    requires k < |ProxySteps(graph, vols)|
    ensures var b := ProxySteps(graph, vols);
            && (b[k].Connect? <==> 2 <= k)
            && (b[k].Connect? ==> (Feasible(u, b[..k], b[k], h) <==> ProxyFinds(u, graph, vols, b[k].network, h)))
            && (!b[k].Connect? ==> Feasible(u, b[..k], b[k], h))
  {
    hide Matches;
    var b := ProxySteps(graph, vols);
    if 2 <= k {
      var done := b[..k];
      assert done[0] == b[0] && done[1] == b[1];
      assert EnsuredIn(done, PROXY_CONTAINER_NAME);
      assert forall n :: NetworkEnsured(done, n) <==> n == graph.networkPlan.value.attachmentNetwork;
    }
  }

  lemma ProxyBlockVerdict(u: View, graph: PlanGraph, vols: ProxyVolumes, h: Hashes)
    requires graph.networkPlan.Some? && graph.networkPlan.value.attachmentNetwork != ""
    ensures Run(u, ProxySteps(graph, vols), h).ok <==>
            forall i :: 0 <= i < |graph.services| ==> ProxyFinds(u, graph, vols, ServiceNetworkName(graph.services[i].id), h)
  {
    hide Run, Feasible, ProxyKeeps;
    ProxyStepsTouch(graph, vols);
    var b := ProxySteps(graph, vols);
    PassVerdict(u, b, h);
    forall k | 0 <= k < |b|
      ensures Feasible(u, b[..k], b[k], h) <==> k < 3 || ProxyFinds(u, graph, vols, ServiceNetworkName(graph.services[k - 3].id), h)
    {
      ProxyStepVerdict(u, graph, vols, k, h);
    }
    assert |b| == |graph.services| + 3;
    forall i | 0 <= i < |graph.services|
      ensures Feasible(u, b[..i + 3], b[i + 3], h) <==> ProxyFinds(u, graph, vols, ServiceNetworkName(graph.services[i].id), h)
    {
    }
  }

  /** A plan whose services were validated succeeds exactly when the reload does and the proxy finds the network of every parked service. */
  lemma ValidatedPlanVerdict(graph: PlanGraph, gate: map<string, bool>, vols: ProxyVolumes, v: View, h: Hashes)
    requires DistinctIds(graph.services)
    requires forall i :: 0 <= i < |graph.services| && !IsParked(gate, graph.services[i].id) ==> OwnNetworksOnly(graph.services[i])
    ensures Run(v, PlanSteps(graph, gate, vols), h).ok <==>
            && (graph.reload.Some? ==> graph.reload.value)
            && (graph.networkPlan.Some? && graph.networkPlan.value.attachmentNetwork != "" ==>
                forall i :: 0 <= i < |graph.services| && IsParked(gate, graph.services[i].id) ==>
                  ProxyFinds(v, graph, vols, ServiceNetworkName(graph.services[i].id), h))
  {
    hide Run, Matches, AllServiceSteps, Apply, ProxySpec, ReloadSteps;
    var a, b, c := AllServiceSteps(graph.services, gate), ProxySteps(graph, vols), ReloadSteps(graph);
    AllServiceStepsTouch(graph.services, gate);
    OwnBlocksSucceed(v, graph.services, gate, h);
    RunConcat(v, a, b, h);
    RunConcat(v, a + b, c, h);
    var u := Run(v, a, h).view;
    ReloadVerdict(Run(v, a + b, h).view, graph, h);
    assert a[..|a|] == a;
    PassTrace(v, a, |a|, h);
    assert !TouchedIn(a, PROXY_CONTAINER_NAME) by {
      forall i | 0 <= i < |graph.services|
        ensures ServiceContainerName(graph.services[i].id) != PROXY_CONTAINER_NAME
      {
        NamesDiffer(graph.services[i].id);
      }
    }
    Untouched(v, a, |a|, PROXY_CONTAINER_NAME, h);
    if graph.networkPlan.Some? && graph.networkPlan.value.attachmentNetwork != "" {
      ProxyBlockVerdict(u, graph, vols, h);
      forall i | 0 <= i < |graph.services|
        ensures ProxyFinds(u, graph, vols, ServiceNetworkName(graph.services[i].id), h) <==>
                !IsParked(gate, graph.services[i].id) || ProxyFinds(v, graph, vols, ServiceNetworkName(graph.services[i].id), h)
      {
        ParkedNetwork(graph.services, gate, i);
      }
    } else {
      SimStart(u, u, h);
    }
  }

  lemma ParkedNetwork(services: seq<ServicePlan>, gate: map<string, bool>, i: nat)
    requires DistinctIds(services) && i < |services|
    ensures (exists j :: 0 <= j < |services| && !IsParked(gate, services[j].id) && ServiceNetworkName(services[i].id) == ServiceNetworkName(services[j].id))
            <==> !IsParked(gate, services[i].id)
  {
    forall j | 0 <= j < |services| && ServiceNetworkName(services[i].id) == ServiceNetworkName(services[j].id)
      ensures services[i].id == services[j].id
    {
      assert ServiceNetworkName(services[i].id)[10..] == services[i].id && ServiceNetworkName(services[j].id)[10..] == services[j].id;
    }
  }

  lemma ReloadVerdict(u: View, graph: PlanGraph, h: Hashes)
    ensures Run(u, ReloadSteps(graph), h).ok <==> (graph.reload.Some? ==> graph.reload.value)
  {
  }

  /** A first pass with a parked service and a proxy fails: the proxy is connected to a network nobody has made. */
  lemma ParkedServiceStopsTheProxy(vols: ProxyVolumes, h: Hashes)
    ensures var spec := ContainerSpec("img", [], [], [], "", [], [], true, map[], NO_BASELINE);
            var graph := PlanGraph([ServicePlan("a", spec, "", false)], Some(NetworkPlan("edge", "", [])), None);
            !Run(View(map[], map[], map[]), PlanSteps(graph, map["a" := false], vols), h).ok
  {
    hide Run, PlanSteps, ProxySpec;
    var spec := ContainerSpec("img", [], [], [], "", [], [], true, map[], NO_BASELINE);
    var graph := PlanGraph([ServicePlan("a", spec, "", false)], Some(NetworkPlan("edge", "", [])), None);
    var v := View(map[], map[], map[]);
    ValidatedPlanVerdict(graph, map["a" := false], vols, v, h);
    assert IsParked(map["a" := false], graph.services[0].id);
    assert ServiceNetworkName("a")[0] == 'w' && "edge"[0] == 'e';
    assert !ProxyFinds(v, graph, vols, ServiceNetworkName(graph.services[0].id), h);
  }

  /** The world after n passes. */
  function AfterPasses(v: View, steps: seq<Step>, n: nat, h: Hashes): View {
    if n == 0 then v else Run(AfterPasses(v, steps, n - 1, h), steps, h).view
  }

  /** The first successful pass fixes the world for all the passes after it. */
  lemma {:induction false} PassesFixed(v: View, steps: seq<Step>, n: nat, h: Hashes)
    requires WellFormed(steps) && Run(v, steps, h).ok && n > 0
    ensures AfterPasses(v, steps, n, h) == Run(v, steps, h).view
  {
    hide Run, Quiet, LabelSettles;
    if n > 1 {
      PassesFixed(v, steps, n - 1, h);
      SecondPassQuiet(v, steps, h);
    } else {
      assert AfterPasses(v, steps, 0, h) == v;
    }
  }

  /** A service that sets the confighash label itself is recreated by every pass: none after the first is quiet. */
  lemma OverriddenLabelNeverSettles(vols: ProxyVolumes, h: Hashes, forged: string)
    requires forall s :: h.config(s) != forged
    ensures var spec := ContainerSpec("img", [], [], [], "", [], [], false, map[ConfigHash := forged], NO_BASELINE);
            var steps := PlanSteps(PlanGraph([ServicePlan("a", spec, "", false)], None, None), map[], vols);
            var v := View(map[], map[], map[]);
            Run(v, steps, h).ok && forall n :: n > 0 ==> !Quiet(Run(AfterPasses(v, steps, n, h), steps, h))
  {
    hide Run, PlanSteps, Quiet, AfterPasses;
    var spec := ContainerSpec("img", [], [], [], "", [], [], false, map[ConfigHash := forged], NO_BASELINE);
    var graph := PlanGraph([ServicePlan("a", spec, "", false)], None, None);
    var v := View(map[], map[], map[]);
    ValidatedPlanVerdict(graph, map[], vols, v, h);
    SecondExecuteQuiet(graph, map[], vols, v, h);
    assert !Recognised(v, graph.services[0], h);
    PlanStepsWellFormed(graph, map[], vols);
    forall n | n > 0
      ensures AfterPasses(v, PlanSteps(graph, map[], vols), n, h) == Run(v, PlanSteps(graph, map[], vols), h).view
    {
      PassesFixed(v, PlanSteps(graph, map[], vols), n, h);
    }
  }
}

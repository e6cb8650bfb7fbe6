/**
 Whose volume is it? VALIDATE and EXECUTE take a volume for a service's own when its name starts with `wanfw_<id>`
 (packages/orchestrator/src/validate/validate-plan.ts, packages/orchestrator/src/reconciler/execute-stage.ts). Ids may be
 prefixes of each other, and then a volume is the own volume of both.
 */
module VolumeOwnership {
  import opened Options
  import opened ContainerSpecs
  import opened Plans
  import opened DockerView
  import opened ExecuteStage
  import opened ObserveStage
  import opened ReconcileRun
  import opened Provenance
  import opened GcConservation
  import ValidatePlan

  /** One id is a prefix of the other. */
  predicate Related(a: string, b: string) { a <= b || b <= a }

  /** The name passes for a volume of the service. */
  predicate PassesFor(n: string, id: string) { ServiceContainerName(id) <= n }

  /** A volume mount offends exactly when its source does not pass for the service. */
  lemma PassesExactly(id: string, spec: ContainerSpec, grants: seq<ValidatePlan.Grant>, m: MountSpec)
    requires m in spec.mounts && m.kind.VolumeMount?
    ensures ValidatePlan.Offends(id, spec, grants, ValidatePlan.VolumeViolation(m.source)) <==> !PassesFor(m.source, id)
  {
  }

  lemma {:induction false} NamedVolumesExactly(id: string, mounts: seq<MountSpec>, n: string)
    ensures n in NamedVolumes(id, mounts) <==>
            PassesFor(n, id) && exists i :: 0 <= i < |mounts| && mounts[i].kind.VolumeMount? && mounts[i].source == n
  {
    hide ServiceContainerName;
    if mounts != [] {
      NamedVolumesExactly(id, mounts[1..], n);
      assert forall i :: 1 <= i < |mounts| ==> mounts[i] == mounts[1..][i - 1];
    }
  }

  /** Two services can claim one name exactly when one id is a prefix of the other. */
  lemma SharedExactly(a: string, b: string)
    ensures (exists n :: PassesFor(n, a) && PassesFor(n, b)) <==> Related(a, b)
  {
    var x, y := ServiceContainerName(a), ServiceContainerName(b);
    assert x[6..] == a && y[6..] == b;
    if a <= b {
      assert PassesFor(y, a) && PassesFor(y, b);
    } else if b <= a {
      assert PassesFor(x, a) && PassesFor(x, b);
    }
    if n :| PassesFor(n, a) && PassesFor(n, b) {
      assert n[6..][..|a|] == a && n[6..][..|b|] == b;
    }
  }

  /** In a history whose other service ids are unrelated to `id`, no run, cut off or not, takes a volume of the desired service `id`. */
  lemma OwnVolumesStay(views: seq<View>, runs: seq<RunInput>, j: nat, id: string, n: string, h: Hashes)
    requires IsHistory(views, runs, h) && j < |runs| && n in views[j].volumes && PassesFor(n, id) && id in Desired(runs[j])
    requires forall k, i :: 0 <= k < j && ActiveIn(runs[k], i) ==> Service(runs[k], i).id == id || !Related(Service(runs[k], i).id, id)
    ensures n in views[j + 1].volumes
  {
    hide MayEndIn, Desired, NamedVolumes, PassesFor;
    if n !in views[j + 1].volumes {
      var k, i := VolumeLoss(views, runs, j, n, h);
      var s := Service(runs[k], i);
      NamedVolumesExactly(s.id, s.spec.mounts, n);
      SharedExactly(s.id, id);
    }
  }

  // ---------- related ids lose data ----------

  /** A service that mounts the named volume. */
  function Mounting(id: string, n: string, rm: bool): ServicePlan {
    ServicePlan(id, ContainerSpec("img", [MountSpec(VolumeMount, n, "/data", false)], [], [], "", [], [], false, map[], NO_BASELINE), "deploy", rm)
  }

  /** The longer of two related names. */
  function Common(a: string, b: string): string { if a <= b then ServiceContainerName(b) else ServiceContainerName(a) }

  lemma CommonPasses(a: string, b: string)
    requires Related(a, b)
    ensures PassesFor(Common(a, b), a) && PassesFor(Common(a, b), b)
  {
  }

  lemma MountingVolumes(id: string, n: string, rm: bool)
    requires PassesFor(n, id)
    ensures NamedVolumes(id, Mounting(id, n, rm).spec.mounts) == [n]
  {
    var mounts := Mounting(id, n, rm).spec.mounts;
    assert NamedVolumes(id, mounts[1..]) == [];
  }

  /** The plan of an active service with named volumes has their steps. */
  lemma PlanHasVolume(graph: PlanGraph, gate: map<string, bool>, vols: ProxyVolumes, i: nat, n: string) returns (m: nat)
    requires Active(graph, gate, i) && NamedVolumes(graph.services[i].id, graph.services[i].spec.mounts) == [n]
    ensures m < |PlanSteps(graph, gate, vols)| && PlanSteps(graph, gate, vols)[m] == EnsureVolume(n, graph.services[i].id, graph.services[i].removeVolumes)
  {
    hide AllServiceSteps, ProxySteps, ReloadSteps, ServiceContainerName, ServiceNetworkName, WithPrimaryNetwork, NamedVolumes;
    assert GatedSteps(graph.services[i], gate)[1] == EnsureVolume(n, graph.services[i].id, graph.services[i].removeVolumes);
    m := LoopHas(graph.services, gate, i, 1);
  }

  lemma OneCompletes(v: View, id: string, n: string, rm: bool, vols: ProxyVolumes, h: Hashes)
    ensures var r := PlainRun([Mounting(id, n, rm)], vols); Completes(v, r, h) && Desired(r) == {id}
  {
    hide Run, PlanSteps, Desired, Executes, PlainRun;
    var services := [Mounting(id, n, rm)];
    MountingFacts(id, n, rm, vols);
    PlainDesired(services, vols);
    PlainCompletes(services, vols, v, h);
  }

  /** What a complete run over one service does to the volume it mounts. */
  lemma OneMounts(v: View, id: string, n: string, rm: bool, vols: ProxyVolumes, h: Hashes)
    requires PassesFor(n, id)
    ensures var r := PlainRun([Mounting(id, n, rm)], vols);
            && Completes(v, r, h) && Desired(r) == {id}
            && var u := Run(v, StepsOf(r), h).view;
               n in u.volumes && u.volumes[n] == if n in v.volumes then v.volumes[n] else Strip(VolumeLabels(n, id, rm, "", h))
  {
    OneCompletes(v, id, n, rm, vols, h);
    MountingFacts(id, n, rm, vols);
    MountingVolumes(id, n, rm);
    hide Run, PlanSteps, Desired, Executes, VolumeLabels, Strip, PassesFor, NamedVolumes, PlainRun, Mounting, NetworksGrown, ContainersTraced;
    var r := PlainRun([Mounting(id, n, rm)], vols);
    assert Active(r.graph.value, r.gate, 0);
    var m := PlanHasVolume(r.graph.value, r.gate, r.vols, 0, n);
    VolumesEnsured(v, StepsOf(r), m, h);
    AccountedRun(v, StepsOf(r), h);
    var u := Run(v, StepsOf(r), h).view;
    hide VolumeMade, StepsOf;
    if n !in v.volumes {
      VolumeOfRun(r, n, u.volumes[n], h);
      var i :| ActiveIn(r, i) && n in NamedVolumes(Service(r, i).id, Service(r, i).spec.mounts)
               && u.volumes[n] == Strip(VolumeLabels(n, Service(r, i).id, Service(r, i).removeVolumes, "", h));
      assert i == 0;
    }
  }

  lemma MountingFacts(id: string, n: string, rm: bool, vols: ProxyVolumes)
    ensures var services := [Mounting(id, n, rm)];
            && services[0].id == id && services[0].removeVolumes == rm && services[0].spec.networks == [] && DistinctIds(services)
            && PlainRun(services, vols).graph == Some(PlanGraph(services, None, None)) && PlainRun(services, vols).gate == map[]
  {
  }

  /** Volume labels and what collection makes of them. */
  lemma VolumeFate(n: string, id: string, rm: bool, desired: set<string>, h: Hashes)
    ensures var l := Strip(VolumeLabels(n, id, rm, "", h)); Collectable(l, desired) && DataMayGo(l) <==> rm && id != "" && id !in desired
  {
  }

  /**
   For any two related ids the data goes: `a` makes the volume with the opt-in, `b` mounts it too, `a` is removed, and the
   volume of the desired `b` is gone. The same complete run once more makes it again, empty: a run cut off after its last
   removal does not end where the uninterrupted one ends.
   */
  lemma RelatedIdsLoseData(a: string, b: string, vols: ProxyVolumes, h: Hashes)
    requires Related(a, b) && a != b && a != ""
    ensures var n := Common(a, b);
            var ra, rb := PlainRun([Mounting(a, n, true)], vols), PlainRun([Mounting(b, n, false)], vols);
            var first := RunView(EMPTY, ra, h);
            var second := RunView(first, rb, h);
            && IsHistory([EMPTY, first, second], [ra, rb], h)
            && Completes(EMPTY, ra, h) && Completes(first, rb, h) && Completes(second, rb, h)
            && Desired(rb) == {b} && n in NamedVolumes(b, Service(rb, 0).spec.mounts)
            && n in first.volumes && n !in second.volumes && n in RunView(second, rb, h).volumes
  {
    hide Run, StepsOf, Desired, Executes, VolumeLabels, Strip, PassesFor, NamedVolumes, MayEndIn, Common, Related, Collectable, DataMayGo, PlainRun;
    var n := Common(a, b);
    var ra, rb := PlainRun([Mounting(a, n, true)], vols), PlainRun([Mounting(b, n, false)], vols);
    var first := RunView(EMPTY, ra, h);
    var second := RunView(first, rb, h);
    CommonPasses(a, b);
    OneMounts(EMPTY, a, n, true, vols, h);
    OneMounts(first, b, n, false, vols, h);
    OneMounts(second, b, n, false, vols, h);
    VolumeFate(n, a, true, {a}, h);
    VolumeFate(n, a, true, {b}, h);
    VolumeFate(n, b, false, {b}, h);
    MountingVolumes(b, n, false);
    MountingFacts(b, n, false, vols);
    WholeRun(EMPTY, ra, h);
    WholeRun(first, rb, h);
    var views, runs := [EMPTY, first, second], [ra, rb];
    assert forall i :: 0 <= i < |runs| ==> MayEndIn(views[i], runs[i], views[i + 1], h);
  }
}

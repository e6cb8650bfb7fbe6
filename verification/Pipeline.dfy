/**
 VALIDATE, GATE and the gate test of EXECUTE (packages/orchestrator/src/reconciler/validate-stage.ts, gate-stage.ts,
 execute-stage.ts), and approval safety of whole runs interleaved with operator actions.
 */
module Pipeline {
  import opened Options
  import opened Plans
  import opened Projection
  import opened ValidatePlan
  import opened StateStores
  import opened DockerView
  import opened ExecuteStage

  /** `strictAll` says whether the framework's `strictApprovals` is "all". */
  datatype RunPlan = RunPlan(services: seq<ServicePlan>, strictAll: bool)

  datatype Classification = Classification(tier: Tier, projectionHash: Option<string>)

  datatype Gated = Gated(tier: Tier, projectionHash: string, approved: bool)

  /** The stage accepts a service that binds a plugin whose live grants cover its plan. */
  ghost predicate Accepted(t: Tables, s: ServicePlan) {
    s.plugin != "" && Covered(s.id, s.spec, LiveGrants(t.grants, s.plugin))
  }

  function SpecHash(s: ServicePlan, hash: string -> string): string { ProjectionHash(ProjectionInputFor(s.id, s.spec), hash) }

  ghost predicate ClassifiedAs(s: ServicePlan, c: Classification, hash: string -> string) {
    c == Classification(Tiering(s.spec), if IsPowerful(s.spec) then Some(SpecHash(s, hash)) else None)
  }

  ghost predicate Classifies(services: seq<ServicePlan>, v: map<string, Classification>, hash: string -> string) {
    && (forall id :: id in v ==> exists i :: 0 <= i < |services| && services[i].id == id)
    && (forall i :: 0 <= i < |services| ==> services[i].id in v && ClassifiedAs(services[i], v[services[i].id], hash))
  }

  lemma ClassifiesNone(services: seq<ServicePlan>, hash: string -> string)
    ensures Classifies(services[..0], map[], hash)
  {
  }

  lemma ClassifiesMore(services: seq<ServicePlan>, i: nat, v: map<string, Classification>, c: Classification, hash: string -> string)
    requires DistinctIds(services) && i < |services| && Classifies(services[..i], v, hash) && ClassifiedAs(services[i], c, hash)
    ensures Classifies(services[..i + 1], v[services[i].id := c], hash)
  {
    hide ClassifiedAs;
    var a, b := services[..i], services[..i + 1];
    assert forall k :: 0 <= k < i ==> b[k] == a[k] == services[k];
    assert b[i] == services[i];
    var w := v[services[i].id := c];
    forall id | id in w
      ensures exists k :: 0 <= k < |b| && b[k].id == id
    {
      if id != services[i].id {
        var k :| 0 <= k < |a| && a[k].id == id;
        assert b[k].id == id;
      }
    }
  }

  /** VALIDATE: every service is accepted under the grants of this moment, or the stage fails at the first that is not. */
  method ValidateStage(store: StateStore, plan: RunPlan, hash: string -> string) returns (r: Option<map<string, Classification>>)
    requires DistinctIds(plan.services)
    ensures r.Some? <==> forall i :: 0 <= i < |plan.services| ==> Accepted(store.Contents(), plan.services[i])
    ensures r.Some? ==> Classifies(plan.services, r.value, hash)
  {
    hide Covered, ProjectionHash, ProjectionInputFor, IsPowerful, Tiering, Classifies, DistinctIds, Offends, LiveGrants;
    ClassifiesNone(plan.services, hash);
    var classifications: map<string, Classification> := map[];
    for i := 0 to |plan.services|
      invariant forall k :: 0 <= k < i ==> Accepted(store.Contents(), plan.services[k])
      invariant Classifies(plan.services[..i], classifications, hash)
    {
      var s := plan.services[i];
      if s.plugin == "" {
        return None;
      }
      var grants := store.ListGrants(s.plugin);
      var result := ValidateContainerSpec(s.id, s.spec, grants, hash);
      if !result.ok {
        return None;
      }
      ClassifiesMore(plan.services, i, classifications, Classification(result.tier, result.projectionHash), hash);
      classifications := classifications[s.id := Classification(result.tier, result.projectionHash)];
    }
    assert plan.services[..|plan.services|] == plan.services;
    r := Some(classifications);
  }

  /** Whether a service must have a live approval of exactly its projection before it may run. */
  ghost predicate NeedsApproval(s: ServicePlan, strictAll: bool) { IsPowerful(s.spec) || s.id == "tier1" || strictAll }

  ghost predicate GatedAs(t: Tables, s: ServicePlan, strictAll: bool, gate: map<string, Gated>, hash: string -> string) {
    && (s.id in gate <==> NeedsApproval(s, strictAll))
    && (s.id in gate ==> gate[s.id].projectionHash == SpecHash(s, hash) && gate[s.id].approved == IsApproved(t, SpecHash(s, hash)))
  }

  /** GATE: an entry for every service that needs an approval, with the state of that approval at this moment. */
  method GateStage(store: StateStore, plan: RunPlan, validation: map<string, Classification>, hash: string -> string)
    returns (gate: map<string, Gated>)
    requires DistinctIds(plan.services) && Classifies(plan.services, validation, hash)
    ensures gate == GateMap(store.Contents(), plan.services, plan.strictAll, hash)
    ensures forall i :: 0 <= i < |plan.services| ==> GatedAs(store.Contents(), plan.services[i], plan.strictAll, gate, hash)
  {
    hide ProjectionHash, ProjectionInputFor, IsPowerful, IsApproved, GateMap, GatedAs, DistinctIds;
    gate := map[];
    GateNone(store.Contents(), plan.strictAll, hash);
    for i := 0 to |plan.services|
      invariant gate == GateMap(store.Contents(), plan.services[..i], plan.strictAll, hash)
    {
      var s := plan.services[i];
      GateMore(store.Contents(), plan.services, i, plan.strictAll, hash);
      assert ClassifiedAs(s, validation[s.id], hash);
      if s.id in validation {
        var classification := validation[s.id];
        var tier := if s.id == "tier1" then PowerfulTier else classification.tier;
        if tier == PowerfulTier || plan.strictAll {
          var projectionHash := if classification.projectionHash.Some? then classification.projectionHash.value
                                else ProjectionHash(ProjectionInputFor(s.id, s.spec), hash);
          var approved := store.ApprovedNow(projectionHash);
          gate := gate[s.id := Gated(tier, projectionHash, approved)];
        }
      }
    }
    assert plan.services[..|plan.services|] == plan.services;
    GateMapEntries(store.Contents(), plan.services, plan.strictAll, hash);
  }

  // ---------- runs interleaved with operator actions ----------

  datatype Phase =
    | Idle
    | PlanReady(plan: RunPlan)
    | ValidationDone(plan: RunPlan)
    | GateDone(plan: RunPlan, gate: map<string, Gated>, next: nat)

  datatype Machine = Machine(store: Tables, phase: Phase)

  datatype Event =
    | Operator(op: StoreOp)
    | StartRun(plan: RunPlan)   // LOAD, RESOLVE, PLAN and RENEWAL have succeeded
    | Validate
    | Gate
    | ExecuteNext(fails: bool)  // one service of the EXECUTE loop
    | EndRun                    // any failure, or the end of the pipeline

  ghost function GateMap(t: Tables, services: seq<ServicePlan>, strictAll: bool, hash: string -> string): map<string, Gated> {
    if services == [] then map[]
    else
      var n := |services| - 1;
      var s := services[n];
      var before := GateMap(t, services[..n], strictAll, hash);
      if NeedsApproval(s, strictAll)
      then before[s.id := Gated(if s.id == "tier1" then PowerfulTier else Tiering(s.spec), SpecHash(s, hash), IsApproved(t, SpecHash(s, hash)))]
      else before
  }

  lemma GateNone(t: Tables, strictAll: bool, hash: string -> string)
    ensures GateMap(t, [], strictAll, hash) == map[]
  {
  }

  lemma GateMore(t: Tables, services: seq<ServicePlan>, i: nat, strictAll: bool, hash: string -> string)
    requires i < |services|
    ensures var s, before := services[i], GateMap(t, services[..i], strictAll, hash);
            GateMap(t, services[..i + 1], strictAll, hash) ==
            if NeedsApproval(s, strictAll)
            then before[s.id := Gated(if s.id == "tier1" then PowerfulTier else Tiering(s.spec), SpecHash(s, hash), IsApproved(t, SpecHash(s, hash)))]
            else before
  {
    assert services[..i + 1][..i] == services[..i];
  }

  /** Stages have no `await` between reading the store and deciding, so each is one step; operator actions come in between. */
  ghost function Next(m: Machine, e: Event, hash: string -> string): Machine {
    match e
    case Operator(op) => m.(store := Perform(m.store, op))
    case StartRun(plan) => if m.phase.Idle? then m.(phase := PlanReady(plan)) else m
    case Validate =>
      if !m.phase.PlanReady? then m
      else if forall i :: 0 <= i < |m.phase.plan.services| ==> Accepted(m.store, m.phase.plan.services[i])
      then m.(phase := ValidationDone(m.phase.plan)) else m.(phase := Idle)
    case Gate =>
      if !m.phase.ValidationDone? then m
      else m.(phase := GateDone(m.phase.plan, GateMap(m.store, m.phase.plan.services, m.phase.plan.strictAll, hash), 0))
    case ExecuteNext(fails) =>
      if !m.phase.GateDone? || m.phase.next >= |m.phase.plan.services| then m
      else if fails && Touched(m).Some? then m.(phase := Idle)
      else m.(phase := m.phase.(next := m.phase.next + 1))
    case EndRun => m.(phase := Idle)
  }

  /** The service whose Docker objects the next EXECUTE step works on: none when the service is parked. */
  function Touched(m: Machine): Option<ServicePlan> {
    if !m.phase.GateDone? || m.phase.next >= |m.phase.plan.services| then None
    else
      var s := m.phase.plan.services[m.phase.next];
      if s.id in m.phase.gate && !m.phase.gate[s.id].approved then None else Some(s)
  }

  ghost function After(m: Machine, events: seq<Event>, hash: string -> string): Machine {
    if events == [] then m else Next(After(m, events[..|events| - 1], hash), events[|events| - 1], hash)
  }

  lemma {:induction false} GateMapEntries(t: Tables, services: seq<ServicePlan>, strictAll: bool, hash: string -> string)
    requires DistinctIds(services)
    ensures forall i :: 0 <= i < |services| ==> GatedAs(t, services[i], strictAll, GateMap(t, services, strictAll, hash), hash)
    ensures forall id :: id in GateMap(t, services, strictAll, hash) ==> exists i :: 0 <= i < |services| && services[i].id == id
  {
    hide SpecHash, NeedsApproval, IsApproved;
    if services != [] {
      GateMapEntries(t, services[..|services| - 1], strictAll, hash);
    }
  }

  /** The run of `plan` is past VALIDATE and has not ended. */
  predicate InRun(p: Phase, plan: RunPlan) { (p.ValidationDone? || p.GateDone?) && p.plan == plan }

  /** Where in the run so far VALIDATE, and then GATE, took place. */
  ghost predicate ValidatedSince(m0: Machine, events: seq<Event>, v: nat, plan: RunPlan, hash: string -> string) {
    && v < |events| && events[v] == Validate
    && (forall i :: v < i <= |events| ==> InRun(After(m0, events[..i], hash).phase, plan))
    && (forall i :: 0 <= i < |plan.services| ==> Accepted(After(m0, events[..v], hash).store, plan.services[i]))
  }

  ghost predicate GatedSince(m0: Machine, events: seq<Event>, g: nat, plan: RunPlan, gate: map<string, Gated>, hash: string -> string) {
    && g < |events| && events[g] == Gate
    && forall i :: 0 <= i < |plan.services| ==> GatedAs(After(m0, events[..g], hash).store, plan.services[i], plan.strictAll, gate, hash)
  }

  ghost predicate Explained(m0: Machine, events: seq<Event>, hash: string -> string) {
    var p := After(m0, events, hash).phase;
    match p
    case Idle => true
    case PlanReady(plan) => DistinctIds(plan.services)
    case ValidationDone(plan) => DistinctIds(plan.services) && exists v: nat :: ValidatedSince(m0, events, v, plan, hash)
    case GateDone(plan, gate, _) =>
      && DistinctIds(plan.services)
      && exists v: nat, g: nat :: v < g && ValidatedSince(m0, events, v, plan, hash) && GatedSince(m0, events, g, plan, gate, hash)
  }

  lemma PrefixAfter(m0: Machine, events: seq<Event>, e: Event, i: nat, hash: string -> string)
    requires i <= |events|
    ensures After(m0, (events + [e])[..i], hash) == After(m0, events[..i], hash)
  {
    assert (events + [e])[..i] == events[..i];
  }

  /** VALIDATE stays the run's validation as long as the run goes on. */
  lemma ValidatedStill(m0: Machine, events: seq<Event>, e: Event, v: nat, plan: RunPlan, hash: string -> string)
    requires ValidatedSince(m0, events, v, plan, hash) && InRun(After(m0, events + [e], hash).phase, plan)
    ensures ValidatedSince(m0, events + [e], v, plan, hash)
  {
    hide After, Accepted;
    PrefixAfter(m0, events, e, v, hash);
    forall i | v < i <= |events| + 1
      ensures InRun(After(m0, (events + [e])[..i], hash).phase, plan)
    {
      if i <= |events| {
        PrefixAfter(m0, events, e, i, hash);
      } else {
        assert (events + [e])[..i] == events + [e];
      }
    }
  }

  lemma GatedStill(m0: Machine, events: seq<Event>, e: Event, g: nat, plan: RunPlan, gate: map<string, Gated>, hash: string -> string)
    requires GatedSince(m0, events, g, plan, gate, hash)
    ensures GatedSince(m0, events + [e], g, plan, gate, hash)
  {
    hide After, GatedAs;
    PrefixAfter(m0, events, e, g, hash);
  }

  lemma ValidatedNow(m0: Machine, events: seq<Event>, plan: RunPlan, hash: string -> string)
    requires forall i :: 0 <= i < |plan.services| ==> Accepted(After(m0, events, hash).store, plan.services[i])
    requires InRun(After(m0, events + [Validate], hash).phase, plan)
    ensures ValidatedSince(m0, events + [Validate], |events|, plan, hash)
  {
    hide After, Accepted;
    assert (events + [Validate])[..|events|] == events && (events + [Validate])[..|events| + 1] == events + [Validate];
  }

  lemma GatedNow(m0: Machine, events: seq<Event>, plan: RunPlan, hash: string -> string)
    requires DistinctIds(plan.services)
    ensures GatedSince(m0, events + [Gate], |events|, plan, GateMap(After(m0, events, hash).store, plan.services, plan.strictAll, hash), hash)
  {
    hide After, GatedAs, GateMap;
    assert (events + [Gate])[..|events|] == events;
    GateMapEntries(After(m0, events, hash).store, plan.services, plan.strictAll, hash);
  }

  /** How one event moves the phase. */
  lemma PhaseMove(m: Machine, e: Event, hash: string -> string)
    ensures var p, q := m.phase, Next(m, e, hash).phase;
            || q.Idle?
            || q == p
            || (p.Idle? && e.StartRun? && q == PlanReady(e.plan))
            || (p.PlanReady? && e == Validate && q == ValidationDone(p.plan)
                && forall i :: 0 <= i < |p.plan.services| ==> Accepted(m.store, p.plan.services[i]))
            || (p.ValidationDone? && e == Gate && q == GateDone(p.plan, GateMap(m.store, p.plan.services, p.plan.strictAll, hash), 0))
            || (p.GateDone? && q.GateDone? && q.plan == p.plan && q.gate == p.gate)
  {
    hide Accepted, GateMap, Perform;
  }

  lemma AfterSnoc(m0: Machine, events: seq<Event>, e: Event, hash: string -> string)
    ensures After(m0, events + [e], hash) == Next(After(m0, events, hash), e, hash)
  {
    assert (events + [e])[..|events|] == events;
  }

  lemma {:induction false} AlwaysExplained(m0: Machine, events: seq<Event>, hash: string -> string)
    requires m0.phase.Idle?
    requires forall i :: 0 <= i < |events| && events[i].StartRun? ==> DistinctIds(events[i].plan.services)
    ensures Explained(m0, events, hash)
    decreases |events|
  {
    hide After, Next, ValidatedSince, GatedSince, GateMap, Accepted, DistinctIds;
    if events == [] {
      assert After(m0, events, hash) == m0 by { AfterNone(m0, hash); }
    } else {
      var before, e := events[..|events| - 1], events[|events| - 1];
      assert events == before + [e];
      AlwaysExplained(m0, before, hash);
      AfterSnoc(m0, before, e, hash);
      var p, q := After(m0, before, hash).phase, After(m0, events, hash).phase;
      PhaseMove(After(m0, before, hash), e, hash);
      if !q.Idle? && !q.PlanReady? {
        if p.PlanReady? {
          ValidatedNow(m0, before, p.plan, hash);
        } else if p.ValidationDone? {
          var v: nat :| ValidatedSince(m0, before, v, p.plan, hash);
          ValidatedStill(m0, before, e, v, p.plan, hash);
          if q.GateDone? {
            GatedNow(m0, before, p.plan, hash);
            assert v < |before| by { ValidatedBefore(m0, before, v, p.plan, hash); }
          }
        } else {
          var v: nat, g: nat :| v < g && ValidatedSince(m0, before, v, p.plan, hash) && GatedSince(m0, before, g, p.plan, p.gate, hash);
          ValidatedStill(m0, before, e, v, p.plan, hash);
          GatedStill(m0, before, e, g, p.plan, p.gate, hash);
        }
      }
    }
  }

  lemma AfterNone(m0: Machine, hash: string -> string)
    ensures After(m0, [], hash) == m0
  {
  }

  lemma ValidatedBefore(m0: Machine, events: seq<Event>, v: nat, plan: RunPlan, hash: string -> string)
    requires ValidatedSince(m0, events, v, plan, hash)
    ensures v < |events|
  {
  }

  // ---------- what EXECUTE does with the gate ----------

  /** The snapshot EXECUTE consults. */
  function Verdicts(gate: map<string, Gated>): map<string, bool> { map id | id in gate :: gate[id].approved }

  /** The machine's gate test is EXECUTE's. */
  lemma TouchedExactly(m: Machine)
    requires m.phase.GateDone? && m.phase.next < |m.phase.plan.services|
    ensures Touched(m).None? <==> IsParked(Verdicts(m.phase.gate), m.phase.plan.services[m.phase.next].id)
  {
  }

  /** A parked service makes no Docker call. */
  lemma ParkedMakesNoCall(v: View, s: ServicePlan, gate: map<string, bool>, h: Hashes)
    requires IsParked(gate, s.id)
    ensures AllCalls(v, GatedSteps(s, gate), h) == [] && Run(v, GatedSteps(s, gate), h).view == v
  {
    hide Calls, DetailOf, Apply;
    SkipStep(v, s.id, h);
    assert GatedSteps(s, gate) == [Skip(s.id)] && [Skip(s.id)][1..] == [];
    assert AllCalls(v, [], h) == [];
  }

  /** The operator actions among the events. */
  function Actions(events: seq<Event>): seq<StoreOp> {
    if events == [] then [] else
      var e := events[|events| - 1];
      Actions(events[..|events| - 1]) + if e.Operator? then [e.op] else []
  }

  /** The stages never write the store. */
  lemma {:induction false} StoreOfActions(m0: Machine, events: seq<Event>, hash: string -> string)
    ensures After(m0, events, hash).store == PerformAll(m0.store, Actions(events))
  {
    hide Perform, Accepted, GateMap;
    if events != [] {
      var front, e := events[..|events| - 1], events[|events| - 1];
      StoreOfActions(m0, front, hash);
      var ops := Actions(front);
      if e.Operator? {
        assert (ops + [e.op])[..|ops|] == ops;
      } else {
        assert ops + [] == ops;
      }
    }
  }

  /**
   Approval safety. However operator actions and stages interleave, and whatever Docker looks like, EXECUTE makes a Docker
   call for a service only if VALIDATE of the same run accepted its plan under the grants live at that moment and, where an
   approval is needed, an approval of exactly the plan's projection was live when GATE of the same run looked.
   */
  lemma ApprovalSafety(m0: Machine, events: seq<Event>, hash: string -> string, docker: View, h: Hashes) returns (v: nat, g: nat)
    requires m0.phase.Idle?
    requires forall i :: 0 <= i < |events| && events[i].StartRun? ==> DistinctIds(events[i].plan.services)
    requires var p := After(m0, events, hash).phase;
             && p.GateDone? && p.next < |p.plan.services|
             && AllCalls(docker, GatedSteps(p.plan.services[p.next], Verdicts(p.gate)), h) != []
    ensures var plan := After(m0, events, hash).phase.plan; var s := plan.services[After(m0, events, hash).phase.next];
            && v < g < |events| && events[v] == Validate && events[g] == Gate
            && (forall i :: v < i <= |events| ==> InRun(After(m0, events[..i], hash).phase, plan))
            && s.plugin != "" && Covered(s.id, s.spec, LiveGrants(After(m0, events[..v], hash).store.grants, s.plugin))
            && (IsPowerful(s.spec) || s.id == "tier1" || plan.strictAll ==>
                  && IsApproved(After(m0, events[..g], hash).store, SpecHash(s, hash))
                  // from an empty store: the last the operators said of that hash before GATE was to approve it
                  && (m0.store == NOTHING ==> ApprovedLast(Actions(events[..g]), SpecHash(s, hash))))
            // and the plugin's grants were exactly those it had been trusted with and not untrusted of by VALIDATE
            && (m0.store == NOTHING ==> forall a :: a in LiveGrants(After(m0, events[..v], hash).store.grants, s.plugin) <==>
                                                    GrantedLast(Actions(events[..v]), s.plugin, a))
  {
    hide After, Covered, IsPowerful, IsApproved, SpecHash, AllCalls, GatedSteps, ApprovedLast, GrantedLast, Actions, PerformAll, LiveGrants;
    AlwaysExplained(m0, events, hash);
    var p := After(m0, events, hash).phase;
    var s := p.plan.services[p.next];
    v, g :| v < g && ValidatedSince(m0, events, v, p.plan, hash) && GatedSince(m0, events, g, p.plan, p.gate, hash);
    assert GatedAs(After(m0, events[..g], hash).store, s, p.plan.strictAll, p.gate, hash);
    if IsParked(Verdicts(p.gate), s.id) {
      ParkedMakesNoCall(docker, s, Verdicts(p.gate), h);
    }
    StoreOfActions(m0, events[..g], hash);
    StoreOfActions(m0, events[..v], hash);
    ApprovedExactly(Actions(events[..g]), SpecHash(s, hash));
    forall a
      ensures a in LiveGrants(PerformAll(NOTHING, Actions(events[..v])).grants, s.plugin) <==> GrantedLast(Actions(events[..v]), s.plugin, a)
    {
      GrantedExactly(Actions(events[..v]), s.plugin, a);
    }
  }

  /** And a service of a gated run is parked exactly when it needs an approval that was not live when GATE looked. */
  lemma ParkedExactly(m0: Machine, events: seq<Event>, hash: string -> string) returns (g: nat)
    requires m0.phase.Idle?
    requires forall i :: 0 <= i < |events| && events[i].StartRun? ==> DistinctIds(events[i].plan.services)
    requires var p := After(m0, events, hash).phase; p.GateDone? && p.next < |p.plan.services|
    ensures var p := After(m0, events, hash).phase; var s := p.plan.services[p.next];
            && g < |events| && events[g] == Gate
            && (IsParked(Verdicts(p.gate), s.id) <==>
                (IsPowerful(s.spec) || s.id == "tier1" || p.plan.strictAll) && !IsApproved(After(m0, events[..g], hash).store, SpecHash(s, hash)))
  {
    hide After, Accepted, IsPowerful, IsApproved, SpecHash;
    AlwaysExplained(m0, events, hash);
    var p := After(m0, events, hash).phase;
    var v: nat;
    v, g :| v < g && ValidatedSince(m0, events, v, p.plan, hash) && GatedSince(m0, events, g, p.plan, p.gate, hash);
    assert GatedAs(After(m0, events[..g], hash).store, p.plan.services[p.next], p.plan.strictAll, p.gate, hash);
  }

  /** With an injective hash, the approval that let a plan through was given for a plan of the same power. */
  lemma ApprovalIsForThisPlan(s: ServicePlan, approved: ServicePlan, hash: string -> string)
    requires Injective(hash) && SpecHash(s, hash) == SpecHash(approved, hash)
    ensures s.id == approved.id && SamePower(ProjectionInputFor(s.id, s.spec), ProjectionInputFor(approved.id, approved.spec))
  {
    hide ProjectionText, BindMounts;
    ProjectionTextCanonical(ProjectionInputFor(s.id, s.spec), ProjectionInputFor(approved.id, approved.spec));
  }
}

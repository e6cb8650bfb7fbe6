/**
 One reconcile run: the desired-state loader (packages/orchestrator/src/desired-state/loader.ts), the LOAD stage
 (packages/orchestrator/src/reconciler/core-stages.ts) and the stage loop (packages/orchestrator/src/reconciler/engine.ts)
 over a Docker client. What RESOLVE to GATE answer is arbitrary.
 */
module ReconcileRun {
  import opened Options
  import opened Strings
  import opened DockerView
  import opened DockerClients
  import opened ExecuteStage
  import opened ObserveStage

  // ---------- the desired-state documents ----------

  /** Reading, parsing and validating one document: it loads, it is reported as an error, or the validator throws. */
  datatype FileResult = Loads(id: string) | Fails(message: string) | Throws

  datatype DirEntry = DirEntry(name: string, isFile: bool, content: FileResult)

  /** A directory that cannot be read lists nothing. */
  datatype Directory = Unreadable | Readable(entries: seq<DirEntry>)

  /** The framework document of the state store, if there is one, and the two directories of documents. */
  datatype Listing = Listing(framework: Option<FileResult>, services: Directory, plugins: Directory)

  datatype DesiredState = DesiredState(framework: bool, services: set<string>, plugins: set<string>, errors: seq<string>)

  predicate IsDocument(e: DirEntry) { e.isFile && EndsWith(e.name, ".json") }

  function Documents(entries: seq<DirEntry>): (r: seq<FileResult>)
    ensures forall f :: f in r <==> exists i :: 0 <= i < |entries| && IsDocument(entries[i]) && entries[i].content == f
  {
    if entries == [] then []
    else (if IsDocument(entries[0]) then [entries[0].content] else []) + Documents(entries[1..])
  }

  function JsonFiles(d: Directory): seq<FileResult> { if d.Unreadable? then [] else Documents(d.entries) }

  function Ids(files: seq<FileResult>): (r: set<string>)
    ensures forall id :: id in r <==> Loads(id) in files
  {
    set i | 0 <= i < |files| && files[i].Loads? :: files[i].id
  }

  function Errors(files: seq<FileResult>): (r: seq<string>)
    ensures r == [] <==> forall f :: f in files ==> !f.Fails?
  {
    if files == [] then []
    else
      assert files == files[..|files| - 1] + [files[|files| - 1]];
      Errors(files[..|files| - 1]) + if files[|files| - 1].Fails? then [files[|files| - 1].message] else []
  }

  function Framework(l: Listing): seq<FileResult> { if l.framework.Some? then [l.framework.value] else [] }

  /** What the loader returns: none when some validator throws. */
  function LoadedState(l: Listing): Option<DesiredState> {
    var services, plugins := JsonFiles(l.services), JsonFiles(l.plugins);
    if Throws in Framework(l) + services + plugins then None
    else Some(DesiredState(l.framework.Some? && l.framework.value.Loads?, Ids(services), Ids(plugins),
                           Errors(Framework(l)) + Errors(services) + Errors(plugins)))
  }

  /** The loop over the files of one directory, up to the first that throws. */
  method LoadFiles(files: seq<FileResult>) returns (ids: set<string>, errors: seq<string>, threw: bool)
    ensures threw <==> Throws in files
    ensures !threw ==> ids == Ids(files) && errors == Errors(files)
  {
    hide Ids, Errors;
    ids, errors, threw := {}, [], false;
    NoFiles();
    for i := 0 to |files|
      invariant Throws !in files[..i]
      invariant ids == Ids(files[..i]) && errors == Errors(files[..i])
    {
      OneFile(files, i);
      match files[i]
      case Loads(id) => ids := ids + {id};
      case Fails(message) => errors := errors + [message];
      case Throws => return ids, errors, true;
    }
    assert files[..|files|] == files;
  }

  lemma NoFiles()
    ensures Ids([]) == {} && Errors([]) == []
  {
  }

  lemma OneFile(files: seq<FileResult>, i: nat)
    requires i < |files|
    ensures files[..i + 1] == files[..i] + [files[i]]
    ensures Ids(files[..i + 1]) == Ids(files[..i]) + if files[i].Loads? then {files[i].id} else {}
    ensures Errors(files[..i + 1]) == Errors(files[..i]) + if files[i].Fails? then [files[i].message] else []
  {
    hide Ids;
    assert files[..i + 1][..i] == files[..i];
  }

  method LoadDesiredState(l: Listing) returns (state: Option<DesiredState>)
    ensures state == LoadedState(l)
  {
    hide Documents, Ids, Errors;
    var framework, errors := false, [];
    if l.framework.Some? {
      match l.framework.value
      case Loads(_) => framework := true;
      case Fails(message) => errors := [message];
      case Throws => return None;
    }
    FrameworkErrors(l);
    var services, serviceErrors, threw := LoadFiles(JsonFiles(l.services));
    if threw {
      return None;
    }
    var plugins, pluginErrors, threw2 := LoadFiles(JsonFiles(l.plugins));
    if threw2 {
      return None;
    }
    state := Some(DesiredState(framework, services, plugins, errors + serviceErrors + pluginErrors));
  }

  lemma FrameworkErrors(l: Listing)
    ensures Errors(Framework(l)) == if l.framework.Some? && l.framework.value.Fails? then [l.framework.value.message] else []
  {
    assert Errors([]) == [];
    if l.framework.Some? {
      assert [l.framework.value][..0] == [];
    }
  }

  predicate LoadPasses(l: Listing) { LoadedState(l).Some? && LoadedState(l).value.errors == [] }

  /** LOAD passes exactly when the framework document, if any, and every listed document of both directories load. */
  lemma LoadPassesExactly(l: Listing)
    ensures LoadPasses(l) <==>
            && (l.framework.Some? ==> l.framework.value.Loads?)
            && (l.services.Readable? ==> forall e :: e in l.services.entries && IsDocument(e) ==> e.content.Loads?)
            && (l.plugins.Readable? ==> forall e :: e in l.plugins.entries && IsDocument(e) ==> e.content.Loads?)
  {
    hide IsDocument, Ids, Errors, Documents;
    FrameworkErrors(l);
    DocumentsLoad(l.services);
    DocumentsLoad(l.plugins);
  }

  lemma DocumentsLoad(d: Directory)
    ensures Throws !in JsonFiles(d) && Errors(JsonFiles(d)) == [] <==>
            (d.Readable? ==> forall e :: e in d.entries && IsDocument(e) ==> e.content.Loads?)
  {
    hide IsDocument, Errors, Documents;
    var files := JsonFiles(d);
    if d.Readable? {
      if forall e :: e in d.entries && IsDocument(e) ==> e.content.Loads? {
        assert forall f :: f in files ==> f.Loads?;
      }
      if Throws !in files && Errors(files) == [] {
        forall e | e in d.entries && IsDocument(e)
          ensures e.content.Loads?
        {
          assert e.content in files;
        }
      }
    }
  }

  // ---------- the stages ----------

  datatype StageName = Load | Resolve | Plan | Renew | Validate | Gate | Execute | Observe

  const STAGES: seq<StageName> := [Load, Resolve, Plan, Renew, Validate, Gate, Execute, Observe]

  datatype Verdict = Passed | Refused | Threw

  /**
   What a run meets: the documents, the verdicts of the stages between LOAD and EXECUTE, the plan PLAN leaves (none without a
   framework document), the snapshot GATE leaves, and whether OBSERVE can write its status documents.
   */
  datatype RunInput = RunInput(
    listing: Listing, verdicts: StageName -> Verdict, graph: Option<PlanGraph>, gate: map<string, bool>,
    vols: ProxyVolumes, planId: string, statusWritten: bool)

  /** The stages up to GATE pass, so the run gets to EXECUTE. */
  predicate Reaches(r: RunInput) {
    && LoadPasses(r.listing)
    && r.verdicts(Resolve).Passed? && r.verdicts(Plan).Passed? && r.verdicts(Renew).Passed?
    && r.verdicts(Validate).Passed? && r.verdicts(Gate).Passed?
  }

  /** Without a framework document EXECUTE and OBSERVE pass and do nothing. */
  predicate Executes(r: RunInput) { Reaches(r) && LoadedState(r.listing).value.framework }

  function Desired(r: RunInput): set<string> {
    if LoadedState(r.listing).Some? then LoadedState(r.listing).value.services else {}
  }

  function StepsOf(r: RunInput): seq<Step> { if r.graph.None? then [] else PlanSteps(r.graph.value, r.gate, r.vols) }

  /** EXECUTE is reached and completes, so OBSERVE collects. */
  predicate Completes(v: View, r: RunInput, h: Hashes) { Executes(r) && Run(v, StepsOf(r), h).ok }

  /** The world after the whole run. */
  function RunView(v: View, r: RunInput, h: Hashes): View {
    if !Executes(r) then v
    else if !Run(v, StepsOf(r), h).ok then Run(v, StepsOf(r), h).view
    else Collect(Run(v, StepsOf(r), h).view, Desired(r))
  }

  predicate RunOk(v: View, r: RunInput, h: Hashes) {
    Reaches(r) && (Executes(r) ==> Run(v, StepsOf(r), h).ok && r.statusWritten)
  }

  /** The worlds a run can leave: the one it found, or the one after any of its Docker calls, in EXECUTE or in OBSERVE. */
  ghost predicate MayEndIn(v: View, r: RunInput, w: View, h: Hashes) {
    || w == v
    || (Executes(r) && w in AllCalls(v, StepsOf(r), h))
    || (Completes(v, r, h) && PartlyCollected(Run(v, StepsOf(r), h).view, w, Desired(r)))
  }

  class Context {
    var desired: Option<DesiredState>
    var planGraph: Option<PlanGraph>
    var gateSnapshot: map<string, bool>

    constructor ()
      ensures desired == None && planGraph == None && gateSnapshot == map[]
    {
      desired, planGraph, gateSnapshot := None, None, map[];
    }
  }

  /** LOAD; what the loader throws is caught by the stage. */
  method RunLoad(ctx: Context, l: Listing) returns (verdict: Verdict)
    modifies ctx`desired
    ensures verdict == if LoadPasses(l) then Passed else Refused
    ensures verdict.Passed? ==> ctx.desired == LoadedState(l)
  {
    var state := LoadDesiredState(l);
    if state.None? {
      return Refused;
    }
    ctx.desired := state;
    if |state.value.errors| > 0 {
      return Refused;
    }
    verdict := Passed;
  }

  method RunExecute(docker: DockerClient, ctx: Context, vols: ProxyVolumes, planId: string, h: Hashes) returns (verdict: Verdict)
    requires docker.Valid() && ctx.desired.Some?
    modifies docker
    ensures docker.Valid()
    ensures var steps := if ctx.desired.value.framework && ctx.planGraph.Some? then PlanSteps(ctx.planGraph.value, ctx.gateSnapshot, vols) else [];
            var p := Run(old(docker.Snapshot()), steps, h);
            && docker.Snapshot() == p.view && verdict == (if p.ok then Passed else Refused)
            && docker.history == old(docker.history) + AllCalls(old(docker.Snapshot()), steps, h)
  {
    hide PlanSteps;
    if !ctx.desired.value.framework || ctx.planGraph.None? {
      return Passed;
    }
    var ok, _ := ExecuteStage.Execute(docker, ctx.planGraph.value, ctx.gateSnapshot, vols, planId, h);
    verdict := if ok then Passed else Refused;
  }

  /** OBSERVE: collection, then the status documents, whose failure is an exception. */
  method RunObserve(docker: DockerClient, ctx: Context, statusWritten: bool) returns (verdict: Verdict)
    requires docker.Valid() && ctx.desired.Some?
    modifies docker
    ensures docker.Valid() && old(docker.history) <= docker.history
    ensures ctx.desired.value.framework ==>
              && docker.Snapshot() == Collect(old(docker.Snapshot()), ctx.desired.value.services)
              && verdict == (if statusWritten then Passed else Threw)
              && forall i :: |old(docker.history)| <= i < |docker.history| ==>
                   PartlyCollected(old(docker.Snapshot()), docker.history[i], ctx.desired.value.services)
    ensures !ctx.desired.value.framework ==>
              verdict.Passed? && docker.Snapshot() == old(docker.Snapshot()) && docker.history == old(docker.history)
  {
    hide PartlyCollected, Collect;
    if !ctx.desired.value.framework {
      return Passed;
    }
    CollectGarbage(docker, ctx.desired.value.services);
    verdict := if statusWritten then Passed else Threw;
  }

  /** How far a run has come before stage `i`. */
  ghost predicate Progress(docker: DockerClient, ctx: Context, r: RunInput, i: nat, v: View, h0: seq<View>, h: Hashes)
    reads docker, ctx
  {
    && docker.Valid()
    && (i > 0 ==> LoadPasses(r.listing) && ctx.desired == LoadedState(r.listing))
    && (forall k :: 1 <= k < i && k < 6 ==> r.verdicts(STAGES[k]).Passed?)
    && (i > 2 ==> ctx.planGraph == r.graph)
    && (i > 5 ==> ctx.gateSnapshot == r.gate)
    && (i <= 6 ==> docker.Snapshot() == v && docker.history == h0)
    && (i > 6 ==> if Executes(r)
                  then Run(v, StepsOf(r), h).ok && docker.Snapshot() == (if i == 7 then Run(v, StepsOf(r), h).view else RunView(v, r, h))
                  else docker.Snapshot() == v)
    && (i > 7 && Executes(r) ==> r.statusWritten)
    && Recorded(docker, r, v, h0, h)
  }

  ghost predicate Recorded(docker: DockerClient, r: RunInput, v: View, h0: seq<View>, h: Hashes)
    reads docker
  {
    && h0 <= docker.history && (!Executes(r) ==> docker.history == h0)
    && forall k :: |h0| <= k < |docker.history| ==> MayEndIn(v, r, docker.history[k], h)
  }

  /** The world and the history a stage leaves when it ends the run. */
  ghost predicate Ended(docker: DockerClient, r: RunInput, v: View, h0: seq<View>, h: Hashes)
    reads docker
  {
    docker.Valid() && docker.Snapshot() == RunView(v, r, h) && !RunOk(v, r, h) && Recorded(docker, r, v, h0, h)
  }

  method ExecuteTurn(docker: DockerClient, ctx: Context, r: RunInput, h: Hashes, ghost v: View, ghost h0: seq<View>)
    returns (verdict: Verdict)
    requires Progress(docker, ctx, r, 6, v, h0, h)
    modifies docker
    ensures verdict.Passed? ==> Progress(docker, ctx, r, 7, v, h0, h)
    ensures !verdict.Passed? ==> Ended(docker, r, v, h0, h)
  {
    hide LoadedState, PlanSteps, Run, AllCalls, Collect, PartlyCollected;
    AllPassed(r);
    CallsOfNothing(v, h);
    verdict := RunExecute(docker, ctx, r.vols, r.planId, h);
  }

  method ObserveTurn(docker: DockerClient, ctx: Context, r: RunInput, h: Hashes, ghost v: View, ghost h0: seq<View>)
    returns (verdict: Verdict)
    requires Progress(docker, ctx, r, 7, v, h0, h)
    modifies docker
    ensures verdict.Passed? ==> Progress(docker, ctx, r, 8, v, h0, h)
    ensures !verdict.Passed? ==> Ended(docker, r, v, h0, h)
  {
    hide LoadedState, PlanSteps, Run, AllCalls, Collect, PartlyCollected;
    AllPassed(r);
    verdict := RunObserve(docker, ctx, r.statusWritten);
  }

  method RunStage(docker: DockerClient, ctx: Context, r: RunInput, ghost i: nat, name: StageName, h: Hashes, ghost v: View, ghost h0: seq<View>)
    returns (verdict: Verdict)
    requires i < 8 && name == STAGES[i] && Progress(docker, ctx, r, i, v, h0, h)
    modifies docker, ctx
    ensures verdict.Passed? ==> Progress(docker, ctx, r, i + 1, v, h0, h)
    ensures !verdict.Passed? ==> Ended(docker, r, v, h0, h)
  {
    hide LoadedState, LoadPasses, StepsOf, MayEndIn, Run, Collect;
    match name
    case Load => verdict := RunLoad(ctx, r.listing);
    case Execute => verdict := ExecuteTurn(docker, ctx, r, h, v, h0);
    case Observe => verdict := ObserveTurn(docker, ctx, r, h, v, h0);
    case Plan =>
      verdict := r.verdicts(Plan);
      if verdict.Passed? {
        ctx.planGraph := r.graph;
      }
    case Gate =>
      verdict := r.verdicts(Gate);
      if verdict.Passed? {
        ctx.gateSnapshot := r.gate;
      }
    case _ => verdict := r.verdicts(name);
  }

  lemma AllPassed(r: RunInput)
    requires forall k :: 1 <= k < 6 ==> r.verdicts(STAGES[k]).Passed?
    ensures Reaches(r) == LoadPasses(r.listing)
  {
    assert r.verdicts(STAGES[1]).Passed? && r.verdicts(STAGES[2]).Passed? && r.verdicts(STAGES[3]).Passed?;
    assert r.verdicts(STAGES[4]).Passed? && r.verdicts(STAGES[5]).Passed?;
  }

  lemma CallsOfNothing(v: View, h: Hashes)
    ensures Run(v, [], h) == Pass(v, true, []) && AllCalls(v, [], h) == []
  {
  }

  /** runOnce: the stages in order, up to the first that fails or throws. */
  method RunOnce(docker: DockerClient, r: RunInput, h: Hashes) returns (ok: bool)
    requires docker.Valid()
    modifies docker
    ensures docker.Valid()
    ensures docker.Snapshot() == RunView(old(docker.Snapshot()), r, h)
    ensures ok == RunOk(old(docker.Snapshot()), r, h)
    ensures old(docker.history) <= docker.history
    ensures forall i :: |old(docker.history)| <= i < |docker.history| ==> MayEndIn(old(docker.Snapshot()), r, docker.history[i], h)
    ensures !LoadPasses(r.listing) ==> docker.history == old(docker.history)
  {
    hide LoadedState, StepsOf, Run, AllCalls, Collect, MayEndIn, LoadPasses;
    ghost var v, h0 := docker.Snapshot(), docker.history;
    var ctx := new Context();
    for i := 0 to |STAGES|
      invariant fresh(ctx) && Progress(docker, ctx, r, i, v, h0, h)
    {
      var verdict := RunStage(docker, ctx, r, i, STAGES[i], h, v, h0);
      if !verdict.Passed? {
        return false;
      }
    }
    AllPassed(r);
    ok := true;
  }

  /** The stages between LOAD and EXECUTE all pass. */
  predicate StagesPass(r: RunInput) { forall name :: name in {Resolve, Plan, Renew, Validate, Gate} ==> r.verdicts(name).Passed? }

  /**
   A run that LOAD or a later stage stops before EXECUTE, or that has no framework document, leaves Docker alone at every
   moment. Any other ends where the pass over its plan ends, and, if the pass completes, collects what the loaded services
   do not need.
   */
  lemma RunExactly(v: View, r: RunInput, h: Hashes)
    ensures !(LoadPasses(r.listing) && StagesPass(r) && r.listing.framework.Some?) ==>
              RunView(v, r, h) == v && forall w :: MayEndIn(v, r, w, h) <==> w == v
    ensures LoadPasses(r.listing) && StagesPass(r) && r.listing.framework.Some? ==>
              var steps := if r.graph.None? then [] else PlanSteps(r.graph.value, r.gate, r.vols);
              var p := Run(v, steps, h);
              RunView(v, r, h) == if p.ok then Collect(p.view, Ids(JsonFiles(r.listing.services))) else p.view
    ensures RunOk(v, r, h) ==> LoadPasses(r.listing) && StagesPass(r)
  {
    hide PlanSteps, Run, AllCalls, Collect, PartlyCollected, Ids, JsonFiles, Errors;
    FrameworkErrors(r.listing);
    LoadPassesExactly(r.listing);
  }

  /** A whole run ends in one of the worlds it may end in. */
  lemma WholeRun(v: View, r: RunInput, h: Hashes)
    ensures MayEndIn(v, r, RunView(v, r, h), h)
  {
    hide StepsOf, LoadedState, Collectable, DataMayGo, Run, AllCalls, Reaches;
    LastCall(v, StepsOf(r), h);
  }

  lemma {:induction false} LastCall(v: View, steps: seq<Step>, h: Hashes)
    ensures Run(v, steps, h).view == v || Run(v, steps, h).view in AllCalls(v, steps, h)
    decreases |steps|
  {
    hide Calls, DetailOf;
    if steps != [] {
      var o := Apply(v, steps[0], h);
      if o.Ok() {
        LastCall(o.view, steps[1..], h);
      }
    }
  }
}

/**
 What one EXECUTE step does to the Docker objects, as functions on a view of
 the Docker world. A view forgets object ids and the `wanfw.plan` label, the
 only two things that differ between two passes over the same plan.
 */
module DockerView {
  import opened ContainerSpecs

  datatype ContainerView = ContainerView(labels: Labels, networks: seq<string>, state: string)

  datatype View = View(
    networks: map<string, Labels>,
    volumes: map<string, Labels>,
    containers: map<string, ContainerView>)

  /** The three content hashes; nothing below depends on what they compute. */
  datatype Hashes = Hashes(config: ContainerSpec -> string, network: string -> string, volume: string -> string)

  datatype Step =
    | EnsureNetwork(name: string, service: string, core: bool)
    | EnsureVolume(name: string, service: string, removeOnDelete: bool)
    | EnsureContainer(name: string, spec: ContainerSpec, service: string, core: bool)
    | Connect(container: string, network: string)
    | Skip(service: string)
    | ProxyReload(exitOk: bool)

  datatype Detail =
    | AlreadyExists | Created | Recreated | Started | Unchanged
    | AlreadyConnected | Connected | ContainerNotFound
    | Parked | Reloaded | Failed
  {
    /** The `changed` flag of the journaled step result. */
    predicate Changed() { this in {Created, Recreated, Started, Connected, Reloaded} }
  }

  datatype Outcome = Outcome(view: View, detail: Detail)
  {
    predicate Ok() { detail != Failed }
    predicate Changed() { detail.Changed() }
  }

  const RUNNING := "running"

  function OwnerLabels(service: string, core: bool): Labels {
    (if service != "" then map[ServiceLabel := service] else map[]) +
    (if core then map[CoreLabel := "true"] else map[])
  }

  /** `spec.labels` comes last in a container's labels, so it can override every other label. */
  function NetworkLabels(name: string, service: string, core: bool, plan: string, h: Hashes): Labels {
    map[Managed := "true"] + map[PlanLabel := plan] + (map[ConfigHash := h.network(name)] + OwnerLabels(service, core))
  }

  function VolumeLabels(name: string, service: string, removeOnDelete: bool, plan: string, h: Hashes): Labels {
    map[Managed := "true"] + map[PlanLabel := plan] +
    map[ServiceLabel := service, ConfigHash := h.volume(name),
        RemoveVolumesOnDelete := if removeOnDelete then "true" else "false"]
  }

  function ContainerLabels(spec: ContainerSpec, service: string, core: bool, plan: string, h: Hashes): Labels {
    map[Managed := "true"] + map[PlanLabel := plan] +
    (map[ConfigHash := h.config(spec)] + OwnerLabels(service, core) + spec.labels)
  }

  function Strip(labels: Labels): Labels { labels - {PlanLabel} }

  function FreshContainer(spec: ContainerSpec, service: string, core: bool, h: Hashes): ContainerView {
    ContainerView(Strip(ContainerLabels(spec, service, core, "", h)), [], "created")
  }

  /** The idempotency test: the live object carries the hash of the wanted spec. */
  predicate Matches(c: ContainerView, spec: ContainerSpec, h: Hashes) {
    ConfigHash in c.labels && c.labels[ConfigHash] == h.config(spec)
  }

  function SetContainer(v: View, name: string, c: ContainerView): View {
    v.(containers := v.containers[name := c])
  }

  /** The views after each Docker call of one step; empty when the step makes no change. */
  function Calls(v: View, s: Step, h: Hashes): seq<View> {
    match s
    case EnsureNetwork(name, service, core) =>
      if name in v.networks then []
      else [v.(networks := v.networks[name := Strip(NetworkLabels(name, service, core, "", h))])]
    case EnsureVolume(name, service, rm) =>
      if name in v.volumes then []
      else [v.(volumes := v.volumes[name := Strip(VolumeLabels(name, service, rm, "", h))])]
    case EnsureContainer(name, spec, service, core) =>
      var created := FreshContainer(spec, service, core, h);
      if name in v.containers && Matches(v.containers[name], spec, h) then
        if v.containers[name].state == RUNNING then []
        else [SetContainer(v, name, v.containers[name].(state := RUNNING))]
      else
        (if name in v.containers then [v.(containers := v.containers - {name})] else []) +
        [SetContainer(v, name, created), SetContainer(v, name, created.(state := RUNNING))]
    case Connect(c, n) =>
      if c !in v.containers || n in v.containers[c].networks || n !in v.networks then []
      else [SetContainer(v, c, v.containers[c].(networks := v.containers[c].networks + [n]))]
    case Skip(_) => []
    case ProxyReload(_) => []
  }

  function DetailOf(v: View, s: Step, h: Hashes): Detail {
    match s
    case EnsureNetwork(name, _, _) => if name in v.networks then AlreadyExists else Created
    case EnsureVolume(name, _, _) => if name in v.volumes then AlreadyExists else Created
    case EnsureContainer(name, spec, _, _) =>
      if name !in v.containers then Created
      else if !Matches(v.containers[name], spec, h) then Recreated
      else if v.containers[name].state != RUNNING then Started
      else Unchanged
    case Connect(c, n) =>
      if c !in v.containers then ContainerNotFound
      else if n in v.containers[c].networks then AlreadyConnected
      else if n !in v.networks then Failed  // the real client throws "network ... not found"
      else Connected
    case Skip(_) => Parked
    case ProxyReload(exitOk) => if exitOk then Reloaded else Failed
  }

  function LastView(v: View, views: seq<View>): View {
    if views == [] then v else views[|views| - 1]
  }

  function Apply(v: View, s: Step, h: Hashes): Outcome {
    Outcome(LastView(v, Calls(v, s, h)), DetailOf(v, s, h))
  }

  datatype Pass = Pass(view: View, ok: bool, journal: seq<(Step, Detail)>)

  /** A whole EXECUTE pass: the steps in order, stopping at the first that fails. */
  function Run(v: View, steps: seq<Step>, h: Hashes): Pass
    decreases |steps|
  {
    if steps == [] then Pass(v, true, [])
    else
      var o := Apply(v, steps[0], h);
      if !o.Ok() then Pass(o.view, false, [(steps[0], o.detail)])
      else
        var rest := Run(o.view, steps[1..], h);
        rest.(journal := [(steps[0], o.detail)] + rest.journal)
  }

  /** The views after each Docker call of a whole pass. */
  function AllCalls(v: View, steps: seq<Step>, h: Hashes): seq<View>
    decreases |steps|
  {
    if steps == [] then []
    else
      var o := Apply(v, steps[0], h);
      Calls(v, steps[0], h) + (if o.Ok() then AllCalls(o.view, steps[1..], h) else [])
  }
}

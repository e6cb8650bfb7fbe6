/**
 The in-memory Docker client (packages/orchestrator/src/execute/fake-docker-client.ts), with the
 "network not found" failure of the real one, and the idempotent primitives built on it
 (packages/orchestrator/src/execute/ensure.ts).
 */
module DockerClients {
  import opened ContainerSpecs
  import opened DockerView

  datatype ObjectId = ObjectId(kind: string, serial: nat)
  datatype NetworkInfo = NetworkInfo(id: ObjectId, name: string, labels: Labels)
  datatype VolumeInfo = VolumeInfo(name: string, labels: Labels)
  datatype ContainerInfo = ContainerInfo(id: ObjectId, name: string, labels: Labels, networks: seq<string>, state: string)

  type Containers = map<string, ContainerInfo>

  /** Keys are names, and no two containers share an id. */
  ghost predicate Indexed(m: Containers, nextId: nat) {
    && (forall n :: n in m ==> m[n].name == n && m[n].id.serial < nextId)
    && (forall i, j :: i in m && j in m && m[i].id == m[j].id ==> i == j)
  }

  ghost predicate IndexedNetworks(m: map<string, NetworkInfo>, nextId: nat) {
    && (forall n :: n in m ==> m[n].name == n && m[n].id.serial < nextId)
    && (forall i, j :: i in m && j in m && m[i].id == m[j].id ==> i == j)
  }

  function Seen(c: ContainerInfo): ContainerView { ContainerView(Strip(c.labels), c.networks, c.state) }

  function AllSeen(m: Containers): map<string, ContainerView> { map n | n in m :: Seen(m[n]) }

  function SeenNetworks(m: map<string, NetworkInfo>): map<string, Labels> { map n | n in m :: Strip(m[n].labels) }

  function SeenVolumes(m: map<string, VolumeInfo>): map<string, Labels> { map n | n in m :: Strip(m[n].labels) }

  /** The container with the given id, changed by `f`. */
  function WithId(m: Containers, id: ObjectId, f: ContainerInfo -> ContainerInfo): Containers {
    map n | n in m :: if m[n].id == id then f(m[n]) else m[n]
  }

  function WithoutId(m: Containers, id: ObjectId): Containers {
    map n | n in m && m[n].id != id :: m[n]
  }

  function Start(c: ContainerInfo): ContainerInfo { c.(state := RUNNING) }

  function Attach(network: string): ContainerInfo -> ContainerInfo {
    (c: ContainerInfo) => if network in c.networks then c else c.(networks := c.networks + [network])
  }

  lemma SeenWithId(m: Containers, nextId: nat, n: string, f: ContainerInfo -> ContainerInfo)
    requires Indexed(m, nextId) && n in m
    requires forall c :: f(c).id == c.id && f(c).name == c.name
    ensures Indexed(WithId(m, m[n].id, f), nextId)
    ensures AllSeen(WithId(m, m[n].id, f)) == AllSeen(m)[n := Seen(f(m[n]))]
  {
    hide Seen;
    assert AllSeen(WithId(m, m[n].id, f)).Keys == AllSeen(m)[n := Seen(f(m[n]))].Keys;
  }

  lemma WithoutIdIsRemoval(m: Containers, nextId: nat, n: string)
    requires Indexed(m, nextId) && n in m
    ensures WithoutId(m, m[n].id) == m - {n}
  {
  }

  lemma WithoutNetworkIdIsRemoval(m: map<string, NetworkInfo>, nextId: nat, n: string)
    requires IndexedNetworks(m, nextId) && n in m
    ensures WithoutNetworkId(m, m[n].id) == m - {n}
  {
  }

  function WithoutNetworkId(m: map<string, NetworkInfo>, id: ObjectId): map<string, NetworkInfo> {
    map n | n in m && m[n].id != id :: m[n]
  }

  lemma SeenWithoutId(m: Containers, nextId: nat, n: string)
    requires Indexed(m, nextId) && n in m
    ensures AllSeen(WithoutId(m, m[n].id)) == AllSeen(m) - {n}
  {
    hide Seen;
  }

  lemma SeenEntry(m: Containers, n: string)
    ensures n in AllSeen(m) <==> n in m
    ensures n in m ==> AllSeen(m)[n] == Seen(m[n])
  {
    hide Seen;
  }

  lemma SeenUpdate(m: Containers, n: string, c: ContainerInfo)
    ensures AllSeen(m[n := c]) == AllSeen(m)[n := Seen(c)]
  {
    hide Seen;
  }

  class DockerClient {
    var networks: map<string, NetworkInfo>
    var volumes: map<string, VolumeInfo>
    var containers: map<string, ContainerInfo>
    var nextId: nat
    ghost var history: seq<View>  // the view after each call that changed something

    ghost predicate Valid()
      reads this
    {
      && IndexedNetworks(networks, nextId)
      && (forall n :: n in volumes ==> volumes[n].name == n)
      && Indexed(containers, nextId)
    }

    ghost function Snapshot(): View
      reads this
    {
      View(SeenNetworks(networks), SeenVolumes(volumes), AllSeen(containers))
    }

    constructor ()
      ensures Valid() && Snapshot() == View(map[], map[], map[]) && history == []
    {
      networks, volumes, containers, nextId, history := map[], map[], map[], 1, [];
    }

    method CreateNetwork(name: string, labels: Labels) returns (id: ObjectId)
      requires Valid()
      modifies this
      ensures Valid() && history == old(history) + [Snapshot()]
      ensures networks == old(networks)[name := NetworkInfo(id, name, labels)]
      ensures volumes == old(volumes) && containers == old(containers)
    {
      id := ObjectId("net", nextId);
      networks := networks[name := NetworkInfo(id, name, labels)];
      nextId := nextId + 1;
      history := history + [Snapshot()];
    }

    method CreateVolume(name: string, labels: Labels)
      requires Valid()
      modifies this
      ensures Valid() && history == old(history) + [Snapshot()]
      ensures volumes == old(volumes)[name := VolumeInfo(name, labels)]
      ensures networks == old(networks) && containers == old(containers)
    {
      volumes := volumes[name := VolumeInfo(name, labels)];
      history := history + [Snapshot()];
    }

    method CreateContainer(name: string, labels: Labels) returns (id: ObjectId)
      requires Valid()
      modifies this
      ensures Valid() && history == old(history) + [Snapshot()]
      ensures networks == old(networks) && volumes == old(volumes)
      ensures containers == old(containers)[name := ContainerInfo(id, name, labels, [], "created")]
    {
      id := ObjectId("ctr", nextId);
      containers := containers[name := ContainerInfo(id, name, labels, [], "created")];
      nextId := nextId + 1;
      history := history + [Snapshot()];
    }

    /** Removes whatever container carries the id; an id no container carries removes nothing. */
    method RemoveContainer(id: ObjectId)
      requires Valid()
      modifies this
      ensures Valid() && history == old(history) + [Snapshot()]
      ensures networks == old(networks) && volumes == old(volumes)
      ensures containers == WithoutId(old(containers), id)
    {
      containers := WithoutId(containers, id);
      history := history + [Snapshot()];
    }

    method StartContainer(id: ObjectId)
      requires Valid()
      modifies this
      ensures Valid() && history == old(history) + [Snapshot()]
      ensures networks == old(networks) && volumes == old(volumes)
      ensures containers == WithId(old(containers), id, Start)
    {
      containers := WithId(containers, id, Start);
      history := history + [Snapshot()];
    }

    /** Fails, changing nothing, when there is no network of that name. */
    method ConnectNetwork(id: ObjectId, network: string) returns (ok: bool)
      requires Valid()
      modifies this
      ensures Valid() && ok == (network in old(networks))
      ensures networks == old(networks) && volumes == old(volumes)
      ensures containers == if ok then WithId(old(containers), id, Attach(network)) else old(containers)
      ensures history == if ok then old(history) + [Snapshot()] else old(history)
    {
      ok := network in networks;
      if ok {
        containers := WithId(containers, id, Attach(network));
        history := history + [Snapshot()];
      }
    }

    method RemoveNetwork(id: ObjectId)
      requires Valid()
      modifies this
      ensures Valid() && history == old(history) + [Snapshot()]
      ensures volumes == old(volumes) && containers == old(containers)
      ensures networks == WithoutNetworkId(old(networks), id)
    {
      networks := WithoutNetworkId(networks, id);
      history := history + [Snapshot()];
    }

    method RemoveVolume(name: string)
      requires Valid()
      modifies this
      ensures Valid() && history == old(history) + [Snapshot()]
      ensures networks == old(networks) && containers == old(containers)
      ensures volumes == old(volumes) - {name}
    {
      volumes := volumes - {name};
      history := history + [Snapshot()];
    }
  }

  /** The plan id of the pass does not show in the view. */
  lemma PlanIdIsStripped(before: Labels, plan: string, other: string, after: Labels)
    ensures Strip(before + map[PlanLabel := plan] + after) == Strip(before + map[PlanLabel := other] + after)
  {
  }

  lemma NetworkPlanIdIsStripped(name: string, service: string, core: bool, plan: string, h: Hashes)
    ensures Strip(NetworkLabels(name, service, core, plan, h)) == Strip(NetworkLabels(name, service, core, "", h))
  {
    hide Strip, OwnerLabels;
    PlanIdIsStripped(map[Managed := "true"], plan, "", map[ConfigHash := h.network(name)] + OwnerLabels(service, core));
  }

  lemma VolumePlanIdIsStripped(name: string, service: string, rm: bool, plan: string, h: Hashes)
    ensures Strip(VolumeLabels(name, service, rm, plan, h)) == Strip(VolumeLabels(name, service, rm, "", h))
  {
    hide Strip;
    PlanIdIsStripped(map[Managed := "true"], plan, "",
                     map[ServiceLabel := service, ConfigHash := h.volume(name), RemoveVolumesOnDelete := if rm then "true" else "false"]);
  }

  lemma ContainerPlanIdIsStripped(spec: ContainerSpec, service: string, core: bool, plan: string, h: Hashes)
    ensures Strip(ContainerLabels(spec, service, core, plan, h)) == Strip(ContainerLabels(spec, service, core, "", h))
  {
    hide Strip, OwnerLabels;
    PlanIdIsStripped(map[Managed := "true"], plan, "", map[ConfigHash := h.config(spec)] + OwnerLabels(service, core) + spec.labels);
  }

  method EnsureNetworkStep(docker: DockerClient, name: string, service: string, core: bool, plan: string, h: Hashes)
    returns (detail: Detail)
    requires docker.Valid()
    modifies docker
    ensures docker.Valid()
    ensures var s := EnsureNetwork(name, service, core);
            && Outcome(docker.Snapshot(), detail) == Apply(old(docker.Snapshot()), s, h)
            && docker.history == old(docker.history) + Calls(old(docker.Snapshot()), s, h)
  {
    hide Strip, NetworkLabels;
    if name in docker.networks {
      return AlreadyExists;
    }
    NetworkPlanIdIsStripped(name, service, core, plan, h);
    var _ := docker.CreateNetwork(name, NetworkLabels(name, service, core, plan, h));
    return Created;
  }

  method EnsureVolumeStep(docker: DockerClient, name: string, service: string, removeOnDelete: bool, plan: string, h: Hashes)
    returns (detail: Detail)
    requires docker.Valid()
    modifies docker
    ensures docker.Valid()
    ensures var s := EnsureVolume(name, service, removeOnDelete);
            && Outcome(docker.Snapshot(), detail) == Apply(old(docker.Snapshot()), s, h)
            && docker.history == old(docker.history) + Calls(old(docker.Snapshot()), s, h)
  {
    hide Strip, VolumeLabels;
    if name in docker.volumes {
      return AlreadyExists;
    }
    VolumePlanIdIsStripped(name, service, removeOnDelete, plan, h);
    docker.CreateVolume(name, VolumeLabels(name, service, removeOnDelete, plan, h));
    return Created;
  }

  /** The three ways ensuring a container can go. */
  lemma EnsureContainerCases(v: View, s: Step, h: Hashes)
    requires s.EnsureContainer?
    ensures var made := FreshContainer(s.spec, s.service, s.core, h);
            var present := s.name in v.containers;
            if present && Matches(v.containers[s.name], s.spec, h) then
              var c := v.containers[s.name].(state := RUNNING);
              if v.containers[s.name].state == RUNNING then Calls(v, s, h) == [] && Apply(v, s, h) == Outcome(v, Unchanged)
              else Calls(v, s, h) == [SetContainer(v, s.name, c)] && Apply(v, s, h) == Outcome(SetContainer(v, s.name, c), Started)
            else
              && Calls(v, s, h) == (if present then [v.(containers := v.containers - {s.name})] else []) +
                                   [SetContainer(v, s.name, made), SetContainer(v, s.name, made.(state := RUNNING))]
              && Apply(v, s, h) == Outcome(SetContainer(v, s.name, made.(state := RUNNING)), if present then Recreated else Created)
  {
    hide FreshContainer, Matches;
  }

  /** The create and start calls at the end of ensureContainer. */
  method CreateAndStart(docker: DockerClient, name: string, spec: ContainerSpec, service: string, core: bool, plan: string, h: Hashes)
    requires docker.Valid()
    modifies docker
    ensures docker.Valid()
    ensures var v := old(docker.Snapshot()); var made := FreshContainer(spec, service, core, h);
            && docker.Snapshot() == SetContainer(v, name, made.(state := RUNNING))
            && docker.history == old(docker.history) + [SetContainer(v, name, made), SetContainer(v, name, made.(state := RUNNING))]
  {
    hide ContainerLabels, Strip, Indexed, IndexedNetworks, AllSeen, WithId;
    ghost var v, before := docker.Snapshot(), docker.containers;
    ghost var made := FreshContainer(spec, service, core, h);
    ContainerPlanIdIsStripped(spec, service, core, plan, h);
    var id := docker.CreateContainer(name, ContainerLabels(spec, service, core, plan, h));
    SeenUpdate(before, name, docker.containers[name]);
    assert docker.Snapshot() == SetContainer(v, name, made);
    SeenWithId(docker.containers, docker.nextId, name, Start);
    docker.StartContainer(id);
    assert SetContainer(v, name, made).containers[name := made.(state := RUNNING)] == v.containers[name := made.(state := RUNNING)];
  }

  method EnsureContainerStep(docker: DockerClient, name: string, spec: ContainerSpec, service: string, core: bool, plan: string, h: Hashes)
    returns (detail: Detail)
    requires docker.Valid()
    modifies docker
    ensures docker.Valid()
    ensures var s := EnsureContainer(name, spec, service, core);
            && Outcome(docker.Snapshot(), detail) == Apply(old(docker.Snapshot()), s, h)
            && docker.history == old(docker.history) + Calls(old(docker.Snapshot()), s, h)
  {
    hide FreshContainer, Calls, Apply, Strip, Indexed, IndexedNetworks, AllSeen, WithId, WithoutId;
    ghost var v := docker.Snapshot();
    EnsureContainerCases(v, EnsureContainer(name, spec, service, core), h);
    SeenEntry(docker.containers, name);
    var confighash := h.config(spec);
    if name in docker.containers {
      var existing := docker.containers[name];
      assert v.containers[name] == Seen(existing);
      ConfigHashShows(existing.labels);
      if ConfigHash in existing.labels && existing.labels[ConfigHash] == confighash {
        if existing.state != RUNNING {
          SeenWithId(docker.containers, docker.nextId, name, Start);
          docker.StartContainer(existing.id);
          return Started;
        }
        return Unchanged;
      }
      SeenWithoutId(docker.containers, docker.nextId, name);
      docker.RemoveContainer(existing.id);
      MakeAgain(v, name, FreshContainer(spec, service, core, h));
      detail := Recreated;
    } else {
      detail := Created;
    }
    CreateAndStart(docker, name, spec, service, core, plan, h);
  }

  lemma MakeAgain(v: View, name: string, made: ContainerView)
    ensures var gone := v.(containers := v.containers - {name});
            && SetContainer(gone, name, made) == SetContainer(v, name, made)
            && SetContainer(gone, name, made.(state := RUNNING)) == SetContainer(v, name, made.(state := RUNNING))
  {
    assert (v.containers - {name})[name := made] == v.containers[name := made];
    assert (v.containers - {name})[name := made.(state := RUNNING)] == v.containers[name := made.(state := RUNNING)];
  }

  lemma ConfigHashShows(l: Labels)
    ensures ConfigHash in Strip(l) <==> ConfigHash in l
    ensures ConfigHash in l ==> Strip(l)[ConfigHash] == l[ConfigHash]
  {
  }

  method ConnectStep(docker: DockerClient, container: string, network: string, h: Hashes)
    returns (detail: Detail)
    requires docker.Valid()
    modifies docker
    ensures docker.Valid()
    ensures var s := Connect(container, network);
            && Outcome(docker.Snapshot(), detail) == Apply(old(docker.Snapshot()), s, h)
            && docker.history == old(docker.history) + Calls(old(docker.Snapshot()), s, h)
  {
    if container !in docker.containers {
      return ContainerNotFound;
    }
    var c := docker.containers[container];
    if network in c.networks {
      return AlreadyConnected;
    }
    SeenWithId(docker.containers, docker.nextId, container, Attach(network));
    var ok := docker.ConnectNetwork(c.id, network);
    return if ok then Connected else Failed;
  }
}

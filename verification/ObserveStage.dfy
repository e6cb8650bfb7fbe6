/**
 Garbage collection in the OBSERVE stage (packages/orchestrator/src/reconciler/observe-stage.ts),
 with the world after each of its calls.
 */
module ObserveStage {
  import opened ContainerSpecs
  import opened DockerView
  import opened DockerClients

  predicate IsManaged(labels: Labels) { Managed in labels && labels[Managed] == "true" }

  /** Labelled with a service that desired state no longer has. */
  predicate IsOrphan(labels: Labels, desired: set<string>) {
    ServiceLabel in labels && labels[ServiceLabel] != "" && labels[ServiceLabel] !in desired
  }

  predicate Collectable(labels: Labels, desired: set<string>) { IsManaged(labels) && IsOrphan(labels, desired) }

  predicate DataMayGo(labels: Labels) { RemoveVolumesOnDelete in labels && labels[RemoveVolumesOnDelete] == "true" }

  function OrphanContainers(m: map<string, ContainerView>, desired: set<string>): set<string> {
    set n | n in m && Collectable(m[n].labels, desired)
  }

  function OrphanNetworks(m: map<string, Labels>, desired: set<string>): set<string> {
    set n | n in m && Collectable(m[n], desired)
  }

  function ExpiredVolumes(m: map<string, Labels>, desired: set<string>): set<string> {
    set n | n in m && Collectable(m[n], desired) && DataMayGo(m[n])
  }

  /** The world after garbage collection. */
  function Collect(v: View, desired: set<string>): View {
    View(v.networks - OrphanNetworks(v.networks, desired),
         v.volumes - ExpiredVolumes(v.volumes, desired),
         v.containers - OrphanContainers(v.containers, desired))
  }

  /** `r` is `m` without some of the names in `gone`. */
  ghost predicate Thinned<T>(m: map<string, T>, r: map<string, T>, gone: set<string>) {
    && (forall n :: n in r ==> n in m && r[n] == m[n])
    && (forall n :: n in m && n !in r ==> n in gone)
  }

  ghost predicate ContainersThinned(v: View, w: View, desired: set<string>) {
    w == v.(containers := w.containers) && Thinned(v.containers, w.containers, OrphanContainers(v.containers, desired))
  }

  ghost predicate NetworksThinned(v: View, w: View, desired: set<string>) {
    w == v.(networks := w.networks) && Thinned(v.networks, w.networks, OrphanNetworks(v.networks, desired))
  }

  ghost predicate VolumesThinned(v: View, w: View, desired: set<string>) {
    w == v.(volumes := w.volumes) && Thinned(v.volumes, w.volumes, ExpiredVolumes(v.volumes, desired))
  }

  /** The world after some of the calls of garbage collection: containers go before networks, networks before volumes. */
  ghost predicate PartlyCollected(v: View, w: View, desired: set<string>) {
    var u1 := v.(containers := v.containers - OrphanContainers(v.containers, desired));
    var u2 := u1.(networks := v.networks - OrphanNetworks(v.networks, desired));
    ContainersThinned(v, w, desired) || NetworksThinned(u1, w, desired) || VolumesThinned(u2, w, desired)
  }

  lemma StripKeepsTheRest(l: Labels, desired: set<string>)
    ensures Collectable(Strip(l), desired) == Collectable(l, desired) && DataMayGo(Strip(l)) == DataMayGo(l)
  {
  }

  /** The names, in some order, of the map entries that satisfy `p`: the filtered list a `listManaged*` call is reduced to. */
  method NamesWhere<T>(m: map<string, T>, p: T -> bool) returns (names: seq<string>)
    ensures forall n :: n in names <==> n in m && p(m[n])
  {
    names := [];
    var todo := m.Keys;
    while todo != {}
      invariant todo <= m.Keys
      invariant forall n :: n in names <==> n in m && n !in todo && p(m[n])
      decreases todo
    {
      var n :| n in todo;
      if p(m[n]) {
        names := names + [n];
      }
      todo := todo - {n};
    }
  }

  method CollectContainers(docker: DockerClient, desired: set<string>)
    requires docker.Valid()
    modifies docker
    ensures docker.Valid() && docker.networks == old(docker.networks) && docker.volumes == old(docker.volumes)
    ensures docker.containers == old(docker.containers) - OrphanContainers(AllSeen(old(docker.containers)), desired)
    ensures old(docker.history) <= docker.history
    ensures forall i :: |old(docker.history)| <= i < |docker.history| ==> ContainersThinned(old(docker.Snapshot()), docker.history[i], desired)
  {
    hide AllSeen, Collectable, Indexed, IndexedNetworks, Seen, WithoutId;
    ghost var all := docker.containers;
    var orphans := NamesWhere(docker.containers, (c: ContainerInfo) => Collectable(c.labels, desired));
    for i := 0 to |orphans|
      invariant docker.Valid() && docker.networks == old(docker.networks) && docker.volumes == old(docker.volumes)
      invariant docker.containers == all - set n | n in orphans[..i]
      invariant old(docker.history) <= docker.history
      invariant forall k :: |old(docker.history)| <= k < |docker.history| ==> ContainersThinned(old(docker.Snapshot()), docker.history[k], desired)
    {
      if orphans[i] in docker.containers {
        WithoutIdIsRemoval(docker.containers, docker.nextId, orphans[i]);
        docker.RemoveContainer(docker.containers[orphans[i]].id);
        SeenThinned(all, docker.containers, desired);
      }
    }
    assert orphans[..|orphans|] == orphans;
    forall n
      ensures n in orphans <==> n in OrphanContainers(AllSeen(all), desired)
    {
      SeenEntry(all, n);
      if n in all {
        SeenLabels(all[n], desired);
      }
    }
    assert (set n | n in orphans) == OrphanContainers(AllSeen(all), desired);
  }

  lemma SeenThinned(all: Containers, rest: Containers, desired: set<string>)
    requires forall n :: n in rest ==> n in all && rest[n] == all[n]
    requires forall n :: n in all && n !in rest ==> Collectable(all[n].labels, desired)
    ensures Thinned(AllSeen(all), AllSeen(rest), OrphanContainers(AllSeen(all), desired))
  {
    hide Collectable, Seen;
    forall n | n in all
      ensures Collectable(Seen(all[n]).labels, desired) == Collectable(all[n].labels, desired)
    {
      SeenLabels(all[n], desired);
    }
  }

  lemma SeenLabels(c: ContainerInfo, desired: set<string>)
    ensures Collectable(Seen(c).labels, desired) == Collectable(c.labels, desired)
  {
    StripKeepsTheRest(c.labels, desired);
  }

  lemma NetworksSeen(all: map<string, NetworkInfo>, rest: map<string, NetworkInfo>, desired: set<string>)
    requires forall n :: n in rest ==> n in all && rest[n] == all[n]
    requires forall n :: n in all && n !in rest ==> Collectable(all[n].labels, desired)
    ensures Thinned(SeenNetworks(all), SeenNetworks(rest), OrphanNetworks(SeenNetworks(all), desired))
  {
    hide Collectable, Strip;
    NetworkOrphans(all, desired);
  }

  lemma NetworkOrphans(all: map<string, NetworkInfo>, desired: set<string>)
    ensures forall n :: n in OrphanNetworks(SeenNetworks(all), desired) <==> n in all && Collectable(all[n].labels, desired)
  {
    hide Collectable, Strip;
    forall n | n in all
      ensures Collectable(Strip(all[n].labels), desired) == Collectable(all[n].labels, desired)
    {
      StripKeepsTheRest(all[n].labels, desired);
    }
  }

  method CollectNetworks(docker: DockerClient, desired: set<string>)
    requires docker.Valid()
    modifies docker
    ensures docker.Valid() && docker.containers == old(docker.containers) && docker.volumes == old(docker.volumes)
    ensures docker.networks == old(docker.networks) - OrphanNetworks(old(docker.Snapshot()).networks, desired)
    ensures old(docker.history) <= docker.history
    ensures forall i :: |old(docker.history)| <= i < |docker.history| ==> NetworksThinned(old(docker.Snapshot()), docker.history[i], desired)
  {
    hide AllSeen, SeenNetworks, SeenVolumes, Collectable, Indexed, IndexedNetworks, Strip, WithoutNetworkId, OrphanNetworks, Thinned;
    ghost var all := docker.networks;
    var orphans := NamesWhere(docker.networks, (n: NetworkInfo) => Collectable(n.labels, desired));
    for i := 0 to |orphans|
      invariant docker.Valid() && docker.containers == old(docker.containers) && docker.volumes == old(docker.volumes)
      invariant docker.networks == all - set n | n in orphans[..i]
      invariant old(docker.history) <= docker.history
      invariant forall k :: |old(docker.history)| <= k < |docker.history| ==> NetworksThinned(old(docker.Snapshot()), docker.history[k], desired)
    {
      if orphans[i] in docker.networks {
        WithoutNetworkIdIsRemoval(docker.networks, docker.nextId, orphans[i]);
        docker.RemoveNetwork(docker.networks[orphans[i]].id);
        NetworksSeen(all, docker.networks, desired);
      }
    }
    assert orphans[..|orphans|] == orphans;
    NetworkOrphans(all, desired);
    assert (set n | n in orphans) == OrphanNetworks(SeenNetworks(all), desired);
  }

  /** The volumes among the first `i` names that opted in to removal. */
  ghost function Opted(all: map<string, VolumeInfo>, names: seq<string>, i: nat): set<string>
    requires i <= |names|
  {
    set n | n in names[..i] && n in all && DataMayGo(all[n].labels)
  }

  lemma OneMoreVolume(all: map<string, VolumeInfo>, names: seq<string>, i: nat)
    requires i < |names|
    ensures Opted(all, names, i + 1) == Opted(all, names, i) + if names[i] in all && DataMayGo(all[names[i]].labels) then {names[i]} else {}
  {
    hide DataMayGo;
    assert names[..i + 1] == names[..i] + [names[i]];
  }

  lemma VolumesSeen(all: map<string, VolumeInfo>, rest: map<string, VolumeInfo>, desired: set<string>)
    requires forall n :: n in rest ==> n in all && rest[n] == all[n]
    requires forall n :: n in all && n !in rest ==> Collectable(all[n].labels, desired) && DataMayGo(all[n].labels)
    ensures Thinned(SeenVolumes(all), SeenVolumes(rest), ExpiredVolumes(SeenVolumes(all), desired))
  {
    hide Collectable, Strip, DataMayGo;
    VolumeOrphans(all, desired);
  }

  lemma VolumeOrphans(all: map<string, VolumeInfo>, desired: set<string>)
    ensures forall n :: n in ExpiredVolumes(SeenVolumes(all), desired) <==> n in all && Collectable(all[n].labels, desired) && DataMayGo(all[n].labels)
  {
    hide Collectable, Strip, DataMayGo;
    forall n | n in all
      ensures Collectable(Strip(all[n].labels), desired) == Collectable(all[n].labels, desired) && DataMayGo(Strip(all[n].labels)) == DataMayGo(all[n].labels)
    {
      StripKeepsTheRest(all[n].labels, desired);
    }
  }

  /** An orphaned volume goes only when it was created with `removeVolumesOnDelete=true`. */
  method CollectVolumes(docker: DockerClient, desired: set<string>)
    requires docker.Valid()
    modifies docker
    ensures docker.Valid() && docker.containers == old(docker.containers) && docker.networks == old(docker.networks)
    ensures docker.volumes == old(docker.volumes) - ExpiredVolumes(old(docker.Snapshot()).volumes, desired)
    ensures old(docker.history) <= docker.history
    ensures forall i :: |old(docker.history)| <= i < |docker.history| ==> VolumesThinned(old(docker.Snapshot()), docker.history[i], desired)
  {
    hide AllSeen, SeenNetworks, SeenVolumes, Collectable, Indexed, IndexedNetworks, Strip, DataMayGo, ExpiredVolumes, Thinned;
    ghost var all := docker.volumes;
    var orphans := NamesWhere(docker.volumes, (v: VolumeInfo) => Collectable(v.labels, desired));
    for i := 0 to |orphans|
      invariant docker.Valid() && docker.containers == old(docker.containers) && docker.networks == old(docker.networks)
      invariant docker.volumes == all - Opted(all, orphans, i)
      invariant old(docker.history) <= docker.history
      invariant forall k :: |old(docker.history)| <= k < |docker.history| ==> VolumesThinned(old(docker.Snapshot()), docker.history[k], desired)
    {
      OneMoreVolume(all, orphans, i);
      if orphans[i] in docker.volumes && DataMayGo(docker.volumes[orphans[i]].labels) {
        docker.RemoveVolume(orphans[i]);
        VolumesSeen(all, docker.volumes, desired);
      }
    }
    assert orphans[..|orphans|] == orphans;
    VolumeOrphans(all, desired);
    assert Opted(all, orphans, |orphans|) == ExpiredVolumes(SeenVolumes(all), desired);
  }

  /** The collection part of OBSERVE: containers, then networks, then the volumes that opted in. */
  method CollectGarbage(docker: DockerClient, desired: set<string>)
    requires docker.Valid()
    modifies docker
    ensures docker.Valid()
    ensures docker.Snapshot() == Collect(old(docker.Snapshot()), desired)
    ensures old(docker.history) <= docker.history
    ensures forall i :: |old(docker.history)| <= i < |docker.history| ==> PartlyCollected(old(docker.Snapshot()), docker.history[i], desired)
  {
    hide Strip, Collectable, DataMayGo, Indexed, IndexedNetworks, Seen, OrphanContainers, OrphanNetworks, ExpiredVolumes;
    CollectContainers(docker, desired);
    CollectNetworks(docker, desired);
    CollectVolumes(docker, desired);
  }
}

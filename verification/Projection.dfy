/**
 The powerful projection (packages/core-schemas/src/projection.ts) and its hash, the key of approvals.
 The hash function is a parameter; where two hashes are compared it is assumed injective.
 */
module Projection {
  import opened Options
  import opened ContainerSpecs
  import opened Sorting
  import opened CanonicalJson

  datatype Bind = Bind(source: string, target: string, ro: bool)

  datatype ProjectionInput = ProjectionInput(
    serviceId: string, image: string, mounts: seq<Bind>, devices: seq<string>, networkMode: Option<string>,
    privileged: bool, capAdd: seq<string>, publishedPorts: seq<int>)

  /** The order of `sortMounts`: source, then target, then read-only first. */
  predicate BindLe(a: Bind, b: Bind) {
    if a.source != b.source then StringLe(a.source, b.source)
    else if a.target != b.target then StringLe(a.target, b.target)
    else a.ro || !b.ro
  }

  predicate IntLe(a: int, b: int) { a <= b }

  function BuildPowerfulProjection(input: ProjectionInput): ProjectionInput {
    input.(mounts := Sort(input.mounts, BindLe), devices := Sort(input.devices, StringLe),
           capAdd := Sort(input.capAdd, StringLe), publishedPorts := Sort(input.publishedPorts, IntLe))
  }

  function Texts(s: seq<string>): seq<Json> { seq(|s|, i requires 0 <= i < |s| => Text(s[i])) }

  function Numbers(s: seq<int>): seq<Json> { seq(|s|, i requires 0 <= i < |s| => Number(s[i])) }

  function BindJson(b: Bind): Json {
    Object([Field("source", Text(b.source)), Field("target", Text(b.target)), Field("ro", Bool(b.ro))])
  }

  function Binds(s: seq<Bind>): seq<Json> { seq(|s|, i requires 0 <= i < |s| => BindJson(s[i])) }

  function ProjectionJson(p: ProjectionInput): Json {
    Object([Field("serviceId", Text(p.serviceId)), Field("image", Text(p.image)), Field("mounts", Array(Binds(p.mounts))),
            Field("devices", Array(Texts(p.devices))),
            Field("networkMode", if p.networkMode.Some? then Text(p.networkMode.value) else Null),
            Field("privileged", Bool(p.privileged)), Field("capAdd", Array(Texts(p.capAdd))),
            Field("publishedPorts", Array(Numbers(p.publishedPorts)))])
  }

  function ProjectionText(input: ProjectionInput): string {
    CanonicalText(ProjectionJson(BuildPowerfulProjection(input)))
  }

  function ProjectionHash(input: ProjectionInput, hash: string -> string): string { hash(ProjectionText(input)) }

  function BindMounts(mounts: seq<MountSpec>): seq<Bind> {
    if mounts == [] then []
    else (if mounts[0].kind.BindMount? then [Bind(mounts[0].source, mounts[0].target, mounts[0].readOnly)] else []) + BindMounts(mounts[1..])
  }

  function ProjectionInputFor(serviceId: string, spec: ContainerSpec): ProjectionInput {
    ProjectionInput(serviceId, spec.image, BindMounts(spec.mounts), spec.devices,
                    if spec.networkMode == "host" then Some("host") else None, spec.privileged, spec.capAdd, spec.ports)
  }

  ghost predicate Injective(hash: string -> string) { forall a, b :: hash(a) == hash(b) ==> a == b }

  // ---------- canonicity ----------

  lemma BindOrder()
    ensures TotalOrder(BindLe)
  {
    StringOrder();
  }

  lemma IntOrder()
    ensures TotalOrder(IntLe)
  {
  }

  lemma SameKeysEquivalent(a: seq<Field>, b: seq<Field>)
    requires Keys(a) == Keys(b) && DistinctKeys(a) && DistinctKeys(b)
    ensures Equivalent(Object(a), Object(b)) <==> forall i :: 0 <= i < |a| ==> Equivalent(a[i].value, b[i].value)
  {
    assert |a| == |b| by { assert |Keys(a)| == |a| && |Keys(b)| == |b|; }
    forall i | 0 <= i < |a|
      ensures a[i].key in Keys(b) && Lookup(b, a[i].key) == b[i].value
    {
      assert Keys(a)[i] == a[i].key && Keys(b)[i] == b[i].key;
      LookupOwn(b, i);
    }
  }

  lemma BindFields(b: Bind)
    ensures DistinctKeys(BindJson(b).fields) && WellFormed(BindJson(b))
    ensures Keys(BindJson(b).fields) == ["source", "target", "ro"]
  {
    assert "source"[0] == 's' && "target"[0] == 't' && |"ro"| == 2;
  }

  lemma BindEquivalent(a: Bind, b: Bind)
    ensures Equivalent(BindJson(a), BindJson(b)) <==> a == b
  {
    BindFields(a);
    BindFields(b);
    SameKeysEquivalent(BindJson(a).fields, BindJson(b).fields);
    var fa, fb := BindJson(a).fields, BindJson(b).fields;
    assert fa[0].value == Text(a.source) && fa[1].value == Text(a.target) && fa[2].value == Bool(a.ro);
    assert fb[0].value == Text(b.source) && fb[1].value == Text(b.target) && fb[2].value == Bool(b.ro);
  }

  lemma ArraysEquivalent(p: ProjectionInput, q: ProjectionInput)
    ensures Equivalent(Array(Binds(p.mounts)), Array(Binds(q.mounts))) <==> p.mounts == q.mounts
    ensures Equivalent(Array(Texts(p.devices)), Array(Texts(q.devices))) <==> p.devices == q.devices
    ensures Equivalent(Array(Texts(p.capAdd)), Array(Texts(q.capAdd))) <==> p.capAdd == q.capAdd
    ensures Equivalent(Array(Numbers(p.publishedPorts)), Array(Numbers(q.publishedPorts))) <==> p.publishedPorts == q.publishedPorts
  {
    forall i | 0 <= i < |p.mounts| && i < |q.mounts|
      ensures Equivalent(Binds(p.mounts)[i], Binds(q.mounts)[i]) <==> p.mounts[i] == q.mounts[i]
    {
      BindEquivalent(p.mounts[i], q.mounts[i]);
    }
    TextsEquivalent(p.devices, q.devices);
    TextsEquivalent(p.capAdd, q.capAdd);
    assert forall i :: 0 <= i < |p.publishedPorts| && i < |q.publishedPorts| ==>
      (Equivalent(Numbers(p.publishedPorts)[i], Numbers(q.publishedPorts)[i]) <==> p.publishedPorts[i] == q.publishedPorts[i]);
  }

  lemma TextsEquivalent(a: seq<string>, b: seq<string>)
    ensures Equivalent(Array(Texts(a)), Array(Texts(b))) <==> a == b
  {
    assert forall i :: 0 <= i < |a| && i < |b| ==> (Equivalent(Texts(a)[i], Texts(b)[i]) <==> a[i] == b[i]);
  }

  lemma ProjectionFields(p: ProjectionInput)
    ensures DistinctKeys(ProjectionJson(p).fields) && WellFormed(ProjectionJson(p))
    ensures Keys(ProjectionJson(p).fields) ==
            ["serviceId", "image", "mounts", "devices", "networkMode", "privileged", "capAdd", "publishedPorts"]
  {
    forall i | 0 <= i < |p.mounts|
      ensures WellFormed(Binds(p.mounts)[i])
    {
      BindFields(p.mounts[i]);
    }
    assert "mounts"[0] == 'm' && "capAdd"[0] == 'c';
    var f := ProjectionJson(p).fields;
    assert |f[0].key| == 9 && |f[1].key| == 5 && |f[2].key| == 6 && |f[3].key| == 7 &&
           |f[4].key| == 11 && |f[5].key| == 10 && |f[6].key| == 6 && |f[7].key| == 14;
    assert WellFormed(f[2].value) && WellFormed(f[3].value) && WellFormed(f[6].value) && WellFormed(f[7].value);
  }

  /** A projection's keys are fixed, so canonicalizing loses none of it. */
  lemma ProjectionProtoFree(p: ProjectionInput)
    ensures ProtoFree(ProjectionJson(p))
  {
    forall i | 0 <= i < |p.mounts|
      ensures ProtoFree(Binds(p.mounts)[i])
    {
      BindProtoFree(p.mounts[i]);
    }
    var f := ProjectionJson(p).fields;
    assert |f[0].key| == 9 && f[0].key[0] == 's' && |f[1].key| == 5 && |f[2].key| == 6 && |f[3].key| == 7 &&
           |f[4].key| == 11 && |f[5].key| == 10 && |f[6].key| == 6 && |f[7].key| == 14;
    assert |PROTO| == 9 && PROTO[0] == '_';
    assert ProtoFree(f[2].value) && ProtoFree(f[3].value) && ProtoFree(f[6].value) && ProtoFree(f[7].value);
  }

  lemma BindProtoFree(b: Bind)
    ensures ProtoFree(BindJson(b))
  {
    var f := BindJson(b).fields;
    assert |PROTO| == 9 && |f[0].key| == 6 && |f[1].key| == 6 && |f[2].key| == 2;
  }

  lemma AllEight(a: seq<Field>, b: seq<Field>)
    requires |a| == |b| == 8
    ensures (forall i :: 0 <= i < |a| ==> Equivalent(a[i].value, b[i].value)) <==>
            && Equivalent(a[0].value, b[0].value) && Equivalent(a[1].value, b[1].value)
            && Equivalent(a[2].value, b[2].value) && Equivalent(a[3].value, b[3].value)
            && Equivalent(a[4].value, b[4].value) && Equivalent(a[5].value, b[5].value)
            && Equivalent(a[6].value, b[6].value) && Equivalent(a[7].value, b[7].value)
  {
    hide Equivalent;
  }

  lemma ScalarsEquivalent(p: ProjectionInput, q: ProjectionInput)
    ensures var fp, fq := ProjectionJson(p).fields, ProjectionJson(q).fields;
            && (Equivalent(fp[0].value, fq[0].value) <==> p.serviceId == q.serviceId)
            && (Equivalent(fp[1].value, fq[1].value) <==> p.image == q.image)
            && (Equivalent(fp[4].value, fq[4].value) <==> p.networkMode == q.networkMode)
            && (Equivalent(fp[5].value, fq[5].value) <==> p.privileged == q.privileged)
  {
  }

  lemma ProjectionEquivalent(p: ProjectionInput, q: ProjectionInput)
    ensures Equivalent(ProjectionJson(p), ProjectionJson(q)) <==> p == q
  {
    hide Equivalent, DistinctKeys, WellFormed, Keys, Binds, Texts, Numbers;
    var fp, fq := ProjectionJson(p).fields, ProjectionJson(q).fields;
    ProjectionFields(p);
    ProjectionFields(q);
    SameKeysEquivalent(fp, fq);
    AllEight(fp, fq);
    ArraysEquivalent(p, q);
    ScalarsEquivalent(p, q);
  }

  /** What two plans must share to share an approval. */
  ghost predicate SamePower(p: ProjectionInput, q: ProjectionInput) {
    && p.serviceId == q.serviceId && p.image == q.image && p.networkMode == q.networkMode && p.privileged == q.privileged
    && multiset(p.mounts) == multiset(q.mounts) && multiset(p.devices) == multiset(q.devices)
    && multiset(p.capAdd) == multiset(q.capAdd) && multiset(p.publishedPorts) == multiset(q.publishedPorts)
  }

  lemma ProjectionTextCanonical(p: ProjectionInput, q: ProjectionInput)
    ensures ProjectionText(p) == ProjectionText(q) <==> SamePower(p, q)
  {
    hide Sort, TotalOrder, ProjectionJson, CanonicalText;
    var bp, bq := BuildPowerfulProjection(p), BuildPowerfulProjection(q);
    ProjectionFields(bp);
    ProjectionFields(bq);
    ProjectionProtoFree(bp);
    ProjectionProtoFree(bq);
    ProtoFreeIsBare(ProjectionJson(bp));
    ProtoFreeIsBare(ProjectionJson(bq));
    hide Equivalent, WellFormed, ProtoFree, Bare;
    CanonicalTextIdentifies(ProjectionJson(bp), ProjectionJson(bq));
    ProjectionEquivalent(bp, bq);
    StringOrder();
    BindOrder();
    IntOrder();
    SortIdentifiesPermutations(p.mounts, q.mounts, BindLe);
    SortIdentifiesPermutations(p.devices, q.devices, StringLe);
    SortIdentifiesPermutations(p.capAdd, q.capAdd, StringLe);
    SortIdentifiesPermutations(p.publishedPorts, q.publishedPorts, IntLe);
  }

  /**
   Two plans have the same approval hash exactly when they agree on service, image, host network, privileged flag
   and the multisets of bind mounts, devices, capabilities and ports.
   */
  lemma ApprovalHashCanonical(idA: string, a: ContainerSpec, idB: string, b: ContainerSpec, hash: string -> string)
    requires Injective(hash)
    ensures ProjectionHash(ProjectionInputFor(idA, a), hash) == ProjectionHash(ProjectionInputFor(idB, b), hash) <==>
            && idA == idB && a.image == b.image && a.privileged == b.privileged
            && (a.networkMode == "host" <==> b.networkMode == "host")
            && multiset(BindMounts(a.mounts)) == multiset(BindMounts(b.mounts)) && multiset(a.devices) == multiset(b.devices)
            && multiset(a.capAdd) == multiset(b.capAdd) && multiset(a.ports) == multiset(b.ports)
  {
    hide ProjectionText, BindMounts;
    ProjectionTextCanonical(ProjectionInputFor(idA, a), ProjectionInputFor(idB, b));
  }

  ghost function BindBag(mounts: seq<MountSpec>): multiset<Bind> { multiset(BindMounts(mounts)) }

  /** Reordering mounts keeps the multiset of bind mounts; named volumes play no part. */
  lemma {:induction false} BindMountsPermute(a: seq<MountSpec>, b: seq<MountSpec>)
    requires multiset(a) == multiset(b)
    ensures BindBag(a) == BindBag(b)
    decreases |a|
  {
    hide BindBag, Rest;
    SameSize(a, b);
    if a == [] {
      assert b == [];
    } else {
      var i := Position(a, b);
      BindMountsPermute(a[1..], Rest(b, i));
      BindMountsWithout(b, i);
      BindMountsWithout(a, 0);
      RestOfFirst(a);
    }
  }

  function Rest(b: seq<MountSpec>, i: nat): seq<MountSpec>
    requires i < |b|
  {
    b[..i] + b[i + 1..]
  }

  lemma RestOfFirst(a: seq<MountSpec>)
    requires a != []
    ensures Rest(a, 0) == a[1..]
  {
  }

  lemma RestMultiset(b: seq<MountSpec>, i: nat)
    requires i < |b|
    ensures multiset(Rest(b, i)) == multiset(b) - multiset{b[i]}
  {
    assert b == b[..i] + ([b[i]] + b[i + 1..]);
  }

  lemma Position(a: seq<MountSpec>, b: seq<MountSpec>) returns (i: nat)
    requires a != [] && multiset(a) == multiset(b)
    ensures i < |b| && b[i] == a[0] && multiset(a[1..]) == multiset(Rest(b, i))
  {
    assert a[0] in multiset(b);
    i :| 0 <= i < |b| && b[i] == a[0];
    RestMultiset(b, i);
    MultisetTail(a);
  }

  lemma BindMountsWithout(b: seq<MountSpec>, i: nat)
    requires i < |b|
    ensures BindBag(b) == BindBag([b[i]]) + BindBag(Rest(b, i))
  {
    hide BindMounts;
    assert b == b[..i] + ([b[i]] + b[i + 1..]);
    BindMountsConcat(b[..i], [b[i]] + b[i + 1..]);
    BindMountsConcat([b[i]], b[i + 1..]);
    BindMountsConcat(b[..i], b[i + 1..]);
  }

  lemma {:induction false} BindMountsConcat(a: seq<MountSpec>, b: seq<MountSpec>)
    ensures BindMounts(a + b) == BindMounts(a) + BindMounts(b)
  {
    if a == [] {
      assert a + b == b;
    } else {
      var all := a + b;
      assert all[1..] == a[1..] + b && all[0] == a[0];
      var first := if a[0].kind.BindMount? then [Bind(a[0].source, a[0].target, a[0].readOnly)] else [];
      assert BindMounts(all) == first + BindMounts(all[1..]) && BindMounts(a) == first + BindMounts(a[1..]);
      BindMountsConcat(a[1..], b);
      hide BindMounts;
    }
  }

  /** Edits that keep an approval: any reordering, and any change of labels, networks or baseline fields. */
  lemma HarmlessEditKeepsHash(id: string, a: ContainerSpec, b: ContainerSpec, hash: string -> string)
    requires a.image == b.image && a.privileged == b.privileged && a.networkMode == b.networkMode
    requires multiset(a.mounts) == multiset(b.mounts) && multiset(a.devices) == multiset(b.devices)
    requires multiset(a.capAdd) == multiset(b.capAdd) && multiset(a.ports) == multiset(b.ports)
    ensures ProjectionHash(ProjectionInputFor(id, a), hash) == ProjectionHash(ProjectionInputFor(id, b), hash)
  {
    hide ProjectionText, BindMounts;
    BindMountsPermute(a.mounts, b.mounts);
    ProjectionTextCanonical(ProjectionInputFor(id, a), ProjectionInputFor(id, b));
  }
}

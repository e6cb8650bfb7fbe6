/**
 Field-by-field validation of an emitted plan against the emitting plugin's stored grants
 (packages/orchestrator/src/validate/validate-plan.ts).
 */
module ValidatePlan {
  import opened Options
  import opened ContainerSpecs
  import opened ScopeMatcher
  import opened Projection

  datatype Cap = ImagePull | MountBind | Device | NetworkHost | Privileged | Capabilities | PortsPublish | OtherCap(name: string)

  /** The arrays a grant's scope may carry; an absent one is empty. */
  datatype Scope = Scope(repos: seq<string>, paths: seq<string>, caps: seq<string>, ports: seq<int>)

  datatype Grant = Grant(cap: Cap, scope: Scope)

  datatype Violation =
    | ImageViolation
    | VolumeViolation(source: string)
    | BindViolation(source: string)
    | DeviceViolation(device: string)
    | HostNetworkViolation
    | PrivilegedViolation
    | CapabilityViolation(cap: string)
    | PortsViolation
    | NetworkViolation(network: string)

  datatype Tier = BaselineTier | PowerfulTier

  datatype ValidationResult = ValidationResult(ok: bool, tier: Tier, violations: seq<Violation>, projectionHash: Option<string>)

  predicate HasGrant(grants: seq<Grant>, cap: Cap, matches: Scope -> bool) {
    exists i :: 0 <= i < |grants| && grants[i].cap == cap && matches(grants[i].scope)
  }

  // ---------- which fields are covered, told by the meaning of globs ----------

  ghost predicate PathGranted(grants: seq<Grant>, cap: Cap, path: string) {
    exists i, k :: 0 <= i < |grants| && grants[i].cap == cap && 0 <= k < |grants[i].scope.paths| && GlobCovers(grants[i].scope.paths[k], path)
  }

  ghost predicate Holds(grants: seq<Grant>, cap: Cap) { exists i :: 0 <= i < |grants| && grants[i].cap == cap }

  /** Whether one possible complaint about the plan is justified. */
  ghost predicate Offends(id: string, spec: ContainerSpec, grants: seq<Grant>, v: Violation) {
    match v
    case ImageViolation => !exists i :: 0 <= i < |grants| && grants[i].cap == ImagePull && NameCovered(grants[i].scope.repos, spec.image)
    case VolumeViolation(source) =>
      exists i :: 0 <= i < |spec.mounts| && spec.mounts[i].kind.VolumeMount? && spec.mounts[i].source == source && !("wanfw_" + id <= source)
    case BindViolation(source) =>
      exists i :: 0 <= i < |spec.mounts| && spec.mounts[i].kind.BindMount? && spec.mounts[i].source == source && !PathGranted(grants, MountBind, source)
    case DeviceViolation(device) => device in spec.devices && !("/dev/" <= device && PathGranted(grants, Device, device))
    case HostNetworkViolation => spec.networkMode == "host" && !Holds(grants, NetworkHost)
    case PrivilegedViolation => spec.privileged && !Holds(grants, Privileged)
    case CapabilityViolation(cap) => cap in spec.capAdd && !exists i :: 0 <= i < |grants| && grants[i].cap == Capabilities && cap in grants[i].scope.caps
    case PortsViolation => spec.ports != [] && !exists i :: 0 <= i < |grants| && grants[i].cap == PortsPublish && forall p :: p in spec.ports ==> p in grants[i].scope.ports
    case NetworkViolation(network) => network in spec.networks && network != "wanfw_svc_" + id
  }

  /** Every field of the plan is covered by a grant, or needs none. */
  ghost predicate Covered(id: string, spec: ContainerSpec, grants: seq<Grant>) {
    forall v :: !Offends(id, spec, grants, v)
  }

  ghost predicate IsPowerful(spec: ContainerSpec) {
    || (exists i :: 0 <= i < |spec.mounts| && spec.mounts[i].kind.BindMount?)
    || spec.devices != [] || spec.networkMode == "host" || spec.privileged || spec.capAdd != [] || spec.ports != []
  }

  /** A plan is baseline exactly when the projection an operator would approve shows nothing but the service and its image. */
  lemma BaselineExactly(id: string, spec: ContainerSpec)
    ensures !IsPowerful(spec) <==> ProjectionInputFor(id, spec) == ProjectionInput(id, spec.image, [], [], None, false, [], [])
  {
    NoBindMounts(spec.mounts);
  }

  lemma {:induction false} NoBindMounts(mounts: seq<MountSpec>)
    ensures BindMounts(mounts) == [] <==> forall i :: 0 <= i < |mounts| ==> mounts[i].kind.VolumeMount?
  {
    if mounts != [] {
      NoBindMounts(mounts[1..]);
      assert forall i :: 1 <= i < |mounts| ==> mounts[i] == mounts[1..][i - 1];
    }
  }

  lemma PathGrantedIsHasGrant(grants: seq<Grant>, cap: Cap, path: string)
    ensures HasGrant(grants, cap, (s: Scope) => MatchAnyPathGlob(s.paths, path)) <==> PathGranted(grants, cap, path)
  {
    hide MatchPathGlob, GlobCovers;
    var matches := (s: Scope) => MatchAnyPathGlob(s.paths, path);
    forall pattern
      ensures MatchPathGlob(pattern, path) <==> GlobCovers(pattern, path)
    {
      GlobRefinement(pattern, path);
    }
    if HasGrant(grants, cap, matches) {
      var i :| 0 <= i < |grants| && grants[i].cap == cap && matches(grants[i].scope);
      var k :| 0 <= k < |grants[i].scope.paths| && MatchPathGlob(grants[i].scope.paths[k], path);
      assert GlobCovers(grants[i].scope.paths[k], path);
    }
    if PathGranted(grants, cap, path) {
      var i, k :| 0 <= i < |grants| && grants[i].cap == cap && 0 <= k < |grants[i].scope.paths| && GlobCovers(grants[i].scope.paths[k], path);
      assert MatchPathGlob(grants[i].scope.paths[k], path);
      assert matches(grants[i].scope);
    }
  }

  /** The mount loop. */
  method ValidateMounts(id: string, spec: ContainerSpec, grants: seq<Grant>) returns (violations: seq<Violation>, powerful: bool)
    ensures forall v :: v in violations <==> (v.VolumeViolation? || v.BindViolation?) && Offends(id, spec, grants, v)
    ensures powerful <==> exists i :: 0 <= i < |spec.mounts| && spec.mounts[i].kind.BindMount?
  {
    hide PathGranted, HasGrant;
    violations, powerful := [], false;
    for i := 0 to |spec.mounts|
      invariant forall v :: v in violations <==> (v.VolumeViolation? || v.BindViolation?) && Offends(id, spec.(mounts := spec.mounts[..i]), grants, v)
      invariant powerful <==> exists k :: 0 <= k < i && spec.mounts[k].kind.BindMount?
    {
      var mount := spec.mounts[i];
      if mount.kind.VolumeMount? {
        if !("wanfw_" + id <= mount.source) {
          violations := violations + [VolumeViolation(mount.source)];
        }
      } else {
        powerful := true;
        PathGrantedIsHasGrant(grants, MountBind, mount.source);
        if !HasGrant(grants, MountBind, (s: Scope) => MatchAnyPathGlob(s.paths, mount.source)) {
          violations := violations + [BindViolation(mount.source)];
        }
      }
      assert spec.mounts[..i + 1] == spec.mounts[..i] + [mount];
      assert spec.mounts[..i + 1][i] == mount;
      assert forall k :: 0 <= k < i ==> spec.mounts[..i + 1][k] == spec.mounts[..i][k];
    }
    assert spec.mounts[..|spec.mounts|] == spec.mounts;
    assert spec.(mounts := spec.mounts) == spec;
  }

  method ValidateDevices(id: string, spec: ContainerSpec, grants: seq<Grant>) returns (violations: seq<Violation>)
    ensures forall v :: v in violations <==> v.DeviceViolation? && Offends(id, spec, grants, v)
  {
    hide PathGranted, HasGrant;
    violations := [];
    for i := 0 to |spec.devices|
      invariant forall v :: v in violations <==>
                  v.DeviceViolation? && v.device in spec.devices[..i] && !("/dev/" <= v.device && PathGranted(grants, Device, v.device))
    {
      var device := spec.devices[i];
      PathGrantedIsHasGrant(grants, Device, device);
      if !("/dev/" <= device) {
        violations := violations + [DeviceViolation(device)];
      } else if !HasGrant(grants, Device, (s: Scope) => MatchAnyPathGlob(s.paths, device)) {
        violations := violations + [DeviceViolation(device)];
      }
    }
  }

  method ValidateCapabilities(id: string, spec: ContainerSpec, grants: seq<Grant>) returns (violations: seq<Violation>)
    ensures forall v :: v in violations <==> v.CapabilityViolation? && Offends(id, spec, grants, v)
  {
    violations := [];
    for i := 0 to |spec.capAdd|
      invariant forall v :: v in violations <==>
                  v.CapabilityViolation? && v.cap in spec.capAdd[..i] && Offends(id, spec, grants, v)
    {
      var cap := spec.capAdd[i];
      if !HasGrant(grants, Capabilities, (s: Scope) => cap in s.caps) {
        violations := violations + [CapabilityViolation(cap)];
      }
    }
  }

  method ValidateNetworks(id: string, spec: ContainerSpec, grants: seq<Grant>) returns (violations: seq<Violation>)
    ensures forall v :: v in violations <==> v.NetworkViolation? && Offends(id, spec, grants, v)
  {
    violations := [];
    for i := 0 to |spec.networks|
      invariant forall v :: v in violations <==>
                  v.NetworkViolation? && v.network in spec.networks[..i] && Offends(id, spec, grants, v)
    {
      if spec.networks[i] != "wanfw_svc_" + id {
        violations := violations + [NetworkViolation(spec.networks[i])];
      }
    }
  }

  method ValidateImage(id: string, spec: ContainerSpec, grants: seq<Grant>) returns (violations: seq<Violation>)
    ensures forall v :: v in violations <==> v.ImageViolation? && Offends(id, spec, grants, v)
  {
    forall i | 0 <= i < |grants|
      ensures MatchNamePrefix(grants[i].scope.repos, spec.image) <==> NameCovered(grants[i].scope.repos, spec.image)
    {
      NamePrefixExactly(grants[i].scope.repos, spec.image);
    }
    hide MatchNamePrefix, NameCovered;
    violations := if HasGrant(grants, ImagePull, (s: Scope) => MatchNamePrefix(s.repos, spec.image)) then [] else [ImageViolation];
  }

  method ValidateHostNetwork(id: string, spec: ContainerSpec, grants: seq<Grant>) returns (violations: seq<Violation>)
    ensures forall v :: v in violations <==> v.HostNetworkViolation? && Offends(id, spec, grants, v)
  {
    violations := if spec.networkMode == "host" && !HasGrant(grants, NetworkHost, (s: Scope) => true) then [HostNetworkViolation] else [];
  }

  method ValidatePrivileged(id: string, spec: ContainerSpec, grants: seq<Grant>) returns (violations: seq<Violation>)
    ensures forall v :: v in violations <==> v.PrivilegedViolation? && Offends(id, spec, grants, v)
  {
    violations := if spec.privileged && !HasGrant(grants, Privileged, (s: Scope) => true) then [PrivilegedViolation] else [];
  }

  method ValidatePorts(id: string, spec: ContainerSpec, grants: seq<Grant>) returns (violations: seq<Violation>)
    ensures forall v :: v in violations <==> v.PortsViolation? && Offends(id, spec, grants, v)
  {
    forall i | 0 <= i < |grants|
      ensures MatchPortRange(grants[i].scope.ports, spec.ports) <==> forall p :: p in spec.ports ==> p in grants[i].scope.ports
    {
      PortRangeExactly(grants[i].scope.ports, spec.ports);
    }
    hide MatchPortRange;
    violations := if spec.ports != [] && !HasGrant(grants, PortsPublish, (s: Scope) => MatchPortRange(s.ports, spec.ports)) then [PortsViolation] else [];
  }

  /** The field group a complaint belongs to, in the order the fields are checked. */
  ghost function Group(v: Violation): nat {
    match v
    case ImageViolation => 0
    case VolumeViolation(_) => 1
    case BindViolation(_) => 1
    case DeviceViolation(_) => 2
    case HostNetworkViolation => 3
    case PrivilegedViolation => 4
    case CapabilityViolation(_) => 5
    case PortsViolation => 6
    case NetworkViolation(_) => 7
  }

  ghost predicate FoundUpTo(id: string, spec: ContainerSpec, grants: seq<Grant>, found: seq<Violation>, k: nat) {
    forall v :: v in found <==> Group(v) < k && Offends(id, spec, grants, v)
  }

  lemma StartFinding(id: string, spec: ContainerSpec, grants: seq<Grant>)
    ensures FoundUpTo(id, spec, grants, [], 0)
  {
  }

  lemma AddGroup(id: string, spec: ContainerSpec, grants: seq<Grant>, found: seq<Violation>, next: seq<Violation>, k: nat)
    requires FoundUpTo(id, spec, grants, found, k)
    requires forall v :: v in next <==> Group(v) == k && Offends(id, spec, grants, v)
    ensures FoundUpTo(id, spec, grants, found + next, k + 1)
  {
    hide Offends;
  }

  ghost function Tiering(spec: ContainerSpec): Tier { if IsPowerful(spec) then PowerfulTier else BaselineTier }

  /** Accepts exactly the plans covered field by field; the violations are exactly the justified complaints. */
  method ValidateContainerSpec(id: string, spec: ContainerSpec, grants: seq<Grant>, hash: string -> string) returns (r: ValidationResult)
    ensures r.ok <==> Covered(id, spec, grants)
    ensures forall v :: v in r.violations <==> Offends(id, spec, grants, v)
    ensures r.tier == Tiering(spec)
    ensures r.projectionHash == if IsPowerful(spec) then Some(ProjectionHash(ProjectionInputFor(id, spec), hash)) else None
  {
    hide Offends, ProjectionHash, FoundUpTo;
    var violations := ValidateImage(id, spec, grants);
    StartFinding(id, spec, grants);
    AddGroup(id, spec, grants, [], violations, 0);
    assert [] + violations == violations;
    var next, powerful := ValidateMounts(id, spec, grants);
    AddGroup(id, spec, grants, violations, next, 1);
    violations := violations + next;
    next := ValidateDevices(id, spec, grants);
    AddGroup(id, spec, grants, violations, next, 2);
    violations := violations + next;
    next := ValidateHostNetwork(id, spec, grants);
    AddGroup(id, spec, grants, violations, next, 3);
    violations := violations + next;
    next := ValidatePrivileged(id, spec, grants);
    AddGroup(id, spec, grants, violations, next, 4);
    violations := violations + next;
    next := ValidateCapabilities(id, spec, grants);
    AddGroup(id, spec, grants, violations, next, 5);
    violations := violations + next;
    next := ValidatePorts(id, spec, grants);
    AddGroup(id, spec, grants, violations, next, 6);
    violations := violations + next;
    next := ValidateNetworks(id, spec, grants);
    AddGroup(id, spec, grants, violations, next, 7);
    violations := violations + next;
    powerful := powerful || spec.devices != [] || spec.networkMode == "host" || spec.privileged || spec.capAdd != [] || spec.ports != [];
    r := ValidationResult(violations == [], if powerful then PowerfulTier else BaselineTier, violations,
                          if powerful then Some(ProjectionHash(ProjectionInputFor(id, spec), hash)) else None);
    NothingFound(id, spec, grants, violations);
  }

  lemma NothingFound(id: string, spec: ContainerSpec, grants: seq<Grant>, found: seq<Violation>)
    requires FoundUpTo(id, spec, grants, found, 8)
    ensures found == [] <==> Covered(id, spec, grants)
    ensures forall v :: v in found <==> Offends(id, spec, grants, v)
  {
    hide Offends;
    if found != [] {
      assert found[0] in found;
    }
  }

  /** More grants never reject a plan; the order of grants does not matter. */
  lemma AcceptanceMonotone(id: string, spec: ContainerSpec, grants: seq<Grant>, more: seq<Grant>)
    requires forall g :: g in grants ==> g in more
    requires Covered(id, spec, grants)
    ensures Covered(id, spec, more)
  {
    forall v | Offends(id, spec, more, v)
      ensures Offends(id, spec, grants, v)
    {
      assert forall i :: 0 <= i < |grants| ==> grants[i] in grants && grants[i] in more;
    }
  }

  /** Without grants nothing is accepted: even a plain plan needs one to pull its image. */
  lemma NoGrantsNoPlan(id: string, spec: ContainerSpec, grants: seq<Grant>)
    requires !Holds(grants, ImagePull)
    ensures !Covered(id, spec, grants)
  {
    assert Offends(id, spec, grants, ImageViolation);
  }
}

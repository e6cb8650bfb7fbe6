/**
 Trust records, grants and approvals in the state store (packages/orchestrator/src/state-store/store.ts) and the
 trust flow over them (packages/orchestrator/src/trust/trust-flow.ts). Rows are revoked, never deleted.
 */
module StateStores {
  import opened ContainerSpecs
  import opened ValidatePlan

  datatype TrustKey = TrustKey(pluginId: string, version: string)
  datatype TrustRow = TrustRow(sha256: string, live: bool)
  datatype GrantRow = GrantRow(pluginId: string, grant: Grant, live: bool)
  datatype ApprovalRow = ApprovalRow(serviceId: string, live: bool)

  /** The three tables; a grant's id is its position. */
  datatype Tables = Tables(trust: map<TrustKey, TrustRow>, grants: seq<GrantRow>, approvals: map<string, ApprovalRow>)

  const NOTHING := Tables(map[], [], map[])

  datatype Manifest = Manifest(id: string, version: string, capabilities: seq<Grant>)

  datatype StoreOp =
    | Trust(manifest: Manifest, sha256: string)
    | Untrust(pluginId: string)
    | Approve(hash: string, serviceId: string)
    | RevokeApproval(hash: string)

  predicate IsTrusted(t: Tables, id: string) { exists k :: k in t.trust && k.pluginId == id && t.trust[k].live }

  predicate IsApproved(t: Tables, hash: string) { hash in t.approvals && t.approvals[hash].live }

  function LiveGrants(rows: seq<GrantRow>, id: string): (r: seq<Grant>)
    ensures forall g :: g in r <==> exists i :: 0 <= i < |rows| && rows[i].pluginId == id && rows[i].live && rows[i].grant == g
  {
    if rows == [] then []
    else
      var n := |rows| - 1;
      var before := LiveGrants(rows[..n], id);
      assert forall i :: 0 <= i < n ==> rows[..n][i] == rows[i];
      if rows[n].pluginId == id && rows[n].live then before + [rows[n].grant] else before
  }

  function RevokedTrust(trust: map<TrustKey, TrustRow>, id: string): map<TrustKey, TrustRow> {
    map k | k in trust :: if k.pluginId == id then trust[k].(live := false) else trust[k]
  }

  function RevokedGrants(rows: seq<GrantRow>, id: string): seq<GrantRow> {
    seq(|rows|, i requires 0 <= i < |rows| => if rows[i].pluginId == id then rows[i].(live := false) else rows[i])
  }

  function GrantRowsOf(m: Manifest): seq<GrantRow> {
    seq(|m.capabilities|, i requires 0 <= i < |m.capabilities| => GrantRow(m.id, m.capabilities[i], true))
  }

  /** The effect of an operator action; untrusting a plugin that is not trusted is an error and changes nothing. */
  function Perform(t: Tables, op: StoreOp): Tables {
    match op
    case Trust(m, sha) => t.(trust := t.trust[TrustKey(m.id, m.version) := TrustRow(sha, true)], grants := t.grants + GrantRowsOf(m))
    case Untrust(id) =>
      if !IsTrusted(t, id) then t
      else t.(trust := RevokedTrust(t.trust, id), grants := RevokedGrants(t.grants, id))
    case Approve(h, s) => t.(approvals := t.approvals[h := ApprovalRow(s, true)])
    case RevokeApproval(h) =>
      if h in t.approvals then t.(approvals := t.approvals[h := t.approvals[h].(live := false)]) else t
  }

  class StateStore {
    var trust: map<TrustKey, TrustRow>
    var grants: seq<GrantRow>
    var approvals: map<string, ApprovalRow>

    ghost function Contents(): Tables
      reads this
    {
      Tables(trust, grants, approvals)
    }

    constructor ()
      ensures Contents() == NOTHING
    {
      trust, grants, approvals := map[], [], map[];
    }

    method ListGrants(id: string) returns (r: seq<Grant>)
      ensures r == LiveGrants(grants, id)
    {
      r := [];
      for i := 0 to |grants|
        invariant r == LiveGrants(grants[..i], id)
      {
        assert grants[..i + 1][..i] == grants[..i];
        if grants[i].pluginId == id && grants[i].live {
          r := r + [grants[i].grant];
        }
      }
      assert grants[..|grants|] == grants;
    }

    method ApprovedNow(hash: string) returns (b: bool)
      ensures b == IsApproved(Contents(), hash)
    {
      b := hash in approvals && approvals[hash].live;
    }

    /** recordTrustAndGrants: upserts the trust row and appends one grant row per capability. */
    method RecordTrustAndGrants(m: Manifest, sha256: string)
      modifies this
      ensures Contents() == Perform(old(Contents()), Trust(m, sha256))
    {
      trust := trust[TrustKey(m.id, m.version) := TrustRow(sha256, true)];
      for i := 0 to |m.capabilities|
        invariant trust == old(trust)[TrustKey(m.id, m.version) := TrustRow(sha256, true)] && approvals == old(approvals)
        invariant grants == old(grants) + GrantRowsOf(m)[..i]
      {
        grants := grants + [GrantRow(m.id, m.capabilities[i], true)];
      }
    }

    /** untrustPlugin: revokes every live trust record and every live grant of the plugin, or reports that there is none to revoke. */
    method UntrustPlugin(id: string) returns (ok: bool)
      modifies this
      ensures ok == IsTrusted(old(Contents()), id)
      ensures Contents() == Perform(old(Contents()), Untrust(id))
    {
      ok := exists k :: k in trust && k.pluginId == id && trust[k].live;
      if ok {
        trust := map k | k in trust :: if k.pluginId == id then trust[k].(live := false) else trust[k];
        for i := 0 to |grants|
          invariant |grants| == |old(grants)| && trust == RevokedTrust(old(trust), id) && approvals == old(approvals)
          invariant forall k :: 0 <= k < |grants| ==> grants[k] == if k < i then RevokedGrants(old(grants), id)[k] else old(grants)[k]
        {
          if grants[i].pluginId == id && grants[i].live {
            grants := grants[i := grants[i].(live := false)];
          }
        }
      }
    }

    method InsertApproval(hash: string, serviceId: string)
      modifies this
      ensures Contents() == Perform(old(Contents()), Approve(hash, serviceId))
    {
      approvals := approvals[hash := ApprovalRow(serviceId, true)];
    }

    method Revoke(hash: string)
      modifies this
      ensures Contents() == Perform(old(Contents()), RevokeApproval(hash))
    {
      if hash in approvals && approvals[hash].live {
        approvals := approvals[hash := approvals[hash].(live := false)];
      }
    }
  }

  // ---------- trust over any sequence of operator actions ----------

  function PerformAll(t: Tables, ops: seq<StoreOp>): Tables {
    if ops == [] then t else Perform(PerformAll(t, ops[..|ops| - 1]), ops[|ops| - 1])
  }

  /** A live grant belongs to a trusted plugin. */
  ghost predicate GrantsNeedTrust(t: Tables) {
    forall i :: 0 <= i < |t.grants| && t.grants[i].live ==> IsTrusted(t, t.grants[i].pluginId)
  }

  lemma PerformKeepsTrust(t: Tables, op: StoreOp)
    requires GrantsNeedTrust(t)
    ensures GrantsNeedTrust(Perform(t, op))
  {
    var u := Perform(t, op);
    forall i | 0 <= i < |u.grants| && u.grants[i].live
      ensures IsTrusted(u, u.grants[i].pluginId)
    {
      var id := u.grants[i].pluginId;
      if op.Trust? && id == op.manifest.id {
        var k := TrustKey(op.manifest.id, op.manifest.version);
        assert k in u.trust && k.pluginId == id && u.trust[k].live;
      } else {
        assert i < |t.grants| && t.grants[i] == u.grants[i];
        var k :| k in t.trust && k.pluginId == id && t.trust[k].live;
        assert k in u.trust && u.trust[k].live;
      }
    }
  }

  lemma {:induction false} GrantsAlwaysNeedTrust(ops: seq<StoreOp>)
    ensures GrantsNeedTrust(PerformAll(NOTHING, ops))
  {
    hide Perform, GrantsNeedTrust;
    if ops == [] {
      NoGrantsNoTrust();
    } else {
      GrantsAlwaysNeedTrust(ops[..|ops| - 1]);
      PerformKeepsTrust(PerformAll(NOTHING, ops[..|ops| - 1]), ops[|ops| - 1]);
    }
  }

  lemma NoGrantsNoTrust()
    ensures GrantsNeedTrust(NOTHING)
  {
  }

  predicate Trusts(op: StoreOp, id: string) { op.Trust? && op.manifest.id == id }

  ghost predicate NoLiveGrants(t: Tables, id: string) {
    forall i :: 0 <= i < |t.grants| ==> !(t.grants[i].pluginId == id && t.grants[i].live)
  }

  lemma UntrustRevokes(t: Tables, id: string)
    requires GrantsNeedTrust(t)
    ensures NoLiveGrants(Perform(t, Untrust(id)), id)
  {
  }

  lemma StaysWithoutGrants(t: Tables, op: StoreOp, id: string)
    requires NoLiveGrants(t, id) && !Trusts(op, id)
    ensures NoLiveGrants(Perform(t, op), id)
  {
  }

  /** Once a plugin has been untrusted, whatever happens before it is trusted again leaves it without a live grant. */
  lemma {:induction false} UntrustedHasNoGrants(before: seq<StoreOp>, id: string, after: seq<StoreOp>)
    requires forall i :: 0 <= i < |after| ==> !Trusts(after[i], id)
    ensures NoLiveGrants(PerformAll(PerformAll(NOTHING, before + [Untrust(id)]), after), id)
    decreases |after|
  {
    hide Perform, GrantsNeedTrust, NoLiveGrants;
    var t := PerformAll(NOTHING, before + [Untrust(id)]);
    if after == [] {
      GrantsAlwaysNeedTrust(before);
      assert (before + [Untrust(id)])[..|before|] == before;
      UntrustRevokes(PerformAll(NOTHING, before), id);
    } else {
      var n := |after| - 1;
      UntrustedHasNoGrants(before, id, after[..n]);
      StaysWithoutGrants(PerformAll(t, after[..n]), after[n], id);
    }
  }

  lemma NothingHeld(t: Tables, id: string)
    requires NoLiveGrants(t, id)
    ensures !Holds(LiveGrants(t.grants, id), ImagePull)
  {
    var live := LiveGrants(t.grants, id);
    assert forall i :: 0 <= i < |live| ==> live[i] in live;
  }

  /** Hence no plan of an untrusted plugin passes validation until the plugin is trusted again. */
  lemma UntrustedPlanRejected(before: seq<StoreOp>, id: string, after: seq<StoreOp>, serviceId: string, spec: ContainerSpec)
    requires forall i :: 0 <= i < |after| ==> !Trusts(after[i], id)
    ensures var t := PerformAll(PerformAll(NOTHING, before + [Untrust(id)]), after);
            !Covered(serviceId, spec, LiveGrants(t.grants, id))
  {
    hide *;
    UntrustedHasNoGrants(before, id, after);
    var t := PerformAll(PerformAll(NOTHING, before + [Untrust(id)]), after);
    NothingHeld(t, id);
    NoGrantsNoPlan(serviceId, spec, LiveGrants(t.grants, id));
  }

  // ---------- what is live, told from the operations ----------

  /** The last word on the approval of a hash was to give it. */
  ghost predicate ApprovedLast(ops: seq<StoreOp>, hash: string) {
    exists i :: 0 <= i < |ops| && ops[i].Approve? && ops[i].hash == hash && forall k :: i < k < |ops| ==> ops[k] != RevokeApproval(hash)
  }

  lemma ApprovalStep(t: Tables, op: StoreOp, hash: string)
    ensures IsApproved(Perform(t, op), hash) <==> (op.Approve? && op.hash == hash) || (IsApproved(t, hash) && op != RevokeApproval(hash))
  {
  }

  lemma ApprovedLastStep(ops: seq<StoreOp>, hash: string)
    requires ops != []
    ensures var n := |ops| - 1;
            ApprovedLast(ops, hash) <==> (ops[n].Approve? && ops[n].hash == hash) || (ApprovedLast(ops[..n], hash) && ops[n] != RevokeApproval(hash))
  {
    var n := |ops| - 1;
    if ApprovedLast(ops[..n], hash) && ops[n] != RevokeApproval(hash) {
      var i :| 0 <= i < n && ops[..n][i].Approve? && ops[..n][i].hash == hash && forall k :: i < k < n ==> ops[..n][k] != RevokeApproval(hash);
      forall k | i < k < |ops|
        ensures ops[k] != RevokeApproval(hash)
      {
        assert k < n ==> ops[k] == ops[..n][k];
      }
      assert ops[i] == ops[..n][i];
    }
    if ApprovedLast(ops, hash) && !(ops[n].Approve? && ops[n].hash == hash) {
      var i :| 0 <= i < |ops| && ops[i].Approve? && ops[i].hash == hash && forall k :: i < k < |ops| ==> ops[k] != RevokeApproval(hash);
      assert ops[..n][i] == ops[i];
    }
  }

  /** After any operations a hash is approved exactly when it was approved and not revoked since. */
  lemma {:induction false} ApprovedExactly(ops: seq<StoreOp>, hash: string)
    ensures IsApproved(PerformAll(NOTHING, ops), hash) <==> ApprovedLast(ops, hash)
  {
    hide Perform, IsApproved, ApprovedLast;
    if ops == [] {
      NothingApproved(hash);
    } else {
      var n := |ops| - 1;
      ApprovedExactly(ops[..n], hash);
      ApprovalStep(PerformAll(NOTHING, ops[..n]), ops[n], hash);
      ApprovedLastStep(ops, hash);
    }
  }

  lemma NothingApproved(hash: string)
    ensures !IsApproved(NOTHING, hash) && !ApprovedLast([], hash)
  {
  }

  /** The plugin was trusted with the grant, and not untrusted since. */
  ghost predicate GrantedLast(ops: seq<StoreOp>, id: string, g: Grant) {
    exists i :: 0 <= i < |ops| && Trusts(ops[i], id) && g in ops[i].manifest.capabilities && forall k :: i < k < |ops| ==> ops[k] != Untrust(id)
  }

  lemma GrantStep(t: Tables, op: StoreOp, id: string, g: Grant)
    requires GrantsNeedTrust(t)
    ensures g in LiveGrants(Perform(t, op).grants, id) <==>
            (Trusts(op, id) && g in op.manifest.capabilities) || (g in LiveGrants(t.grants, id) && op != Untrust(id))
  {
    var u := Perform(t, op);
    if op.Trust? {
      var more := GrantRowsOf(op.manifest);
      assert u.grants == t.grants + more;
      if g in LiveGrants(t.grants, id) {
        var i :| 0 <= i < |t.grants| && t.grants[i].pluginId == id && t.grants[i].live && t.grants[i].grant == g;
        assert u.grants[i] == t.grants[i];
      }
      if Trusts(op, id) && g in op.manifest.capabilities {
        var i :| 0 <= i < |op.manifest.capabilities| && op.manifest.capabilities[i] == g;
        assert u.grants[|t.grants| + i] == GrantRow(id, g, true);
      }
    } else if op.Untrust? {
      if op.pluginId == id {
        UntrustRevokes(t, id);
      } else {
        assert |u.grants| == |t.grants| && forall i :: 0 <= i < |t.grants| && t.grants[i].pluginId == id ==> u.grants[i] == t.grants[i];
        assert forall i :: 0 <= i < |t.grants| ==> u.grants[i].pluginId == t.grants[i].pluginId;
        if g in LiveGrants(t.grants, id) {
          var i :| 0 <= i < |t.grants| && t.grants[i].pluginId == id && t.grants[i].live && t.grants[i].grant == g;
          assert u.grants[i] == t.grants[i];
        }
      }
    }
  }

  lemma GrantedLastStep(ops: seq<StoreOp>, id: string, g: Grant)
    requires ops != []
    ensures var n := |ops| - 1;
            GrantedLast(ops, id, g) <==> (Trusts(ops[n], id) && g in ops[n].manifest.capabilities) || (GrantedLast(ops[..n], id, g) && ops[n] != Untrust(id))
  {
    var n := |ops| - 1;
    if GrantedLast(ops[..n], id, g) && ops[n] != Untrust(id) {
      var i :| 0 <= i < n && Trusts(ops[..n][i], id) && g in ops[..n][i].manifest.capabilities && forall k :: i < k < n ==> ops[..n][k] != Untrust(id);
      forall k | i < k < |ops|
        ensures ops[k] != Untrust(id)
      {
        assert k < n ==> ops[k] == ops[..n][k];
      }
      assert ops[i] == ops[..n][i];
    }
    if GrantedLast(ops, id, g) && !(Trusts(ops[n], id) && g in ops[n].manifest.capabilities) {
      var i :| 0 <= i < |ops| && Trusts(ops[i], id) && g in ops[i].manifest.capabilities && forall k :: i < k < |ops| ==> ops[k] != Untrust(id);
      assert ops[..n][i] == ops[i];
    }
  }

  /** After any operations a plugin holds exactly the capabilities it was trusted with and not untrusted of since. */
  lemma {:induction false} GrantedExactly(ops: seq<StoreOp>, id: string, g: Grant)
    ensures g in LiveGrants(PerformAll(NOTHING, ops).grants, id) <==> GrantedLast(ops, id, g)
  {
    hide Perform, GrantedLast, LiveGrants, GrantsNeedTrust, Trusts;
    if ops == [] {
      NothingGranted(id, g);
    } else {
      var n := |ops| - 1;
      GrantedExactly(ops[..n], id, g);
      GrantsAlwaysNeedTrust(ops[..n]);
      GrantStep(PerformAll(NOTHING, ops[..n]), ops[n], id, g);
      GrantedLastStep(ops, id, g);
    }
  }

  lemma NothingGranted(id: string, g: Grant)
    ensures g !in LiveGrants(NOTHING.grants, id) && !GrantedLast([], id, g)
  {
  }

  /** A plugin is trusted exactly when it was trusted and not untrusted since. */
  ghost predicate TrustedLast(ops: seq<StoreOp>, id: string) {
    exists i :: 0 <= i < |ops| && Trusts(ops[i], id) && forall k :: i < k < |ops| ==> ops[k] != Untrust(id)
  }

  lemma TrustStep(t: Tables, op: StoreOp, id: string)
    ensures IsTrusted(Perform(t, op), id) <==> Trusts(op, id) || (IsTrusted(t, id) && op != Untrust(id))
  {
    var u := Perform(t, op);
    if op.Trust? {
      var key := TrustKey(op.manifest.id, op.manifest.version);
      assert key in u.trust && u.trust[key].live;
      if IsTrusted(t, id) {
        var k :| k in t.trust && k.pluginId == id && t.trust[k].live;
        assert k in u.trust && u.trust[k].live;
      }
    } else if op.Untrust? && op.pluginId != id && IsTrusted(t, id) {
      var k :| k in t.trust && k.pluginId == id && t.trust[k].live;
      assert k in u.trust && u.trust[k] == t.trust[k];
    }
  }

  lemma TrustedLastStep(ops: seq<StoreOp>, id: string)
    requires ops != []
    ensures var n := |ops| - 1; TrustedLast(ops, id) <==> Trusts(ops[n], id) || (TrustedLast(ops[..n], id) && ops[n] != Untrust(id))
  {
    hide Trusts;
    var n := |ops| - 1;
    if TrustedLast(ops[..n], id) && ops[n] != Untrust(id) {
      var i :| 0 <= i < n && Trusts(ops[..n][i], id) && forall k :: i < k < n ==> ops[..n][k] != Untrust(id);
      forall k | i < k < |ops|
        ensures ops[k] != Untrust(id)
      {
        assert k < n ==> ops[k] == ops[..n][k];
      }
      assert ops[i] == ops[..n][i];
    }
    if TrustedLast(ops, id) && !Trusts(ops[n], id) {
      var i :| 0 <= i < |ops| && Trusts(ops[i], id) && forall k :: i < k < |ops| ==> ops[k] != Untrust(id);
      assert ops[..n][i] == ops[i];
    }
  }

  lemma {:induction false} TrustedExactly(ops: seq<StoreOp>, id: string)
    ensures IsTrusted(PerformAll(NOTHING, ops), id) <==> TrustedLast(ops, id)
  {
    hide Perform, TrustedLast, IsTrusted, Trusts;
    if ops == [] {
      assert !IsTrusted(NOTHING, id) && !TrustedLast([], id) by { NothingTrusted(id); }
    } else {
      var n := |ops| - 1;
      TrustedExactly(ops[..n], id);
      TrustStep(PerformAll(NOTHING, ops[..n]), ops[n], id);
      TrustedLastStep(ops, id);
    }
  }

  lemma NothingTrusted(id: string)
    ensures !IsTrusted(NOTHING, id) && !TrustedLast([], id)
  {
  }

  predicate SameTrust(op: StoreOp, k: TrustKey) { op.Trust? && op.manifest.id == k.pluginId && op.manifest.version == k.version }

  lemma RowStep(t: Tables, op: StoreOp, k: TrustKey, hash: string)
    ensures var u := Perform(t, op);
            && (k in t.trust && !SameTrust(op, k) ==> k in u.trust && u.trust[k].sha256 == t.trust[k].sha256)
            && (hash in t.approvals && !(op.Approve? && op.hash == hash) ==>
                  hash in u.approvals && u.approvals[hash].serviceId == t.approvals[hash].serviceId)
  {
  }

  /** Whatever else is done, a trust record shows the bundle hash it was last given, and an approval the service it was last given for. */
  lemma {:induction false} LastRecorded(ops: seq<StoreOp>, i: nat, k: TrustKey, hash: string)
    requires i < |ops|
    ensures SameTrust(ops[i], k) && (forall j :: i < j < |ops| ==> !SameTrust(ops[j], k)) ==>
              k in PerformAll(NOTHING, ops).trust && PerformAll(NOTHING, ops).trust[k].sha256 == ops[i].sha256
    ensures ops[i].Approve? && ops[i].hash == hash && (forall j :: i < j < |ops| ==> !(ops[j].Approve? && ops[j].hash == hash)) ==>
              hash in PerformAll(NOTHING, ops).approvals && PerformAll(NOTHING, ops).approvals[hash].serviceId == ops[i].serviceId
  {
    var n := |ops| - 1;
    if i < n {
      LastRecorded(ops[..n], i, k, hash);
      RowStep(PerformAll(NOTHING, ops[..n]), ops[n], k, hash);
      hide Perform;
      assert forall j :: 0 <= j < n ==> ops[..n][j] == ops[j];
    }
  }
}

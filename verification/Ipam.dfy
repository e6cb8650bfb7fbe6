/** The IPAM tables of the state store (packages/orchestrator/src/state-store/store.ts): ranges, and allocations keyed by address. */
module Ipam {
  import opened Options
  import opened Words
  import opened Cidr
  import opened Strings
  import opened Decimals

  datatype Range = Range(cidr: string, gateway: string)

  datatype Row = Row(range: string, owner: string, live: bool)

  datatype Table = Table(ranges: map<string, Range>, rows: map<string, Row>)

  datatype Answer = Address(ip: string) | NoSuchRange | BadRange | Exhausted

  datatype Op =
    | SetRange(id: string, range: Range)
    | Allocate(id: string, owner: string)  // "" is no owner
    | Release(ip: string)

  predicate LiveIn(t: Table, ip: string, id: string) { ip in t.rows && t.rows[ip].live && t.rows[ip].range == id }

  predicate IsLive(t: Table, ip: string) { ip in t.rows && t.rows[ip].live }

  predicate Owns(t: Table, id: string, owner: string, ip: string) { LiveIn(t, ip, id) && t.rows[ip].owner == owner }

  /** The host list of a registered range. */
  function Hosts(t: Table, id: string, num: ToNumber): Option<seq<nat>>
    requires id in t.ranges
  {
    HostsOf(t.ranges[id].cidr, t.ranges[id].gateway, num)
  }

  /** The first of the addresses, counting from `i`, without a live row of the range. */
  function FirstFree(t: Table, id: string, ips: seq<string>, i: nat): (k: nat)
    requires i <= |ips|
    ensures i <= k <= |ips|
    ensures forall j :: i <= j < k ==> LiveIn(t, ips[j], id)
    ensures k < |ips| ==> !LiveIn(t, ips[k], id)
    decreases |ips| - i
  {
    if i == |ips| || !LiveIn(t, ips[i], id) then i else FirstFree(t, id, ips, i + 1)
  }

  /** What `allocateIp` may answer, and the table afterwards. Several rows of one owner would make the first answer ambiguous. */
  ghost predicate Allocated(t: Table, id: string, owner: string, num: ToNumber, u: Table, answer: Answer) {
    if id !in t.ranges then u == t && answer == NoSuchRange
    else if owner != "" && exists ip :: Owns(t, id, owner, ip) then
      u == t && answer.Address? && Owns(t, id, owner, answer.ip)
    else if Hosts(t, id, num).None? then u == t && answer == BadRange
    else
      var ips := Rendered(Hosts(t, id, num).value);
      var k := FirstFree(t, id, ips, 0);
      if k == |ips| then u == t && answer == Exhausted
      else answer == Address(ips[k]) && u == t.(rows := t.rows[ips[k] := Row(id, owner, true)])
  }

  function Released(t: Table, ip: string): Table {
    if IsLive(t, ip) then t.(rows := t.rows[ip := t.rows[ip].(live := false)]) else t
  }

  ghost predicate Steps(t: Table, op: Op, num: ToNumber, u: Table) {
    match op
    case SetRange(id, r) => u == t.(ranges := t.ranges[id := r])
    case Allocate(id, owner) => exists answer :: Allocated(t, id, owner, num, u, answer)
    case Release(ip) => u == Released(t, ip)
  }

  class IpamStore {
    var ranges: map<string, Range>
    var rows: map<string, Row>

    ghost function Contents(): Table
      reads this
    {
      Table(ranges, rows)
    }

    constructor ()
      ensures Contents() == Table(map[], map[])
    {
      ranges, rows := map[], map[];
    }

    method SetIpamRange(id: string, range: Range, ghost num: ToNumber)
      modifies this
      ensures Steps(old(Contents()), SetRange(id, range), num, Contents())
    {
      ranges := ranges[id := range];
    }

    method ReleaseIp(ip: string, ghost num: ToNumber)
      modifies this
      ensures Steps(old(Contents()), Release(ip), num, Contents())
    {
      if ip in rows && rows[ip].live {
        rows := rows[ip := rows[ip].(live := false)];
      }
    }

    /** allocateIp, inside its transaction. */
    method AllocateIp(id: string, owner: string, num: ToNumber) returns (answer: Answer)
      modifies this
      ensures Allocated(old(Contents()), id, owner, num, Contents(), answer)
    {
      hide IntToIp, HostsOf;
      if id !in ranges {
        return NoSuchRange;
      }
      if owner != "" {
        var mine := set ip | ip in rows && rows[ip].live && rows[ip].range == id && rows[ip].owner == owner;
        if mine != {} {
          var ip :| ip in mine;
          assert Owns(Contents(), id, owner, ip);
          return Address(ip);
        }
        assert forall ip :: Owns(Contents(), id, owner, ip) ==> ip in mine;
      }
      var hosts := HostsInCidr(ranges[id].cidr, ranges[id].gateway, num);
      if hosts.None? {
        return BadRange;
      }
      var taken := set ip | ip in rows && rows[ip].live && rows[ip].range == id;
      var i := 0;
      while i < |hosts.value| && hosts.value[i] in taken
        invariant 0 <= i <= |hosts.value|
        invariant FirstFree(Contents(), id, hosts.value, i) == FirstFree(Contents(), id, hosts.value, 0)
      {
        i := i + 1;
      }
      if i == |hosts.value| {
        return Exhausted;
      }
      answer := Address(hosts.value[i]);
      rows := rows[hosts.value[i] := Row(id, owner, true)];
    }
  }

  // ---------- one call ----------

  /** A fresh address is the lowest host of the current range without a live row of the range; calls fail exactly when every host has one. */
  lemma FreshIsLowestFree(t: Table, id: string, owner: string, num: ToNumber, u: Table, answer: Answer)
    requires Allocated(t, id, owner, num, u, answer) && id in t.ranges && Hosts(t, id, num).Some?
    requires owner == "" || forall ip :: !Owns(t, id, owner, ip)
    ensures var hosts := Hosts(t, id, num).value;
            && (answer == Exhausted <==> forall n :: n in hosts ==> LiveIn(t, IntToIp(n), id))
            && (answer != Exhausted ==>
                exists n :: && n in hosts && answer == Address(IntToIp(n)) && !LiveIn(t, IntToIp(n), id)
                            && forall m :: m in hosts && m < n ==> LiveIn(t, IntToIp(m), id))
  {
    hide IntToIp, LiveIn, HostsOf, FirstFree;
    var hosts := Hosts(t, id, num).value;
    var ips := Rendered(hosts);
    var k := FirstFree(t, id, ips, 0);
    HostsAscend(t.ranges[id].cidr, t.ranges[id].gateway, num);
    if k < |ips| {
      LowestFree(t, id, hosts, k);
    } else {
      forall n | n in hosts
        ensures LiveIn(t, IntToIp(n), id)
      {
        var j :| 0 <= j < |hosts| && hosts[j] == n;
        assert LiveIn(t, ips[j], id);
      }
    }
  }

  lemma LowestFree(t: Table, id: string, hosts: seq<nat>, k: nat)
    requires forall i, j :: 0 <= i < j < |hosts| ==> hosts[i] < hosts[j]
    requires k < |hosts| && !LiveIn(t, Rendered(hosts)[k], id) && forall j :: 0 <= j < k ==> LiveIn(t, Rendered(hosts)[j], id)
    ensures hosts[k] in hosts && !LiveIn(t, IntToIp(hosts[k]), id)
    ensures forall m :: m in hosts && m < hosts[k] ==> LiveIn(t, IntToIp(m), id)
  {
    hide IntToIp, LiveIn;
    forall m | m in hosts && m < hosts[k]
      ensures LiveIn(t, IntToIp(m), id)
    {
      var j :| 0 <= j < |hosts| && hosts[j] == m;
      assert j < k;
      assert Rendered(hosts)[j] == IntToIp(m);
    }
  }

  lemma HostsAscend(cidr: string, gateway: string, num: ToNumber)
    requires HostsOf(cidr, gateway, num).Some?
    ensures var hosts := HostsOf(cidr, gateway, num).value;
            && (forall i, j :: 0 <= i < j < |hosts| ==> hosts[i] < hosts[j])
            && (forall n :: n in hosts ==> n < TWO32)
  {
    hide ParseCidr, IpToInt, HostInts;
    CidrBlock(cidr, num);
  }

  /** The upsert overwrites a live row exactly when the lowest free host of the range is live under another range. */
  lemma OverwriteExactly(t: Table, id: string, owner: string, num: ToNumber, u: Table, answer: Answer)
    requires Allocated(t, id, owner, num, u, answer) && id in t.ranges && Hosts(t, id, num).Some?
    requires owner == "" || forall ip :: !Owns(t, id, owner, ip)
    ensures var ips := Rendered(Hosts(t, id, num).value); var k := FirstFree(t, id, ips, 0);
            (exists ip :: IsLive(t, ip) && (ip !in u.rows || u.rows[ip] != t.rows[ip])) <==>
            k < |ips| && IsLive(t, ips[k]) && t.rows[ips[k]].range != id
  {
    hide IntToIp, HostsOf;
  }

  /** A release ends one live row and leaves everything else; the address is then free for its range again. */
  lemma ReleaseFrees(t: Table, ip: string, num: ToNumber, u: Table)
    requires Steps(t, Release(ip), num, u)
    ensures !IsLive(u, ip) && u.ranges == t.ranges && u.rows.Keys == t.rows.Keys
    ensures forall other :: other in t.rows && other != ip ==> u.rows[other] == t.rows[other]
    ensures ip in t.rows ==> u.rows[ip].range == t.rows[ip].range && u.rows[ip].owner == t.rows[ip].owner
  {
  }

  // ---------- any sequence of calls on one range ----------

  predicate OnRange(op: Op, id: string) {
    match op
    case SetRange(r, _) => r == id
    case Allocate(r, _) => r == id
    case Release(_) => true
  }

  /** A history of the tables under calls on one range, from an empty store. */
  ghost predicate IsRun(tables: seq<Table>, ops: seq<Op>, id: string, num: ToNumber) {
    && |tables| == |ops| + 1 && tables[0] == Table(map[], map[])
    && (forall i :: 0 <= i < |ops| ==> OnRange(ops[i], id) && Steps(tables[i], ops[i], num, tables[i + 1]))
  }

  /** All rows belong to the range, and no owner has two live addresses. */
  ghost predicate Orderly(t: Table, id: string) {
    && (forall ip :: ip in t.rows ==> t.rows[ip].range == id)
    && (forall ip, other, owner :: owner != "" && Owns(t, id, owner, ip) && Owns(t, id, owner, other) ==> ip == other)
  }

  lemma StepOrderly(t: Table, op: Op, num: ToNumber, u: Table, id: string)
    requires Orderly(t, id) && OnRange(op, id) && Steps(t, op, num, u)
    ensures Orderly(u, id)
    ensures forall ip :: IsLive(t, ip) && op != Release(ip) ==> ip in u.rows && u.rows[ip] == t.rows[ip]
  {
    hide IntToIp, HostsOf, FirstFree;
    if op.Allocate? {
      var answer :| Allocated(t, op.id, op.owner, num, u, answer);
      AllocateOrderly(t, id, op.owner, num, u, answer);
    } else {
      assert forall ip, o :: Owns(u, id, o, ip) ==> Owns(t, id, o, ip);
    }
  }

  lemma AllocateOrderly(t: Table, id: string, owner: string, num: ToNumber, u: Table, answer: Answer)
    requires Orderly(t, id) && Allocated(t, id, owner, num, u, answer)
    ensures Orderly(u, id)
    ensures forall ip :: IsLive(t, ip) ==> ip in u.rows && u.rows[ip] == t.rows[ip]
  {
    hide IntToIp, HostsOf;
    if u != t {
      var ips := Rendered(Hosts(t, id, num).value);
      var address := ips[FirstFree(t, id, ips, 0)];
      assert !LiveIn(t, address, id);
      forall ip, o
        ensures Owns(u, id, o, ip) <==> if ip == address then o == owner else Owns(t, id, o, ip)
      {
      }
    }
  }

  /** In every reachable table each non-empty owner has at most one live address; no call overwrites a live row, only its release ends it. */
  lemma {:induction false} RunsAreOrderly(tables: seq<Table>, ops: seq<Op>, id: string, num: ToNumber, i: nat)
    requires IsRun(tables, ops, id, num) && i <= |ops|
    ensures Orderly(tables[i], id)
    ensures i < |ops| ==> forall ip :: IsLive(tables[i], ip) && ops[i] != Release(ip) ==> ip in tables[i + 1].rows && tables[i + 1].rows[ip] == tables[i].rows[ip]
  {
    hide Steps, Owns;
    if i > 0 {
      RunsAreOrderly(tables, ops, id, num, i - 1);
      StepOrderly(tables[i - 1], ops[i - 1], num, tables[i], id);
    } else {
      assert forall ip :: !LiveIn(tables[0], ip, id);
      assert forall ip, owner :: !Owns(tables[0], id, owner, ip) by { EmptyOwns(tables[0], id); }
    }
    if i < |ops| {
      StepOrderly(tables[i], ops[i], num, tables[i + 1], id);
    }
  }

  lemma EmptyOwns(t: Table, id: string)
    requires t.rows == map[]
    ensures forall ip, owner :: !Owns(t, id, owner, ip)
  {
  }

  lemma {:induction false} RowSurvives(tables: seq<Table>, ops: seq<Op>, id: string, num: ToNumber, i: nat, j: nat, ip: string)
    requires IsRun(tables, ops, id, num) && i <= j <= |ops| && IsLive(tables[i], ip)
    requires forall k :: i <= k < j ==> ops[k] != Release(ip)
    ensures ip in tables[j].rows && tables[j].rows[ip] == tables[i].rows[ip]
    decreases j
  {
    hide Steps, Orderly;
    if i < j {
      RowSurvives(tables, ops, id, num, i, j - 1, ip);
      RunsAreOrderly(tables, ops, id, num, j - 1);
    }
  }

  /** Until its address is released, an owner that asks again gets the same address, and the table does not change. */
  lemma RepeatedCallsAgree(tables: seq<Table>, ops: seq<Op>, id: string, num: ToNumber, i: nat, j: nat, owner: string, ip: string, u: Table, again: Answer)
    requires IsRun(tables, ops, id, num) && i < j <= |ops|
    requires owner != "" && Allocated(tables[i], id, owner, num, tables[i + 1], Address(ip))
    requires forall k :: i < k < j ==> ops[k] != Release(ip)
    requires Allocated(tables[j], id, owner, num, u, again)
    ensures again == Address(ip) && u == tables[j]
  {
    hide IntToIp, HostsOf, FirstFree, Steps;
    assert Owns(tables[i + 1], id, owner, ip);
    RowSurvives(tables, ops, id, num, i + 1, j, ip);
    RunsAreOrderly(tables, ops, id, num, j);
    assert Owns(tables[j], id, owner, ip);
    RangeStays(tables, ops, id, num, i, j);
  }

  /** A registered range stays registered. */
  lemma {:induction false} RangeStays(tables: seq<Table>, ops: seq<Op>, id: string, num: ToNumber, i: nat, j: nat)
    requires IsRun(tables, ops, id, num) && i <= j <= |ops| && id in tables[i].ranges
    ensures id in tables[j].ranges
    decreases j
  {
    hide Allocated, Steps;
    if i < j {
      RangeStays(tables, ops, id, num, i, j - 1);
      RangesMove(tables[j - 1], ops[j - 1], num, tables[j]);
    }
  }

  // ---------- any sequence of calls on several ranges ----------

  /** A history of the tables under any calls, from an empty store. */
  ghost predicate IsHistory(tables: seq<Table>, ops: seq<Op>, num: ToNumber) {
    && |tables| == |ops| + 1 && tables[0] == Table(map[], map[])
    && (forall i :: 0 <= i < |ops| ==> Steps(tables[i], ops[i], num, tables[i + 1]))
  }

  /** The call at k hands out the address, which is then the owner's. */
  ghost predicate HandsOut(tables: seq<Table>, ops: seq<Op>, k: nat, ip: string, num: ToNumber)
    requires |tables| == |ops| + 1 && k < |ops|
  {
    && ops[k].Allocate? && Allocated(tables[k], ops[k].id, ops[k].owner, num, tables[k + 1], Address(ip))
    && ip in tables[k + 1].rows && tables[k + 1].rows[ip] == Row(ops[k].id, ops[k].owner, true)
  }

  /** A released address is not live again before some later call hands it out. */
  lemma {:induction false} ReleasedUntilHandedOut(tables: seq<Table>, ops: seq<Op>, num: ToNumber, i: nat, j: nat, ip: string)
    requires IsHistory(tables, ops, num) && i < j <= |ops| && ops[i] == Release(ip) && IsLive(tables[j], ip)
    ensures exists k :: i < k < j && HandsOut(tables, ops, k, ip, num)
    decreases j
  {
    hide Steps, HandsOut;
    var t, op := tables[j - 1], ops[j - 1];
    assert Steps(t, op, num, tables[j]);
    if j - 1 == i {
      ReleaseFrees(t, ip, num, tables[j]);
    } else if IsLive(t, ip) {
      ReleasedUntilHandedOut(tables, ops, num, i, j - 1, ip);
      var k :| i < k < j - 1 && HandsOut(tables, ops, k, ip, num);
    } else {
      BecomesLive(t, op, num, tables[j], ip);
      assert HandsOut(tables, ops, j - 1, ip, num) by { HandedOut(tables, ops, j - 1, ip, num); }
    }
  }

  lemma HandedOut(tables: seq<Table>, ops: seq<Op>, k: nat, ip: string, num: ToNumber)
    requires |tables| == |ops| + 1 && k < |ops| && ops[k].Allocate?
    requires Allocated(tables[k], ops[k].id, ops[k].owner, num, tables[k + 1], Address(ip))
    requires ip in tables[k + 1].rows && tables[k + 1].rows[ip] == Row(ops[k].id, ops[k].owner, true)
    ensures HandsOut(tables, ops, k, ip, num)
  {
  }

  lemma BecomesLive(t: Table, op: Op, num: ToNumber, u: Table, ip: string)
    requires Steps(t, op, num, u) && !IsLive(t, ip) && IsLive(u, ip)
    ensures op.Allocate? && Allocated(t, op.id, op.owner, num, u, Address(ip)) && u.rows[ip] == Row(op.id, op.owner, true)
  {
    hide IntToIp, HostsOf, FirstFree;
  }

  /** A range is registered as it was last registered. */
  lemma {:induction false} RangeAsLastSet(tables: seq<Table>, ops: seq<Op>, num: ToNumber, i: nat, j: nat, id: string, range: Range)
    requires IsHistory(tables, ops, num) && i < j <= |ops| && ops[i] == SetRange(id, range)
    requires forall k :: i < k < j && ops[k].SetRange? ==> ops[k].id != id
    ensures id in tables[j].ranges && tables[j].ranges[id] == range
    decreases j
  {
    hide Steps;
    var t, op := tables[j - 1], ops[j - 1];
    assert Steps(t, op, num, tables[j]);
    if j - 1 > i {
      RangeAsLastSet(tables, ops, num, i, j - 1, id, range);
    }
    RangesMove(t, op, num, tables[j]);
  }

  lemma RangesMove(t: Table, op: Op, num: ToNumber, u: Table)
    requires Steps(t, op, num, u)
    ensures u.ranges == if op.SetRange? then t.ranges[op.id := op.range] else t.ranges
  {
    hide IntToIp, HostsOf, FirstFree;
  }

  /** The CIDR and gateway of a registration list the host. */
  ghost predicate Lists(op: Op, n: nat, num: ToNumber) {
    op.SetRange? && HostsOf(op.range.cidr, op.range.gateway, num).Some? && n in HostsOf(op.range.cidr, op.range.gateway, num).value
  }

  /** No host is listed by registrations under two ids, at whatever times they are made. */
  ghost predicate Disjoint(ops: seq<Op>, num: ToNumber) {
    forall i, j, n :: 0 <= i < |ops| && 0 <= j < |ops| && Lists(ops[i], n, num) && Lists(ops[j], n, num) ==> ops[i].id == ops[j].id
  }

  /** Some registration of the range so far lists the address. */
  ghost predicate Covers(ops: seq<Op>, i: nat, id: string, ip: string, num: ToNumber)
    requires i <= |ops|
  {
    exists j, n :: 0 <= j < i && Lists(ops[j], n, num) && ops[j].id == id && ip == IntToIp(n)
  }

  /** Registered ranges are as some call registered them, and every row lies in its range as it was once registered. */
  ghost predicate Accounted(t: Table, ops: seq<Op>, i: nat, num: ToNumber)
    requires i <= |ops|
  {
    && (forall id :: id in t.ranges ==> exists j :: 0 <= j < i && ops[j] == SetRange(id, t.ranges[id]))
    && (forall ip :: ip in t.rows ==> Covers(ops, i, t.rows[ip].range, ip, num))
  }

  lemma CoversLater(ops: seq<Op>, i: nat, id: string, ip: string, num: ToNumber)
    requires i < |ops| && Covers(ops, i, id, ip, num)
    ensures Covers(ops, i + 1, id, ip, num)
  {
    hide IntToIp, HostsOf;
    var j, n :| 0 <= j < i && Lists(ops[j], n, num) && ops[j].id == id && ip == IntToIp(n);
    assert 0 <= j < i + 1;
  }

  /** What an allocation adds is a host of a registration of its range. */
  lemma AllocationCovered(t: Table, ops: seq<Op>, i: nat, num: ToNumber, u: Table, ip: string)
    requires i < |ops| && Accounted(t, ops, i, num) && ops[i].Allocate? && Steps(t, ops[i], num, u)
    requires ip in u.rows && (ip !in t.rows || u.rows[ip] != t.rows[ip])
    ensures u.rows[ip].range == ops[i].id && !LiveIn(t, ip, ops[i].id) && Covers(ops, i, ops[i].id, ip, num)
    ensures forall other :: other != ip && other in u.rows ==> other in t.rows && u.rows[other] == t.rows[other]
  {
    hide IntToIp, HostsOf;
    var id := ops[i].id;
    var answer :| Allocated(t, id, ops[i].owner, num, u, answer);
    var hosts := Hosts(t, id, num).value;
    var k := FirstFree(t, id, Rendered(hosts), 0);
    assert ip == Rendered(hosts)[k] == IntToIp(hosts[k]);
    HostsAscend(t.ranges[id].cidr, t.ranges[id].gateway, num);
    var j :| 0 <= j < i && ops[j] == SetRange(id, t.ranges[id]);
    assert Lists(ops[j], hosts[k], num);
  }

  lemma StepAccounted(t: Table, ops: seq<Op>, i: nat, num: ToNumber, u: Table)
    requires i < |ops| && Accounted(t, ops, i, num) && Steps(t, ops[i], num, u)
    ensures Accounted(u, ops, i + 1, num)
  {
    hide IntToIp, HostsOf, FirstFree, Covers, Lists, Hosts;
    forall id | id in u.ranges
      ensures exists j :: 0 <= j < i + 1 && ops[j] == SetRange(id, u.ranges[id])
    {
      if ops[i].SetRange? && ops[i].id == id {
        assert ops[i] == SetRange(id, u.ranges[id]);
      } else {
        var j :| 0 <= j < i && ops[j] == SetRange(id, t.ranges[id]);
        assert 0 <= j < i + 1;
      }
    }
    forall ip | ip in u.rows
      ensures Covers(ops, i + 1, u.rows[ip].range, ip, num)
    {
      if ip in t.rows && u.rows[ip].range == t.rows[ip].range {
      } else {
        AllocationCovered(t, ops, i, num, u, ip);
      }
      CoversLater(ops, i, u.rows[ip].range, ip, num);
    }
  }

  lemma {:induction false} AlwaysAccounted(tables: seq<Table>, ops: seq<Op>, num: ToNumber, i: nat)
    requires IsHistory(tables, ops, num) && i <= |ops|
    ensures Accounted(tables[i], ops, i, num)
  {
    hide Steps, Covers;
    if i > 0 {
      AlwaysAccounted(tables, ops, num, i - 1);
      StepAccounted(tables[i - 1], ops, i - 1, num, tables[i]);
    }
  }

  lemma AddressesDistinct(m: nat, n: nat, num: ToNumber)
    requires m < TWO32 && n < TWO32 && ReadsNumerals(num) && IntToIp(m) == IntToIp(n)
    ensures m == n
  {
    hide *;
    IpRoundTrip(m, num);
    IpRoundTrip(n, num);
  }

  /** An address covered under two ids was listed by registrations of both. */
  lemma CoveredOnce(ops: seq<Op>, i: nat, a: string, b: string, ip: string, num: ToNumber)
    requires i <= |ops| && ReadsNumerals(num) && Disjoint(ops, num)
    requires Covers(ops, i, a, ip, num) && Covers(ops, i, b, ip, num)
    ensures a == b
  {
    hide IntToIp, HostsOf, ReadsNumerals;
    var j, m :| 0 <= j < i && Lists(ops[j], m, num) && ops[j].id == a && ip == IntToIp(m);
    var k, n :| 0 <= k < i && Lists(ops[k], n, num) && ops[k].id == b && ip == IntToIp(n);
    HostsAscend(ops[j].range.cidr, ops[j].range.gateway, num);
    HostsAscend(ops[k].range.cidr, ops[k].range.gateway, num);
    AddressesDistinct(m, n, num);
  }

  /** While no host is ever listed under two ids, no call on any range overwrites a live row: only its release ends it. */
  lemma DisjointRangesNeverOverwrite(tables: seq<Table>, ops: seq<Op>, num: ToNumber, i: nat, ip: string)
    requires IsHistory(tables, ops, num) && ReadsNumerals(num) && Disjoint(ops, num)
    requires i < |ops| && IsLive(tables[i], ip) && ops[i] != Release(ip)
    ensures ip in tables[i + 1].rows && tables[i + 1].rows[ip] == tables[i].rows[ip]
  {
    hide IntToIp, HostsOf, FirstFree, Covers, Lists, Disjoint, ReadsNumerals, Hosts;
    AlwaysAccounted(tables, ops, num, i);
    var t, u := tables[i], tables[i + 1];
    assert Steps(t, ops[i], num, u);
    if ip in u.rows && u.rows[ip] != t.rows[ip] && ops[i].Allocate? {
      AllocationCovered(t, ops, i, num, u, ip);
      CoveredOnce(ops, i, ops[i].id, t.rows[ip].range, ip, num);
    }
  }

  /** 10.0.0.0/30, whose hosts are 10.0.0.1 and 10.0.0.2. */
  function SmallRange(): string { Dotted(10, 0, 0, 0) + ['/'] + Numeral(30) }

  /** Two ranges with one CIDR, each registered and asked once: the second answer is the first address, and its live row is gone. */
  lemma OverlapOverwrites(num: ToNumber, tables: seq<Table>)
    requires ReadsNumerals(num) && |tables| == 5
    requires tables[0] == Table(map[], map[])
    requires Steps(tables[0], SetRange("a", Range(SmallRange(), "")), num, tables[1])
    requires Steps(tables[1], SetRange("b", Range(SmallRange(), "")), num, tables[2])
    requires Steps(tables[2], Allocate("a", "x"), num, tables[3])
    requires Steps(tables[3], Allocate("b", "y"), num, tables[4])
    ensures var ip := IntToIp(0x0A00_0001);
            && tables[3].rows == map[ip := Row("a", "x", true)]
            && tables[4].rows == map[ip := Row("b", "y", true)]
  {
    hide IntToIp, HostsOf, SmallRange, FirstFree;
    SmallHosts(num);
    FirstOfSmall(tables[2], "a", "x", num, tables[3]);
    FirstOfSmall(tables[3], "b", "y", num, tables[4]);
  }

  /** A range without live rows on this small CIDR hands out its first host. */
  lemma FirstOfSmall(t: Table, id: string, owner: string, num: ToNumber, u: Table)
    requires ReadsNumerals(num) && id in t.ranges && t.ranges[id] == Range(SmallRange(), "")
    requires Steps(t, Allocate(id, owner), num, u) && forall ip :: !LiveIn(t, ip, id)
    ensures u == t.(rows := t.rows[IntToIp(0x0A00_0001) := Row(id, owner, true)])
  {
    hide IntToIp, HostsOf, SmallRange;
    SmallHosts(num);
    var ips := Rendered([0x0A00_0001, 0x0A00_0002]);
    assert ips[0] == IntToIp(0x0A00_0001) && !LiveIn(t, ips[0], id);
    assert FirstFree(t, id, ips, 0) == 0;
    var answer :| Allocated(t, id, owner, num, u, answer);
  }

  lemma SmallHosts(num: ToNumber)
    requires ReadsNumerals(num)
    ensures HostsOf(SmallRange(), "", num) == Some([0x0A00_0001, 0x0A00_0002])
  {
    hide Split, Numeral, Value, IpToInt, Pow2, BitAnd, BitOr, Dotted, HostInts, ShiftLeft, ShiftRight;
    CidrSplit(10, 0, 0, 0, 30);
    ReadDotted(10, 0, 0, 0, num);
    CidrBlock(SmallRange(), num);
    assert Pow2(2) == 4 by { FourIsPow2(); }
    HostInts2(0x0A00_0001);
  }

  lemma FourIsPow2()
    ensures Pow2(2) == 4
  {
    assert Pow2(1) == 2;
  }

  lemma HostInts2(n: nat)
    ensures HostInts(n, n + 2, None) == [n, n + 1]
  {
    var r := HostInts(n, n + 2, None);
    assert HostInts(n + 2, n + 2, None) == [];
    assert HostInts(n + 1, n + 2, None) == [n + 1];
  }
}

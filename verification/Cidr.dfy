/**
 IPv4 CIDR arithmetic (packages/orchestrator/src/ipam/cidr.ts), with JavaScript's 32-bit operators spelled out bit by bit
 and `Number` left as a parameter.
 */
module Cidr {
  import opened Options
  import opened Words
  import opened Strings
  import opened Decimals

  function Pow2(k: nat): (p: nat)
    ensures p > 0
  {
    if k == 0 then 1 else 2 * Pow2(k - 1)
  }

  // ---------- 32-bit operators on unsigned values ----------

  function BitAnd(x: nat, y: nat): nat { if x == 0 || y == 0 then 0 else 2 * BitAnd(x / 2, y / 2) + (x % 2) * (y % 2) }

  function BitOr(x: nat, y: nat): nat
    decreases x + y
  {
    if x == 0 && y == 0 then 0 else 2 * BitOr(x / 2, y / 2) + (if x % 2 == 1 || y % 2 == 1 then 1 else 0)
  }

  function ShiftLeft(x: nat, k: nat): nat { (x * Pow2(k)) % TWO32 }

  function ShiftRight(x: nat, k: nat): nat { Quotient(x, Pow2(k)) }

  function Complement(x: nat): nat
    requires x < TWO32
  {
    TWO32 - 1 - x
  }

  lemma {:induction false} Pow2Add(a: nat, b: nat)
    ensures Pow2(a + b) == Pow2(a) * Pow2(b)
  {
    if a > 0 {
      Pow2Add(a - 1, b);
    }
  }

  lemma Pow2Values()
    ensures Pow2(8) == 0x100 && Pow2(16) == 0x1_0000 && Pow2(24) == 0x100_0000 && Pow2(32) == TWO32
  {
    assert Pow2(4) == 16;
    Pow2Add(4, 4);
    Pow2Add(8, 8);
    Pow2Add(16, 8);
    Pow2Add(16, 16);
  }

  lemma HalfMod(x: nat, k: nat)
    requires k > 0
    ensures x % Pow2(k) == 2 * (x / 2 % Pow2(k - 1)) + x % 2
  {
    var m := Pow2(k - 1);
    var q, r := x / 2 / m, x / 2 % m;
    assert x == 2 * (q * m + r) + x % 2;
    assert x == q * (2 * m) + (2 * r + x % 2);
    ModUnique(x, 2 * m, q, 2 * r + x % 2);
  }

  lemma AndStep(x: nat, y: nat)
    ensures BitAnd(x, y) == 2 * BitAnd(x / 2, y / 2) + (x % 2) * (y % 2)
  {
  }

  lemma Pow2Step(k: nat)
    ensures k > 0 ==> Pow2(k) == 2 * Pow2(k - 1)
    ensures Pow2(0) == 1
  {
  }

  lemma OddHalf(p: nat, q: nat)
    requires p == 2 * q && q > 0
    ensures (p - 1) / 2 == q - 1 && (p - 1) % 2 == 1
  {
  }

  /** Masking with k one-bits takes the remainder modulo 2^k. */
  lemma {:induction false} AndLowMask(x: nat, k: nat)
    ensures BitAnd(x, Pow2(k) - 1) == x % Pow2(k)
    decreases k
  {
    Pow2Step(k);
    if k == 0 {
      assert BitAnd(x, 0) == 0;
    } else {
      AndLowMask(x / 2, k - 1);
      hide BitAnd, Pow2;
      HalfMod(x, k);
      OddHalf(Pow2(k), Pow2(k - 1));
      AndStep(x, Pow2(k) - 1);
    }
  }

  function Times(a: nat, b: nat): nat { a * b }

  /** m one-bits above k zero-bits */
  function HighMask(m: nat, k: nat): nat { Times(Pow2(m) - 1, Pow2(k)) }

  /** Masking with m one-bits above k zero-bits clears the low k bits. */
  lemma {:induction false} AndHighMask(x: nat, m: nat, k: nat)
    requires x < Pow2(m + k)
    ensures BitAnd(x, HighMask(m, k)) == x - x % Pow2(k)
    decreases k
  {
    hide BitAnd, Pow2;
    Pow2Step(k);
    if k == 0 {
      AndLowMask(x, m);
      ModUnique(x, Pow2(m), 0, x);
    } else {
      var y := (Pow2(m) - 1) * Pow2(k - 1);
      DoubleMask(m, k);
      Pow2Step(m + k);
      AndHighMask(x / 2, m, k - 1);
      HalfMod(x, k);
      EvenHalf(y);
      AndStep(x, 2 * y);
    }
  }

  lemma EvenHalf(y: nat)
    ensures (2 * y) / 2 == y && (2 * y) % 2 == 0
  {
  }

  lemma DoubleMask(m: nat, k: nat)
    requires k > 0
    ensures (Pow2(m) - 1) * Pow2(k) == 2 * ((Pow2(m) - 1) * Pow2(k - 1))
  {
    var a, b := Pow2(m) - 1, Pow2(k - 1);
    assert a * (2 * b) == 2 * (a * b);
  }

  lemma {:induction false} OrZero(x: nat)
    ensures BitOr(x, 0) == x && BitOr(0, x) == x
  {
    if x > 0 {
      OrZero(x / 2);
    }
  }

  /** Or-ing a value below 2^k into k zero bits is adding it. */
  lemma {:induction false} OrDisjoint(a: nat, k: nat, b: nat)
    requires b < Pow2(k)
    ensures BitOr(a * Pow2(k), b) == a * Pow2(k) + b
    decreases k
  {
    if k == 0 {
      OrZero(a);
    } else {
      var y := a * Pow2(k - 1);
      assert a * Pow2(k) == 2 * y by {
        assert Pow2(k) == 2 * Pow2(k - 1);
      }
      assert (2 * y) / 2 == y && (2 * y) % 2 == 0;
      OrDisjoint(a, k - 1, b / 2);
      if 2 * y != 0 || b != 0 {
        assert BitOr(2 * y, b) == 2 * BitOr(y, b / 2) + (if b % 2 == 1 then 1 else 0);
      }
    }
  }

  // ---------- addresses ----------

  /** `Number(text)` when it is an integer. */
  type ToNumber = string -> Option<int>

  /** Whatever else it accepts, `Number` reads plain decimal numerals. */
  ghost predicate ReadsNumerals(num: ToNumber) { forall n: nat :: num(Numeral(n)) == Some(n) }

  predicate IsOctet(o: Option<int>) { o.Some? && 0 <= o.value <= 255 }

  function IpToInt(ip: string, num: ToNumber): Option<nat> {
    var parts := Split(ip, '.');
    if |parts| != 4 || !IsOctet(num(parts[0])) || !IsOctet(num(parts[1])) || !IsOctet(num(parts[2])) || !IsOctet(num(parts[3])) then None
    else Some(BitOr(BitOr(BitOr(ShiftLeft(num(parts[0]).value, 24), ShiftLeft(num(parts[1]).value, 16)),
                          ShiftLeft(num(parts[2]).value, 8)), num(parts[3]).value))
  }

  function Octets(n: nat): (r: seq<nat>)
    ensures |r| == 4
  {
    [BitAnd(ShiftRight(n, 24), 255), BitAnd(ShiftRight(n, 16), 255), BitAnd(ShiftRight(n, 8), 255), BitAnd(n, 255)]
  }

  function IntToIp(n: nat): string {
    var o := Octets(n);
    Join([Numeral(o[0]), Numeral(o[1]), Numeral(o[2]), Numeral(o[3])], '.')
  }

  /** Packing four octets. */
  lemma Packed(a: nat, b: nat, c: nat, d: nat)
    requires a < 256 && b < 256 && c < 256 && d < 256
    ensures BitOr(BitOr(BitOr(ShiftLeft(a, 24), ShiftLeft(b, 16)), ShiftLeft(c, 8)), d) == ((a * 256 + b) * 256 + c) * 256 + d
  {
    hide BitOr, Pow2;
    Pow2Values();
    OrDisjoint(a, 24, b * 0x1_0000);
    OrDisjoint(a * 256 + b, 16, c * 0x100);
    OrDisjoint((a * 256 + b) * 256 + c, 8, d);
    assert a * 0x100_0000 + b * 0x1_0000 == (a * 256 + b) * 0x1_0000;
    assert (a * 256 + b) * 0x1_0000 + c * 0x100 == ((a * 256 + b) * 256 + c) * 0x100;
  }

  lemma OctetsOf(n: nat)
    requires n < TWO32
    ensures var o := Octets(n);
            && o[0] == n / 0x100_0000 && o[1] == n / 0x1_0000 % 256 && o[2] == n / 0x100 % 256 && o[3] == n % 256
            && n == ((o[0] * 256 + o[1]) * 256 + o[2]) * 256 + o[3]
            && o[0] < 256 && o[1] < 256 && o[2] < 256 && o[3] < 256
  {
    hide BitAnd, Pow2;
    Pow2Values();
    AndLowMask(n / 0x100_0000, 8);
    AndLowMask(n / 0x1_0000, 8);
    AndLowMask(n / 0x100, 8);
    AndLowMask(n, 8);
  }

  lemma NumeralHasNo(n: nat, c: char)
    requires !IsDigit(c)
    ensures c !in Numeral(n)
  {
    assert forall i :: 0 <= i < |Numeral(n)| ==> IsDigit(Numeral(n)[i]);
  }

  lemma DottedSplit(a: nat, b: nat, c: nat, d: nat)
    ensures Split(Join([Numeral(a), Numeral(b), Numeral(c), Numeral(d)], '.'), '.') == [Numeral(a), Numeral(b), Numeral(c), Numeral(d)]
  {
    NumeralHasNo(a, '.');
    NumeralHasNo(b, '.');
    NumeralHasNo(c, '.');
    NumeralHasNo(d, '.');
    FourParts(Numeral(a), Numeral(b), Numeral(c), Numeral(d));
  }

  lemma FourParts(a: string, b: string, c: string, d: string)
    requires '.' !in a && '.' !in b && '.' !in c && '.' !in d
    ensures Split(Join([a, b, c, d], '.'), '.') == [a, b, c, d]
  {
    hide Split, Join;
    SplitJoin([a, b, c, d], '.');
  }

  function Dotted(a: nat, b: nat, c: nat, d: nat): string {
    Join([Numeral(a), Numeral(b), Numeral(c), Numeral(d)], '.')
  }

  lemma ReadDotted(a: nat, b: nat, c: nat, d: nat, num: ToNumber)
    requires a < 256 && b < 256 && c < 256 && d < 256 && ReadsNumerals(num)
    ensures IpToInt(Dotted(a, b, c, d), num) == Some(((a * 256 + b) * 256 + c) * 256 + d)
  {
    hide Split, Join, BitOr, ShiftLeft;
    DottedSplit(a, b, c, d);
    Packed(a, b, c, d);
  }

  /** Reading back a rendered address. */
  lemma IpRoundTrip(n: nat, num: ToNumber)
    requires n < TWO32 && ReadsNumerals(num)
    ensures IpToInt(IntToIp(n), num) == Some(n)
  {
    hide Octets, IpToInt, Join;
    OctetsOf(n);
    var o := Octets(n);
    ReadDotted(o[0], o[1], o[2], o[3], num);
  }

  /** Rendering what was read gives the same text back for every address written in plain octets. */
  lemma IpTextRoundTrip(a: nat, b: nat, c: nat, d: nat, num: ToNumber)
    requires a < 256 && b < 256 && c < 256 && d < 256 && ReadsNumerals(num)
    ensures IpToInt(Dotted(a, b, c, d), num).Some?
    ensures IntToIp(IpToInt(Dotted(a, b, c, d), num).value) == Dotted(a, b, c, d)
  {
    hide Octets, IpToInt, Join;
    ReadDotted(a, b, c, d, num);
    OctetsBack(a, b, c, d);
  }

  lemma OctetsBack(a: nat, b: nat, c: nat, d: nat)
    requires a < 256 && b < 256 && c < 256 && d < 256
    ensures var n := ((a * 256 + b) * 256 + c) * 256 + d;
            n < TWO32 && Octets(n) == [a, b, c, d]
  {
    hide Octets;
    var n := ((a * 256 + b) * 256 + c) * 256 + d;
    OctetsOf(n);
    var o := Octets(n);
    assert o[3] == d && n / 256 == (a * 256 + b) * 256 + c;
    assert o == [o[0], o[1], o[2], o[3]];
  }

  lemma IpToIntRange(ip: string, num: ToNumber)
    ensures IpToInt(ip, num).Some? ==> IpToInt(ip, num).value < TWO32
  {
    hide BitOr, ShiftLeft, Split;
    var p := Split(ip, '.');
    if IpToInt(ip, num).Some? {
      Packed(num(p[0]).value, num(p[1]).value, num(p[2]).value, num(p[3]).value);
    }
  }

  // ---------- ranges ----------

  datatype ParsedCidr = ParsedCidr(networkInt: nat, broadcastInt: nat, prefixLen: nat)

  function Mask(hostBits: nat): nat { if hostBits == 32 then 0 else ShiftLeft(TWO32 - 1, hostBits) }

  function ParseCidr(cidr: string, num: ToNumber): (r: Option<ParsedCidr>) {
    var parts := Split(cidr, '/');
    if |parts| < 2 || parts[0] == "" || parts[1] == "" then None
    else
      var prefix := num(parts[1]);
      if prefix.None? || prefix.value < 0 || prefix.value > 32 then None
      else
        var hostBits := 32 - prefix.value;
        var ip := IpToInt(parts[0], num);
        if ip.None? then None
        else
          var mask := Mask(hostBits);
          var network := BitAnd(ip.value, mask);
          var broadcast := if hostBits == 32 || mask >= TWO32 then TWO32 - 1 else BitOr(network, Complement(mask));
          Some(ParsedCidr(network, broadcast, prefix.value))
  }

  lemma MaskValue(h: nat)
    requires h <= 32
    ensures Mask(h) == TWO32 - Pow2(h) == (Pow2(32 - h) - 1) * Pow2(h)
  {
    hide Pow2;
    Pow2Values();
    Pow2Add(32 - h, h);
    var p, q := Pow2(h), Pow2(32 - h);
    LessOne(q, p);
    if h < 32 {
      MaskProduct(p);
    }
  }

  lemma LessOne(q: nat, p: nat)
    requires q > 0
    ensures (q - 1) * p == q * p - p >= 0
  {
  }

  lemma MaskProduct(p: nat)
    requires 0 < p <= TWO32
    ensures (TWO32 - 1) * p % TWO32 == TWO32 - p
  {
    assert (TWO32 - 1) * p == (p - 1) * TWO32 + (TWO32 - p);
    ModUnique((TWO32 - 1) * p, TWO32, p - 1, TWO32 - p);
  }

  /** For every prefix length 0 to 32, network and broadcast are the bounds of the aligned block that holds the address. */
  lemma CidrBlock(cidr: string, num: ToNumber)
    requires ParseCidr(cidr, num).Some?
    ensures var r := ParseCidr(cidr, num).value; var ip := IpToInt(Split(cidr, '/')[0], num);
            && ip.Some? && r.prefixLen <= 32
            && var size := Pow2(32 - r.prefixLen);
            && r.networkInt == ip.value / size * size
            && r.broadcastInt == r.networkInt + size - 1
            && r.networkInt <= ip.value <= r.broadcastInt < TWO32
  {
    hide Split, IpToInt, BitAnd, BitOr, ShiftLeft, Mask, Pow2;
    var r, ip := ParseCidr(cidr, num).value, IpToInt(Split(cidr, '/')[0], num).value;
    var h := 32 - r.prefixLen;
    var size := Pow2(h);
    IpToIntRange(Split(cidr, '/')[0], num);
    Pow2Values();
    MaskValue(h);
    AndHighMask(ip, 32 - h, h);
    assert ip - ip % size == ip / size * size;
    OrDisjoint(ip / size, h, size - 1);
    assert Mask(32) == 0 by { MaskIsZero(); }
    BlockFits(ip / size, h);
  }

  /** An address written as four numerals is read exactly when each is below 256, and is then the number in base 256. */
  lemma DottedExactly(a: nat, b: nat, c: nat, d: nat, num: ToNumber)
    requires ReadsNumerals(num)
    ensures IpToInt(Dotted(a, b, c, d), num) ==
            if a < 256 && b < 256 && c < 256 && d < 256 then Some(((a * 256 + b) * 256 + c) * 256 + d) else None
  {
    hide Split, Join, BitOr, ShiftLeft;
    DottedSplit(a, b, c, d);
    if a < 256 && b < 256 && c < 256 && d < 256 {
      ReadDotted(a, b, c, d, num);
    }
  }

  /** A range written as an address and a numeral is read exactly when the address is and the prefix length is at most 32. */
  lemma CidrExactly(a: nat, b: nat, c: nat, d: nat, p: nat, num: ToNumber)
    requires ReadsNumerals(num)
    ensures var cidr := Dotted(a, b, c, d) + ['/'] + Numeral(p); var r := ParseCidr(cidr, num);
            && (r.Some? <==> a < 256 && b < 256 && c < 256 && d < 256 && p <= 32)
            && (r.Some? ==> r.value.prefixLen == p && IpToInt(Split(cidr, '/')[0], num) == Some(((a * 256 + b) * 256 + c) * 256 + d))
  {
    hide Split, IpToInt, Dotted, Numeral, BitAnd, BitOr, Mask, Pow2;
    CidrSplit(a, b, c, d, p);
    DottedExactly(a, b, c, d, num);
  }

  lemma CidrSplit(a: nat, b: nat, c: nat, d: nat, p: nat)
    ensures Split(Dotted(a, b, c, d) + ['/'] + Numeral(p), '/') == [Dotted(a, b, c, d), Numeral(p)]
    ensures Dotted(a, b, c, d) != "" && Numeral(p) != ""
  {
    hide Split, Numeral, Value, Dotted;
    DottedHasNoSlash(a, b, c, d);
    NumeralHasNo(p, '/');
    SplitPart(Dotted(a, b, c, d), Numeral(p), '/');
    SplitWhole(Numeral(p), '/');
  }

  lemma DottedHasNoSlash(a: nat, b: nat, c: nat, d: nat)
    ensures '/' !in Dotted(a, b, c, d) && Dotted(a, b, c, d) != ""
  {
    hide Numeral, Value;
    NumeralHasNo(a, '/');
    NumeralHasNo(b, '/');
    NumeralHasNo(c, '/');
    NumeralHasNo(d, '/');
    JoinHasNo([Numeral(a), Numeral(b), Numeral(c), Numeral(d)], '/', '.');
  }

  lemma {:induction false} JoinHasNo(parts: seq<string>, c: char, sep: char)
    requires c != sep && forall i :: 0 <= i < |parts| ==> c !in parts[i] && parts[i] != ""
    ensures c !in Join(parts, sep) && (parts != [] ==> Join(parts, sep) != "")
  {
    if |parts| > 1 {
      JoinHasNo(parts[1..], c, sep);
    }
  }

  lemma MaskIsZero()
    ensures Mask(32) == 0
  {
  }

  /** An aligned block that starts below 2^32 ends below it. */
  lemma BlockFits(q: nat, h: nat)
    requires h <= 32 && q * Pow2(h) < TWO32
    ensures q * Pow2(h) + Pow2(h) <= TWO32
  {
    Pow2Values();
    Pow2Add(32 - h, h);
    assert 32 - h + h == 32;
    hide Pow2;
    WholeBlocks(q, Pow2(32 - h), Pow2(h), TWO32);
  }

  lemma WholeBlocks(q: nat, m: nat, p: nat, total: nat)
    requires m * p == total && q * p < total
    ensures q * p + p <= total
  {
    if q >= m {
      ProductMonotone(m, q, p);
    } else {
      ProductMonotone(q + 1, m, p);
      assert (q + 1) * p == q * p + p;
    }
  }

  lemma ProductMonotone(a: nat, b: nat, p: nat)
    requires a <= b
    ensures a * p <= b * p
  {
    assert b * p == a * p + (b - a) * p;
  }

  // ---------- hosts ----------

  /** The usable host addresses in order: strictly between network and broadcast, without the excluded one. */
  function HostInts(from: nat, to: nat, exclude: Option<nat>): (r: seq<nat>)
    ensures forall n :: n in r <==> from <= n < to && exclude != Some(n)
    ensures forall i, j :: 0 <= i < j < |r| ==> r[i] < r[j]
    ensures |r| == (if from <= to then to - from else 0) - (if exclude.Some? && from <= exclude.value < to then 1 else 0)
    decreases if from <= to then to - from else 0
  {
    if from >= to then []
    else if exclude == Some(from) then HostInts(from + 1, to, exclude)
    else
      var rest := HostInts(from + 1, to, exclude);
      assert forall i :: 0 <= i < |rest| ==> rest[i] in rest;
      [from] + rest
  }

  function Rendered(hosts: seq<nat>): seq<string> { seq(|hosts|, i requires 0 <= i < |hosts| => IntToIp(hosts[i])) }

  /** The hosts of a range as numbers; `None` when the range or the excluded address does not parse. */
  function HostsOf(cidr: string, exclude: string, num: ToNumber): Option<seq<nat>> {
    var r := ParseCidr(cidr, num);
    if r.None? then None
    else if exclude != "" && IpToInt(exclude, num).None? then None
    else if r.value.prefixLen >= 31 then Some([])
    else Some(HostInts(r.value.networkInt + 1, r.value.broadcastInt, if exclude == "" then None else IpToInt(exclude, num)))
  }

  /** hostsInCidr: the loop that pushes one rendered address after the other. */
  method HostsInCidr(cidr: string, exclude: string, num: ToNumber) returns (hosts: Option<seq<string>>)
    ensures hosts.None? <==> HostsOf(cidr, exclude, num).None?
    ensures hosts.Some? ==> hosts.value == Rendered(HostsOf(cidr, exclude, num).value)
  {
    hide ParseCidr, IpToInt, IntToIp, HostInts, Rendered;
    var r := ParseCidr(cidr, num);
    if r.None? {
      return None;
    }
    var excluded: Option<nat> := None;
    if exclude != "" {
      excluded := IpToInt(exclude, num);
      if excluded.None? {
        return None;
      }
    }
    if r.value.prefixLen >= 31 {
      assert Rendered([]) == [] by { RenderedNone(); }
      return Some([]);
    }
    var list: seq<string> := [];
    ghost var all := HostInts(r.value.networkInt + 1, r.value.broadcastInt, excluded);
    var n := r.value.networkInt + 1;
    while n < r.value.broadcastInt
      invariant list + Rendered(HostInts(n, r.value.broadcastInt, excluded)) == Rendered(all)
    {
      HostStep(n, r.value.broadcastInt, excluded);
      if excluded != Some(n) {
        list := list + [IntToIp(n)];
      }
      n := n + 1;
    }
    HostStep(n, r.value.broadcastInt, excluded);
    hosts := Some(list);
  }

  lemma RenderedNone()
    ensures Rendered([]) == []
  {
  }

  lemma HostStep(n: nat, to: nat, excluded: Option<nat>)
    ensures n >= to ==> Rendered(HostInts(n, to, excluded)) == []
    ensures var next := if excluded == Some(n) then [] else [IntToIp(n)];
            n < to ==> Rendered(HostInts(n, to, excluded)) == next + Rendered(HostInts(n + 1, to, excluded))
  {
    hide IntToIp;
  }

  /**
   There is a list exactly when the range parses and the excluded address, if any, does. For a prefix of at most 30 it is
   strictly increasing, has exactly the addresses strictly inside the block except the excluded one, and 2^(32 - p) - 2 of
   them, one less when the excluded address is strictly inside; for a longer prefix it is empty.
   */
  lemma HostCount(cidr: string, exclude: string, num: ToNumber)
    ensures HostsOf(cidr, exclude, num).Some? <==> ParseCidr(cidr, num).Some? && (exclude == "" || IpToInt(exclude, num).Some?)
    ensures HostsOf(cidr, exclude, num).Some? && ParseCidr(cidr, num).value.prefixLen > 30 ==> HostsOf(cidr, exclude, num).value == []
    ensures HostsOf(cidr, exclude, num).Some? && ParseCidr(cidr, num).value.prefixLen <= 30 ==>
            var hosts, r := HostsOf(cidr, exclude, num).value, ParseCidr(cidr, num).value;
            var x := IpToInt(exclude, num);
            && (forall i, j :: 0 <= i < j < |hosts| ==> hosts[i] < hosts[j])
            && (forall n :: n in hosts <==> r.networkInt < n < r.broadcastInt && !(exclude != "" && x == Some(n)))
            && |hosts| == Pow2(32 - r.prefixLen) - 2 - (if exclude != "" && r.networkInt < x.value < r.broadcastInt then 1 else 0)
  {
    hide ParseCidr, IpToInt, HostInts;
    if HostsOf(cidr, exclude, num).Some? {
      CidrBlock(cidr, num);
      var p := 32 - ParseCidr(cidr, num).value.prefixLen;
      if p >= 2 {
        Pow2Add(2, p - 2);
        assert Pow2(2) == 4;
      }
    }
  }

  predicate IsIpInCidr(ip: string, cidr: string, num: ToNumber)
    requires IpToInt(ip, num).Some? && ParseCidr(cidr, num).Some?
  {
    ParseCidr(cidr, num).value.networkInt <= IpToInt(ip, num).value <= ParseCidr(cidr, num).value.broadcastInt
  }

  /** An address is in a range exactly when it shares the range's leading bits. */
  lemma InCidrSharesPrefix(ip: string, cidr: string, num: ToNumber)
    requires IpToInt(ip, num).Some? && ParseCidr(cidr, num).Some?
    ensures var base := IpToInt(Split(cidr, '/')[0], num); var size := Pow2(32 - ParseCidr(cidr, num).value.prefixLen);
            base.Some? && (IsIpInCidr(ip, cidr, num) <==> IpToInt(ip, num).value / size == base.value / size)
  {
    hide ParseCidr, IpToInt, Pow2, Split;
    CidrBlock(cidr, num);
    var n, base := IpToInt(ip, num).value, IpToInt(Split(cidr, '/')[0], num).value;
    var size := Pow2(32 - ParseCidr(cidr, num).value.prefixLen);
    if IsIpInCidr(ip, cidr, num) {
      ModUnique(n, size, base / size, n - base / size * size);
    }
  }
}

/**
 The raw form of an ECDSA signature (plugins/cert-letsencrypt-dns01/src/jws.ts, section 3.4 of RFC 7518).
 */
module Jws {
  import opened Options
  import opened Der

  function Power(b: nat, k: nat): nat { if k == 0 then 1 else Power(b, k - 1) * b }

  function Zeros(k: nat): (s: Bytes)
    ensures |s| == k && forall i :: 0 <= i < k ==> s[i] == 0
  {
    seq(k, i => 0)
  }

  // ---------- conversion ----------

  /** Drops leading zeros while too long, then pads on the left while too short. */
  function Fit(bytes: Bytes, n: nat): Bytes {
    if |bytes| > n && bytes[0] == 0 then Fit(bytes[1..], n)
    else if |bytes| < n then Zeros(n - |bytes|) + bytes
    else bytes
  }

  datatype Cursor = Cursor(bytes: Bytes, offset: nat)

  /** The octets of the INTEGER at `offset`; a missing length octet reads as no octets and ends the input, a long one is cut short. */
  function IntegerAt(der: Bytes, offset: nat): Option<Cursor> {
    if offset >= |der| || der[offset] != 0x02 then None
    else if offset + 1 == |der| then Some(Cursor([], |der|))
    else
      var from, to := offset + 2, offset + 2 + der[offset + 1];
      Some(Cursor(if to <= |der| then der[from..to] else der[from..], to))
  }

  function RawSignature(der: Bytes, n: nat): Option<Bytes> {
    var r := IntegerAt(der, 2);
    if r.None? then None else
      var s := IntegerAt(der, r.value.offset);
      if s.None? then None else Some(Fit(r.value.bytes, n) + Fit(s.value.bytes, n))
  }

  method ReadInt(der: Bytes, offset: nat, componentLength: nat) returns (r: Option<Cursor>)
    ensures var i := IntegerAt(der, offset);
            r == (if i.None? then None else Some(Cursor(Fit(i.value.bytes, componentLength), i.value.offset)))
  {
    if offset >= |der| || der[offset] != 0x02 {
      return None;
    }
    var next := offset + 1;
    var bytes: Bytes := [];
    if next < |der| {
      var len := der[next];
      next := next + 1;
      bytes := if next + len <= |der| then der[next..next + len] else der[next..];
      next := next + len;
    }
    ghost var all := bytes;
    while |bytes| > componentLength && bytes[0] == 0x00
      invariant Fit(bytes, componentLength) == Fit(all, componentLength)
    {
      bytes := bytes[1..];
    }
    if |bytes| < componentLength {
      bytes := Zeros(componentLength - |bytes|) + bytes;
    }
    r := Some(Cursor(bytes, next));
  }

  method DerToRawEcdsaSignature(der: Bytes, componentLength: nat) returns (raw: Option<Bytes>)
    ensures raw == RawSignature(der, componentLength)
  {
    var r := ReadInt(der, 2, componentLength);
    if r.None? {
      return None;
    }
    var s := ReadInt(der, r.value.offset, componentLength);
    if s.None? {
      return None;
    }
    raw := Some(r.value.bytes + s.value.bytes);
  }

  // ---------- values ----------

  /** The value of a big-endian unsigned number. */
  function Value(s: Bytes): nat { ValueOf(s, 256) }

  lemma {:induction false} LeadingZero(s: Bytes)
    ensures Value([0] + s) == Value(s)
  {
    if s == [] {
      assert ([0] + s)[..0] == [];
    } else {
      var front, last := s[..|s| - 1], s[|s| - 1];
      LeadingZero(front);
      assert [0] + s == ([0] + front) + [last] && s == front + [last];
      ValueOfSnoc([0] + front, last, 256);
    }
  }

  lemma {:induction false} PaddingKeepsValue(k: nat, s: Bytes)
    ensures Value(Zeros(k) + s) == Value(s)
  {
    if k == 0 {
      assert Zeros(0) + s == s;
    } else {
      PaddingKeepsValue(k - 1, s);
      assert Zeros(k) + s == [0] + (Zeros(k - 1) + s);
      LeadingZero(Zeros(k - 1) + s);
    }
  }

  lemma {:induction false} FitKeepsValue(s: Bytes, n: nat)
    ensures Value(Fit(s, n)) == Value(s)
  {
    if |s| > n && s[0] == 0 {
      FitKeepsValue(s[1..], n);
      assert s == [0] + s[1..];
      LeadingZero(s[1..]);
    } else if |s| < n {
      PaddingKeepsValue(n - |s|, s);
    }
  }

  lemma {:induction false} Below(s: Bytes)
    ensures Value(s) < Power(256, |s|)
  {
    if s != [] {
      Below(s[..|s| - 1]);
    }
  }

  /** A nonzero first octet makes the value at least 256^(length - 1). */
  lemma {:induction false} AtLeast(s: Bytes)
    requires s != [] && s[0] > 0
    ensures Value(s) >= Power(256, |s| - 1)
  {
    if |s| == 1 {
      assert ValueOf(s[..0], 256) == 0;
    } else {
      AtLeast(s[..|s| - 1]);
    }
  }

  lemma {:induction false} PowerMonotone(a: nat, b: nat)
    requires a <= b
    ensures Power(256, a) <= Power(256, b)
  {
    if a < b {
      PowerMonotone(a, b - 1);
    }
  }

  /** The fitted octets never fall short, and have exactly the wanted length when the value fits in it. */
  lemma {:induction false} FitLength(s: Bytes, n: nat)
    ensures |Fit(s, n)| >= n
    ensures |Fit(s, n)| == n <==> Value(s) < Power(256, n)
  {
    if |s| > n && s[0] == 0 {
      FitLength(s[1..], n);
      assert s == [0] + s[1..];
      LeadingZero(s[1..]);
    } else if |s| <= n {
      Below(s);
      PowerMonotone(|s|, n);
    } else {
      AtLeast(s);
      PowerMonotone(n, |s| - 1);
    }
  }

  // ---------- signatures ----------

  /** The contents of a DER INTEGER for n >= 0 (section 8.3 of X.690): fewest octets, top bit clear. */
  function MinimalInteger(n: nat): (s: Bytes)
    ensures s != [] && s[0] < 0x80
  {
    var d := Digits(n, 256);
    if d == [] || d[0] >= 0x80 then [0] + d else d
  }

  lemma MinimalIntegerValue(n: nat)
    ensures Value(MinimalInteger(n)) == n
  {
    hide ValueOf;
    ValueOfDigits(n, 256);
    LeadingZero(Digits(n, 256));
  }

  function IntegerPair(r: nat, s: nat): Bytes { Tlv(0x02, MinimalInteger(r)) + Tlv(0x02, MinimalInteger(s)) }

  function DerSignature(r: nat, s: nat): Bytes { Tlv(0x30, IntegerPair(r, s)) }

  lemma ShortTlv(tag: byte, content: Bytes)
    requires |content| < 0x80
    ensures Tlv(tag, content) == [tag, |content|] + content
  {
  }

  lemma IntegerRead(before: Bytes, content: Bytes, after: Bytes)
    requires |content| < 0x80
    ensures IntegerAt(before + [0x02, |content|] + content + after, |before|) == Some(Cursor(content, |before| + 2 + |content|))
  {
    var d := before + [0x02, |content|] + content + after;
    assert d[|before|] == 0x02 && d[|before| + 1] == |content|;
    assert d[|before| + 2..|before| + 2 + |content|] == content;
  }

  lemma ShortSignature(r: nat, s: nat)
    requires |IntegerPair(r, s)| < 0x80
    ensures var a, b := MinimalInteger(r), MinimalInteger(s);
            RawSignature(DerSignature(r, s), 32) == Some(Fit(a, 32) + Fit(b, 32))
  {
    hide MinimalInteger, Fit, IntegerAt;
    var a, b := MinimalInteger(r), MinimalInteger(s);
    Longer(0x02, a);
    Longer(0x02, b);
    ShortTlv(0x02, a);
    ShortTlv(0x02, b);
    ShortTlv(0x30, IntegerPair(r, s));
    hide Tlv;
    var d := DerSignature(r, s);
    var head: Bytes := [0x30, |IntegerPair(r, s)|];
    IntegerRead(head, a, [0x02, |b|] + b);
    assert d == head + [0x02, |a|] + a + ([0x02, |b|] + b);
    var middle := head + [0x02, |a|] + a;
    IntegerRead(middle, b, []);
    assert d == middle + [0x02, |b|] + b + [];
  }

  /**
   The conversion of any signature with a one-octet length has 64 octets exactly when both
   components fit in 256 bits, and then its halves are the two components.
   */
  lemma RawSignatureExact(r: nat, s: nat)
    requires |IntegerPair(r, s)| < 0x80
    ensures var raw := RawSignature(DerSignature(r, s), 32);
            && raw.Some?
            && (|raw.value| == 64 <==> r < Power(256, 32) && s < Power(256, 32))
            && (|raw.value| == 64 ==> Value(raw.value[..32]) == r && Value(raw.value[32..]) == s)
  {
    hide MinimalInteger, Fit, RawSignature, Power, Value, IntegerPair;
    ShortSignature(r, s);
    var a, b := Fit(MinimalInteger(r), 32), Fit(MinimalInteger(s), 32);
    FitLength(MinimalInteger(r), 32);
    FitLength(MinimalInteger(s), 32);
    FitKeepsValue(MinimalInteger(r), 32);
    FitKeepsValue(MinimalInteger(s), 32);
    MinimalIntegerValue(r);
    MinimalIntegerValue(s);
    if |a + b| == 64 {
      assert (a + b)[..32] == a && (a + b)[32..] == b;
    }
  }

  /** A component that fits in k octets needs at most k + 1 in DER. */
  lemma IntegerSize(n: nat, k: nat)
    requires n < Power(256, k)
    ensures |MinimalInteger(n)| <= k + 1
  {
    hide Digits;
    var d := Digits(n, 256);
    if |d| > k {
      ValueOfDigits(n, 256);
      AtLeast(d);
      PowerMonotone(k, |d| - 1);
    }
  }

  /** Every P-256 signature converts to exactly 64 octets whose halves have the values r and s. */
  lemma P256Signature(r: nat, s: nat)
    requires r < Power(256, 32) && s < Power(256, 32)
    ensures var raw := RawSignature(DerSignature(r, s), 32);
            && raw.Some? && |raw.value| == 64
            && Value(raw.value[..32]) == r && Value(raw.value[32..]) == s
  {
    hide MinimalInteger, RawSignature, Power, Value;
    IntegerSize(r, 32);
    IntegerSize(s, 32);
    ShortTlv(0x02, MinimalInteger(r));
    ShortTlv(0x02, MinimalInteger(s));
    RawSignatureExact(r, s);
  }
}

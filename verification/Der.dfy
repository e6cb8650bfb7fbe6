/**
 DER encoding (plugins/cert-letsencrypt-dns01/src/der.ts) against a strict reference decoder
 (sections 8.1.3, 8.19 and 10.1 of X.690).
 */
module Der {
  import opened Options
  import opened Words

  type byte = b: int | 0 <= b < 256

  type Bytes = seq<byte>

  // ---------- big-endian digits ----------

  /** The value of a digit sequence in base `b`. */
  function ValueOf(s: Bytes, b: nat): nat {
    if s == [] then 0 else ValueOf(s[..|s| - 1], b) * b + s[|s| - 1]
  }

  /** The digits of `n` in base `b`, without leading zeros; none for 0. */
  function Digits(n: nat, b: nat): (s: Bytes)
    requires 2 <= b <= 256
    ensures forall i :: 0 <= i < |s| ==> s[i] < b
    ensures n == 0 <==> s == []
    ensures s != [] ==> s[0] > 0
  {
    if n == 0 then [] else Digits(Quotient(n, b), b) + [Remainder(n, b)]
  }

  lemma ValueOfSnoc(s: Bytes, d: byte, b: nat)
    ensures ValueOf(s + [d], b) == ValueOf(s, b) * b + d
  {
    assert (s + [d])[..|s|] == s;
  }

  lemma {:induction false} ValueOfDigits(n: nat, b: nat)
    requires 2 <= b <= 256
    ensures ValueOf(Digits(n, b), b) == n
  {
    if n > 0 {
      hide ValueOf, Digits, Quotient, Remainder;
      ValueOfDigits(Quotient(n, b), b);
      Unfold(n, b);
      ValueOfSnoc(Digits(Quotient(n, b), b), Remainder(n, b), b);
      Parts(n, b);
    } else {
      assert Digits(0, b) == [];
    }
  }

  lemma Unfold(n: nat, b: nat)
    requires 2 <= b <= 256 && n > 0
    ensures Digits(n, b) == Digits(Quotient(n, b), b) + [Remainder(n, b)]
  {
    hide Quotient, Remainder;
  }

  lemma Parts(n: nat, b: nat)
    requires 2 <= b
    ensures Quotient(n, b) == n / b && Remainder(n, b) == n % b
    ensures Quotient(n, b) * b + Remainder(n, b) == n
  {
  }

  lemma Octet(n: nat)
    requires n > 0
    ensures Digits(n, 256) == Digits(n / 256, 256) + [n % 256]
  {
    hide Digits, Quotient, Remainder;
    Unfold(n, 256);
    Parts(n, 256);
  }

  lemma Septet(n: nat)
    requires n > 0
    ensures Digits(n, 128) == Digits(n / 128, 128) + [n % 128]
  {
    hide Digits, Quotient, Remainder;
    Unfold(n, 128);
    Parts(n, 128);
  }

  lemma DigitsStep(q: nat, r: byte, b: nat)
    requires 2 <= b <= 256 && r < b && q + r > 0
    ensures Digits(q * b + r, b) == Digits(q, b) + [r]
  {
    NotBelow(q, b);
    Unfold(q * b + r, b);
    ModUnique(q * b + r, b, q, r);
    hide Digits;
  }

  /** Digits without a leading zero are the digits of their value. */
  lemma {:induction false} DigitsOfValue(s: Bytes, b: nat)
    requires 2 <= b <= 256 && (forall i :: 0 <= i < |s| ==> s[i] < b) && (s != [] ==> s[0] > 0)
    ensures Digits(ValueOf(s, b), b) == s
  {
    if s != [] {
      var front, last := s[..|s| - 1], s[|s| - 1];
      DigitsOfValue(front, b);
      assert s == front + [last];
      assert front == [] ==> last == s[0];
      ValueOfSnoc(front, last, b);
      hide ValueOf, Digits;
      assert front != [] ==> ValueOf(front, b) > 0;
      DigitsStep(ValueOf(front, b), last, b);
    }
  }

  lemma NotBelow(q: nat, b: nat)
    requires b > 0
    ensures q * b >= q
  {
  }

  /** A number below 2^32 has at most four octets. */
  lemma FourOctets(n: nat)
    requires n < TWO32
    ensures |Digits(n, 256)| <= 4
  {
    assert n / 256 < 0x100_0000 && n / 256 / 256 < 0x1_0000 && n / 256 / 256 / 256 < 0x100 && n / 256 / 256 / 256 / 256 == 0;
    assert |Digits(n / 256 / 256 / 256, 256)| <= 1;
    assert |Digits(n / 256 / 256, 256)| <= 2;
    assert |Digits(n / 256, 256)| <= 3;
  }

  // ---------- lengths ----------

  /** `n >>> 0` */
  function Low(n: nat): (r: nat)
    ensures r < TWO32
    ensures r == n <==> n < TWO32
    ensures r <= n
  {
    n % TWO32
  }

  /** The octets of a long length. The shift drops everything above 32 bits. */
  function LengthOctets(len: nat): (s: Bytes)
    ensures 1 <= |s| <= 4
  {
    TopOctets(Low(len));
    Digits(Low(len) / 256, 256) + [len % 256]
  }

  lemma TopOctets(n: nat)
    requires n < TWO32
    ensures |Digits(n / 256, 256)| <= 3
  {
    if n >= 256 {
      FourOctets(n);
    }
  }

  function LengthField(len: nat): Bytes {
    if len < 0x80 then [len] else [0x80 + |LengthOctets(len)|] + LengthOctets(len)
  }

  method EncodeLength(len: nat) returns (r: Bytes)
    ensures r == LengthField(len)
  {
    if len < 0x80 {
      return [len];
    }
    hide Digits, Low;
    var bytes: Bytes := [];
    var n: nat := len;
    while n > 0
      invariant bytes == [] ==> n == len
      invariant bytes != [] ==> n < TWO32 && Digits(n, 256) + bytes == LengthOctets(len)
      decreases n
    {
      if bytes != [] {
        Octet(n);
        assert Digits(n, 256) + bytes == Digits(n / 256, 256) + ([n % 256] + bytes);
      }
      bytes := [n % 256] + bytes;
      n := Low(n) / 256;
    }
    assert Digits(n, 256) + bytes == bytes;
    r := [0x80 + |bytes|] + bytes;
  }

  datatype Length = Length(len: nat, rest: Bytes)

  /** Section 10.1 of X.690: definite, with the fewest octets. */
  function DecodeLength(s: Bytes): Option<Length> {
    if s == [] then None
    else if s[0] < 0x80 then Some(Length(s[0], s[1..]))
    else
      var k := s[0] - 0x80;
      if k == 0 || k == 127 || |s| < 1 + k || s[1] == 0 then None
      else
        var v := ValueOf(s[1..1 + k], 256);
        if v < 0x80 then None else Some(Length(v, s[1 + k..]))
  }

  lemma LowOctet(len: nat)
    ensures Low(len) % 256 == len % 256
    ensures Low(len) / 256 * 256 + len % 256 == Low(len)
  {
  }

  lemma LengthOctetsValue(len: nat)
    ensures ValueOf(LengthOctets(len), 256) == Low(len)
  {
    LowOctet(len);
    var q := Low(len) / 256;
    ValueOfDigits(q, 256);
    hide ValueOf, Digits;
    ValueOfSnoc(Digits(q, 256), len % 256, 256);
  }

  /** The strict decoder reads a length back exactly when it fits in 32 bits. */
  lemma LengthRoundTrip(len: nat, rest: Bytes)
    ensures DecodeLength(LengthField(len) + rest) == Some(Length(len, rest)) <==> len < TWO32
  {
    hide Digits, ValueOf;
    var s := LengthField(len) + rest;
    if len < 0x80 {
      assert s[1..] == rest;
    } else {
      var o := LengthOctets(len);
      assert s[1..1 + |o|] == o && s[1 + |o|..] == rest && s[1] == o[0];
      LengthOctetsValue(len);
    }
  }

  /** Section 8.1.3 of X.690: one octet below 128, or the number of octets with the top bit set and the octets themselves, the first of them not zero. */
  lemma LengthForm(len: nat)
    requires len < TWO32
    ensures var f := LengthField(len);
            if len < 128 then f == [len]
            else 2 <= |f| <= 5 && f[0] == 128 + (|f| - 1) && f[1] > 0 && ValueOf(f[1..], 256) == len
  {
    hide Digits, ValueOf;
    if len >= 128 {
      LengthOctetsValue(len);
      DigitsUnfold(len);
      assert LengthField(len)[1..] == LengthOctets(len);
    }
  }

  /** Whatever length below 2^32 the strict decoder reads was written the only way `LengthField` writes it. */
  lemma LengthUnique(s: Bytes)
    requires DecodeLength(s).Some? && DecodeLength(s).value.len < TWO32
    ensures s == LengthField(DecodeLength(s).value.len) + DecodeLength(s).value.rest
  {
    hide ValueOf;
    if s[0] >= 0x80 {
      var o := s[1..1 + s[0] - 0x80];
      DigitsOfValue(o, 256);
      var len := ValueOf(o, 256);
      DigitsUnfold(len);
      assert s == [s[0]] + o + s[1 + |o|..];
    }
  }

  lemma DigitsUnfold(len: nat)
    requires 0 < len < TWO32
    ensures LengthOctets(len) == Digits(len, 256)
  {
    hide Digits, Low;
    Octet(len);
  }

  // ---------- tag, length, value ----------

  function Tlv(tag: byte, content: Bytes): Bytes { [tag] + LengthField(|content|) + content }

  lemma Longer(tag: byte, content: Bytes)
    ensures |Tlv(tag, content)| > |content|
  {
    hide Digits;
  }

  datatype Element = Element(tag: byte, content: Bytes)

  datatype Read = Read(element: Element, rest: Bytes)

  /** Reads one element with a one-octet identifier. */
  function DecodeTlv(s: Bytes): Option<Read> {
    if s == [] then None else
      var l := DecodeLength(s[1..]);
      if l.None? || |l.value.rest| < l.value.len then None
      else Some(Read(Element(s[0], l.value.rest[..l.value.len]), l.value.rest[l.value.len..]))
  }

  /** Tag, content and what follows are all recovered, exactly when the content has fewer than 2^32 octets. */
  lemma TlvRoundTrip(tag: byte, content: Bytes, rest: Bytes)
    ensures DecodeTlv(Tlv(tag, content) + rest) == Some(Read(Element(tag, content), rest)) <==> |content| < TWO32
  {
    hide LengthField, DecodeLength;
    var s := Tlv(tag, content) + rest;
    assert s[1..] == LengthField(|content|) + (content + rest);
    LengthRoundTrip(|content|, content + rest);
    if |content| < TWO32 {
      assert (content + rest)[..|content|] == content && (content + rest)[|content|..] == rest;
    } else {
      LongReadsShort(|content|, content + rest);
    }
  }

  /** A length of 2^32 or more is either refused or read too small. */
  lemma LongReadsShort(len: nat, rest: Bytes)
    requires len >= TWO32
    ensures var l := DecodeLength(LengthField(len) + rest); l.None? || l.value.len < len
  {
    hide Digits, ValueOf;
    var s := LengthField(len) + rest;
    var o := LengthOctets(len);
    assert s[1..1 + |o|] == o && s[1] == o[0];
    LengthOctetsValue(len);
  }

  /** An accepted element shorter than 2^32 octets has only this one encoding. */
  lemma TlvUnique(s: Bytes)
    requires DecodeTlv(s).Some? && |DecodeTlv(s).value.element.content| < TWO32
    ensures var r := DecodeTlv(s).value; s == Tlv(r.element.tag, r.element.content) + r.rest
  {
    hide LengthField, DecodeLength;
    LengthUnique(s[1..]);
    var r := DecodeTlv(s).value;
    var l := DecodeLength(s[1..]).value;
    var tag, content := r.element.tag, r.element.content;
    assert l.rest == content + r.rest && l.len == |content| && tag == s[0];
    hide DecodeTlv;
    assert s[1..] == LengthField(|content|) + (content + r.rest);
    assert s == [tag] + s[1..];
  }

  // ---------- object identifiers ----------

  /** Base-128 digits with the continuation bit set. */
  function Marked(d: Bytes): (s: Bytes)
    requires forall i :: 0 <= i < |d| ==> d[i] < 128
    ensures |s| == |d| && forall i :: 0 <= i < |s| ==> s[i] == d[i] + 128
  {
    if d == [] then [] else Marked(d[..|d| - 1]) + [d[|d| - 1] + 128]
  }

  function ArcOctets(part: nat): Bytes {
    if part < 0x80 then [part] else Marked(Digits(Low(part) / 128, 128)) + [part % 128]
  }

  function ArcsOctets(parts: seq<nat>): Bytes { if parts == [] then [] else ArcOctets(parts[0]) + ArcsOctets(parts[1..]) }

  /** The content of the OBJECT IDENTIFIER; a buffer keeps the low octet of the first number. */
  function OidContent(arcs: seq<nat>): Bytes
    requires |arcs| >= 2
  {
    [(arcs[0] * 40 + arcs[1]) % 256] + ArcsOctets(arcs[2..])
  }

  method EncodeArc(part: nat) returns (chunk: Bytes)
    requires part >= 0x80
    ensures chunk == ArcOctets(part)
  {
    hide Digits, Marked;
    chunk := [part % 128];
    var n: nat := Low(part) / 128;
    while n > 0
      invariant n < TWO32
      invariant Marked(Digits(n, 128)) + chunk == ArcOctets(part)
      decreases n
    {
      MarkedStep(n);
      assert Marked(Digits(n, 128)) + chunk == Marked(Digits(n / 128, 128)) + ([n % 128 + 128] + chunk);
      chunk := [n % 128 + 128] + chunk;
      n := Low(n) / 128;
    }
    assert Marked(Digits(n, 128)) + chunk == chunk;
  }

  lemma SmallArc(part: byte)
    requires part < 0x80
    ensures ArcOctets(part) == [part]
  {
  }

  method EncodeOid(arcs: seq<nat>) returns (r: Bytes)
    requires |arcs| >= 2
    ensures r == Tlv(0x06, OidContent(arcs))
  {
    hide LengthField, ArcOctets;
    var parts := arcs[2..];
    var bytes: Bytes := [(arcs[0] * 40 + arcs[1]) % 256];
    for i := 0 to |parts|
      invariant bytes + ArcsOctets(parts[i..]) == OidContent(arcs)
    {
      var part, chunk := parts[i], [];
      if part < 0x80 {
        chunk := [part];
        SmallArc(part);
      } else {
        chunk := EncodeArc(part);
      }
      assert parts[i..][1..] == parts[i + 1..];
      assert bytes + ArcsOctets(parts[i..]) == (bytes + chunk) + ArcsOctets(parts[i + 1..]);
      bytes := bytes + chunk;
    }
    assert bytes + ArcsOctets(parts[|parts|..]) == bytes;
    var length := EncodeLength(|bytes|);
    r := [0x06] + length + bytes;
  }

  lemma MarkedStep(n: nat)
    requires n > 0
    ensures Marked(Digits(n, 128)) == Marked(Digits(n / 128, 128)) + [n % 128 + 128]
  {
    hide Digits;
    Septet(n);
    var d := Digits(n, 128);
    assert d[..|d| - 1] == Digits(n / 128, 128);
  }

  /** Section 8.19.2 of X.690: base 128, last octet below 128, no leading 0x80; `inside` means an octet of the number was read. */
  function ReadArcs(s: Bytes, acc: nat, inside: bool): Option<seq<nat>> {
    if s == [] then (if inside then None else Some([]))
    else if s[0] >= 128 then
      if !inside && s[0] == 128 then None else ReadArcs(s[1..], acc * 128 + (s[0] - 128), true)
    else
      var r := ReadArcs(s[1..], 0, false);
      if r.None? then None else Some([acc * 128 + s[0]] + r.value)
  }

  /** Section 8.19.4 of X.690: the first number holds the first two arcs. */
  function SplitFirst(x: nat): seq<nat> { if x < 40 then [0, x] else if x < 80 then [1, x - 40] else [2, x - 80] }

  function DecodeOidContent(s: Bytes): Option<seq<nat>> {
    var r := ReadArcs(s, 0, false);
    if r.None? || r.value == [] then None else Some(SplitFirst(r.value[0]) + r.value[1..])
  }

  lemma ReadMarked(s: Bytes, acc: nat, inside: bool, c: byte)
    requires c >= 128 && (!inside ==> c > 128)
    ensures ReadArcs([c] + s, acc, inside) == ReadArcs(s, acc * 128 + (c - 128), true)
  {
    assert ([c] + s)[1..] == s;
  }

  lemma ReadLast(s: Bytes, acc: nat, inside: bool, c: byte)
    requires c < 128
    ensures var r := ReadArcs(s, 0, false);
            ReadArcs([c] + s, acc, inside) == (if r.None? then None else Some([acc * 128 + c] + r.value))
  {
    assert ([c] + s)[1..] == s;
  }

  lemma {:induction false} ReadDigits(d: Bytes, rest: Bytes)
    requires forall i :: 0 <= i < |d| ==> d[i] < 128
    requires d != [] ==> d[0] > 0
    ensures ReadArcs(Marked(d) + rest, 0, false) == ReadArcs(rest, ValueOf(d, 128), d != [])
  {
    hide ReadArcs;
    if d == [] {
      assert Marked(d) + rest == rest;
    } else {
      var front, last := d[..|d| - 1], d[|d| - 1];
      assert front == [] ==> last == d[0];
      ReadDigits(front, [last + 128] + rest);
      assert Marked(d) + rest == Marked(front) + ([last + 128] + rest);
      ReadMarked(rest, ValueOf(front, 128), front != [], last + 128);
    }
  }

  lemma LowSeptet(part: nat)
    ensures Low(part) / 128 * 128 + part % 128 == Low(part)
  {
  }

  /** One arc is read back modulo 2^32. */
  lemma ReadArc(part: nat, rest: Bytes)
    ensures var r := ReadArcs(rest, 0, false);
            ReadArcs(ArcOctets(part) + rest, 0, false) == (if r.None? then None else Some([Low(part)] + r.value))
  {
    hide ReadArcs, ValueOf, Digits, Marked;
    if part < 0x80 {
      ReadLast(rest, 0, false, part);
    } else {
      var q := Low(part) / 128;
      var d := Digits(q, 128);
      assert ArcOctets(part) + rest == Marked(d) + ([part % 128] + rest);
      ReadDigits(d, [part % 128] + rest);
      ValueOfDigits(q, 128);
      ReadLast(rest, q, d != [], part % 128);
      LowSeptet(part);
    }
  }

  function Low32(parts: seq<nat>): (r: seq<nat>)
    ensures |r| == |parts| && forall i :: 0 <= i < |r| ==> r[i] == Low(parts[i])
  {
    if parts == [] then [] else [Low(parts[0])] + Low32(parts[1..])
  }

  lemma {:induction false} ReadAllArcs(parts: seq<nat>)
    ensures ReadArcs(ArcsOctets(parts), 0, false) == Some(Low32(parts))
  {
    if parts != [] {
      hide ReadArcs;
      ReadAllArcs(parts[1..]);
      ReadArc(parts[0], ArcsOctets(parts[1..]));
    }
  }

  /** Every number read ends in one octet below 128. */
  function LastOctets(s: Bytes): nat { if s == [] then 0 else (if s[0] < 128 then 1 else 0) + LastOctets(s[1..]) }

  lemma {:induction false} CountArcs(s: Bytes, acc: nat, inside: bool)
    ensures var r := ReadArcs(s, acc, inside); r.Some? ==> |r.value| == LastOctets(s)
    decreases s
  {
    if s != [] {
      if s[0] >= 128 {
        CountArcs(s[1..], acc * 128 + (s[0] - 128), true);
      } else {
        CountArcs(s[1..], 0, false);
      }
    }
  }

  /** What the encoder assumes of its caller: the first two arcs fit one octet below 128, the others 32 bits. */
  predicate EncodableArcs(arcs: seq<nat>) {
    && |arcs| >= 2 && arcs[0] <= 2 && (arcs[0] < 2 ==> arcs[1] < 40) && arcs[0] * 40 + arcs[1] < 128
    && forall i :: 2 <= i < |arcs| ==> arcs[i] < TWO32
  }

  /** An identifier survives encoding exactly when its arcs fit. */
  lemma OidRoundTrip(arcs: seq<nat>)
    requires |arcs| >= 2
    ensures DecodeOidContent(OidContent(arcs)) == Some(arcs) <==> EncodableArcs(arcs)
  {
    hide ReadArcs;
    var first := (arcs[0] * 40 + arcs[1]) % 256;
    var tail := ArcsOctets(arcs[2..]);
    ReadAllArcs(arcs[2..]);
    if first < 128 {
      ReadLast(tail, 0, false, first);
      OidReadBack(arcs, first);
    } else {
      CountArcs(tail, 0, false);
      CountArcs([first] + tail, 0, false);
      assert ([first] + tail)[1..] == tail;
    }
  }

  /** The identifiers of extensionRequest, subjectAltName and ecdsa-with-SHA256, octet by octet. */
  lemma KnownOctets()
    ensures OidContent([1, 2, 840, 113549, 1, 9, 14]) == [0x2A, 0x86, 0x48, 0x86, 0xF7, 0x0D, 0x01, 0x09, 0x0E]
    ensures OidContent([2, 5, 29, 17]) == [0x55, 0x1D, 0x11]
    ensures OidContent([1, 2, 840, 10045, 4, 3, 2]) == [0x2A, 0x86, 0x48, 0xCE, 0x3D, 0x04, 0x03, 0x02]
  {
    hide ArcsOctets;
    KnownArcs();
    assert [1, 2, 840, 113549, 1, 9, 14][2..] == [840, 113549, 1, 9, 14];
    assert [1, 2, 840, 10045, 4, 3, 2][2..] == [840, 10045, 4, 3, 2];
    assert [2, 5, 29, 17][2..] == [29, 17];
  }

  lemma KnownArcs()
    ensures ArcsOctets([840, 113549, 1, 9, 14]) == [0x86, 0x48, 0x86, 0xF7, 0x0D, 0x01, 0x09, 0x0E]
    ensures ArcsOctets([29, 17]) == [0x1D, 0x11]
    ensures ArcsOctets([840, 10045, 4, 3, 2]) == [0x86, 0x48, 0xCE, 0x3D, 0x04, 0x03, 0x02]
  {
    hide ArcsOctets, ArcOctets;
    TwoSeptets(840);
    TwoSeptets(10045);
    ThreeSeptets();
    SmallTail([29, 17]);
    SmallTail([1, 9, 14]);
    SmallTail([4, 3, 2]);
    FirstArc(113549, [1, 9, 14]);
    FirstArc(10045, [4, 3, 2]);
    FirstArc(840, [113549, 1, 9, 14]);
    FirstArc(840, [10045, 4, 3, 2]);
    assert [113549] + [1, 9, 14] == [113549, 1, 9, 14] && [10045] + [4, 3, 2] == [10045, 4, 3, 2];
    assert [840] + [113549, 1, 9, 14] == [840, 113549, 1, 9, 14] && [840] + [10045, 4, 3, 2] == [840, 10045, 4, 3, 2];
  }

  lemma TwoSeptets(part: nat)
    requires 128 <= part < 16384
    ensures ArcOctets(part) == [part / 128 + 128, part % 128]
  {
    hide Digits, Marked;
    MarkedStep(part / 128);
    NoSeptets();
  }

  lemma ThreeSeptets()
    ensures ArcOctets(113549) == [0x86, 0xF7, 0x0D]
  {
    hide Digits, Marked;
    MarkedStep(887);
    MarkedStep(6);
    NoSeptets();
    assert Low(113549) / 128 == 887 && 887 / 128 == 6;
  }

  lemma NoSeptets()
    ensures Marked(Digits(0, 128)) == []
  {
  }

  lemma FirstArc(part: nat, rest: seq<nat>)
    ensures ArcsOctets([part] + rest) == ArcOctets(part) + ArcsOctets(rest)
  {
    hide ArcOctets;
    assert ([part] + rest)[1..] == rest;
  }

  lemma {:induction false} SmallTail(parts: Bytes)
    requires forall i :: 0 <= i < |parts| ==> parts[i] < 128
    ensures ArcsOctets(parts) == parts
  {
    if parts != [] {
      SmallTail(parts[1..]);
    }
  }

  lemma OidReadBack(arcs: seq<nat>, first: nat)
    requires |arcs| >= 2 && first == (arcs[0] * 40 + arcs[1]) % 256 < 128
    ensures SplitFirst(first) + Low32(arcs[2..]) == arcs <==> EncodableArcs(arcs)
  {
    var s := SplitFirst(first) + Low32(arcs[2..]);
    assert forall i :: 2 <= i < |arcs| ==> s[i] == Low(arcs[i]);
    if EncodableArcs(arcs) {
      assert SplitFirst(first) == arcs[..2];
      assert s == arcs;
    }
  }
}

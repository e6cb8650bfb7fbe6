/**
 The certificate signing request (plugins/cert-letsencrypt-dns01/src/csr.ts, section 4.1 of RFC 2986) and a reader for it.
 */
module Csr {
  import opened Options
  import opened Words
  import opened Der

  /** A JavaScript string: UTF-16 code units. */
  type Unit = u: int | 0 <= u < 0x1_0000

  type Text = seq<Unit>

  // ---------- building ----------

  /** `Buffer.from(n, "ascii")` keeps the low octet of every code unit. */
  function Ascii(s: Text): (r: Bytes)
    ensures |r| == |s| && forall i :: 0 <= i < |r| ==> r[i] == s[i] % 256
  {
    seq(|s|, i requires 0 <= i < |s| => s[i] % 256)
  }

  function Sequence(content: Bytes): Bytes { Tlv(0x30, content) }

  function GeneralNames(names: seq<Text>): Bytes {
    if names == [] then [] else Tlv(0x82, Ascii(names[0])) + GeneralNames(names[1..])
  }

  function SanExtensionValue(names: seq<Text>): Bytes { Sequence(GeneralNames(names)) }

  const EXTENSION_REQUEST: seq<nat> := [1, 2, 840, 113549, 1, 9, 14]
  const SUBJECT_ALT_NAME: seq<nat> := [2, 5, 29, 17]
  const ECDSA_WITH_SHA256: seq<nat> := [1, 2, 840, 10045, 4, 3, 2]

  function Oid(arcs: seq<nat>): Bytes
    requires |arcs| >= 2
  {
    Tlv(0x06, OidContent(arcs))
  }

  function SanExtension(names: seq<Text>): Bytes { Sequence(Oid(SUBJECT_ALT_NAME) + Tlv(0x04, SanExtensionValue(names))) }

  function ExtensionRequest(names: seq<Text>): Bytes {
    Sequence(Oid(EXTENSION_REQUEST) + Tlv(0x31, Sequence(SanExtension(names))))
  }

  function RequestContent(publicKeyDer: Bytes, names: seq<Text>): Bytes {
    Tlv(0x02, [0]) + Sequence([]) + publicKeyDer + Tlv(0xa0, ExtensionRequest(names))
  }

  function CertificationRequestInfo(publicKeyDer: Bytes, names: seq<Text>): Bytes { Sequence(RequestContent(publicKeyDer, names)) }

  function CsrContent(info: Bytes, signature: Bytes): Bytes {
    info + Sequence(Oid(ECDSA_WITH_SHA256)) + Tlv(0x03, [0] + signature)
  }

  /** `generateCsr`: the signature is computed over the encoded request info. */
  function GenerateCsr(publicKeyDer: Bytes, names: seq<Text>, sign: Bytes -> Bytes): Bytes {
    var info := CertificationRequestInfo(publicKeyDer, names);
    Sequence(CsrContent(info, sign(info)))
  }

  // ---------- reading ----------

  lemma RestIsShorter(s: Bytes)
    requires DecodeTlv(s).Some?
    ensures |DecodeTlv(s).value.rest| < |s|
  {
    hide ValueOf;
  }

  function Elements(s: Bytes): Option<seq<Element>>
    decreases |s|
  {
    if s == [] then Some([]) else
      var e := DecodeTlv(s);
      if e.None? then None else
        RestIsShorter(s);
        var r := Elements(e.value.rest);
        if r.None? then None else Some([e.value.element] + r.value)
  }

  /** The content of the only element in `s`, which must carry the given tag. */
  function Only(s: Bytes, tag: byte): Option<Bytes> {
    var e := DecodeTlv(s);
    if e.Some? && e.value.rest == [] && e.value.element.tag == tag then Some(e.value.element.content) else None
  }

  predicate IsOid(e: Element, arcs: seq<nat>) { e.tag == 0x06 && DecodeOidContent(e.content) == Some(arcs) }

  function NamesOf(elements: seq<Element>): Option<seq<Text>> {
    if elements == [] then Some([]) else
      var r := NamesOf(elements[1..]);
      if elements[0].tag != 0x82 || r.None? then None else Some([elements[0].content] + r.value)
  }

  function ReadSanValue(s: Bytes): Option<seq<Text>> {
    var c := Only(s, 0x30);
    if c.None? then None else
      var e := Elements(c.value);
      if e.None? then None else NamesOf(e.value)
  }

  /** The content of the second element of a SEQUENCE whose first is the given identifier. */
  function Tagged(s: Bytes, arcs: seq<nat>, tag: byte): Option<Bytes> {
    var c := Only(s, 0x30);
    if c.None? then None else
      var e := Elements(c.value);
      if e.None? || |e.value| != 2 || !IsOid(e.value[0], arcs) || e.value[1].tag != tag then None
      else Some(e.value[1].content)
  }

  function ReadExtensionRequest(s: Bytes): Option<seq<Text>> {
    var a := Tagged(s, [1, 2, 840, 113549, 1, 9, 14], 0x31);
    if a.None? then None else
      var x := Only(a.value, 0x30);
      if x.None? then None else
        var v := Tagged(x.value, [2, 5, 29, 17], 0x04);
        if v.None? then None else ReadSanValue(v.value)
  }

  datatype Request = Request(publicKey: Bytes, names: seq<Text>)

  function ReadRequestContent(s: Bytes): Option<Request> {
    var e := Elements(s);
    if e.None? || |e.value| != 4 || e.value[0] != Element(0x02, [0]) || e.value[1] != Element(0x30, [])
      || e.value[2].tag != 0x30 || e.value[3].tag != 0xa0
    then None
    else
      var names := ReadExtensionRequest(e.value[3].content);
      if names.None? then None else Some(Request(e.value[2].content, names.value))
  }

  function ReadRequest(s: Bytes): Option<Request> {
    var c := Only(s, 0x30);
    if c.None? then None else ReadRequestContent(c.value)
  }

  datatype SignedRequest = SignedRequest(request: Request, signature: Bytes)

  function ReadCsr(s: Bytes): Option<SignedRequest> {
    var c := Only(s, 0x30);
    if c.None? then None else
      var e := Elements(c.value);
      if e.None? || |e.value| != 3 || e.value[0].tag != 0x30 || e.value[1].tag != 0x30 || e.value[2].tag != 0x03
        || |e.value[2].content| == 0 || e.value[2].content[0] != 0
      then None
      else
        var a := Elements(e.value[1].content);
        var r := ReadRequestContent(e.value[0].content);
        if a.None? || |a.value| != 1 || !IsOid(a.value[0], [1, 2, 840, 10045, 4, 3, 2]) || r.None? then None
        else Some(SignedRequest(r.value, e.value[2].content[1..]))
  }

  // ---------- round trip ----------

  lemma ReadOne(tag: byte, content: Bytes, rest: Bytes)
    requires |content| < TWO32
    ensures var r := Elements(rest);
            Elements(Tlv(tag, content) + rest) == (if r.None? then None else Some([Element(tag, content)] + r.value))
  {
    hide DecodeTlv, LengthField;
    TlvRoundTrip(tag, content, rest);
  }

  lemma ReadLone(tag: byte, content: Bytes)
    requires |content| < TWO32
    ensures Elements(Tlv(tag, content)) == Some([Element(tag, content)])
  {
    hide DecodeTlv, Tlv;
    ReadOne(tag, content, []);
    assert Tlv(tag, content) + [] == Tlv(tag, content);
    assert [Element(tag, content)] + [] == [Element(tag, content)];
  }

  /** A single element is read back exactly when it is short enough. */
  lemma ReadOnly(tag: byte, content: Bytes)
    ensures Only(Tlv(tag, content), tag) == (if |content| < TWO32 then Some(content) else None)
  {
    hide DecodeTlv, LengthField;
    assert Tlv(tag, content) + [] == Tlv(tag, content);
    TlvRoundTrip(tag, content, []);
    if |content| >= TWO32 {
      LongLeavesRest(tag, content);
    }
  }

  lemma LongLeavesRest(tag: byte, content: Bytes)
    requires |content| >= TWO32
    ensures DecodeTlv(Tlv(tag, content)).None? || DecodeTlv(Tlv(tag, content)).value.rest != []
  {
    hide DecodeLength, LengthField;
    var s := Tlv(tag, content);
    assert s[1..] == LengthField(|content|) + content;
    LongReadsShort(|content|, content);
    LongKeepsRest(|content|, content);
  }

  lemma LongKeepsRest(len: nat, rest: Bytes)
    requires len >= TWO32
    ensures var l := DecodeLength(LengthField(len) + rest); l.None? || |l.value.rest| == |rest|
  {
    hide Digits, ValueOf;
    var s := LengthField(len) + rest;
    var o := LengthOctets(len);
    assert s[1..1 + |o|] == o;
  }

  predicate Latin(names: seq<Text>) { forall i, j :: 0 <= i < |names| && 0 <= j < |names[i]| ==> names[i][j] < 256 }

  /** What comes back of the names: their low octets. */
  function LowOctets(names: seq<Text>): (r: seq<Text>)
    ensures |r| == |names| && forall i :: 0 <= i < |r| ==> r[i] == Ascii(names[i])
  {
    if names == [] then [] else [Ascii(names[0])] + LowOctets(names[1..])
  }

  lemma LatinExactly(names: seq<Text>)
    ensures LowOctets(names) == names <==> Latin(names)
  {
    if Latin(names) {
      forall i | 0 <= i < |names|
        ensures Ascii(names[i]) == names[i]
      {
      }
    }
  }

  lemma {:induction false} ReadNames(names: seq<Text>)
    requires |GeneralNames(names)| < TWO32
    ensures Elements(GeneralNames(names)).Some?
    ensures NamesOf(Elements(GeneralNames(names)).value) == Some(LowOctets(names))
  {
    if names != [] {
      hide Tlv, Elements;
      Longer(0x82, Ascii(names[0]));
      ReadNames(names[1..]);
      ReadOne(0x82, Ascii(names[0]), GeneralNames(names[1..]));
      var rest := Elements(GeneralNames(names[1..])).value;
      assert ([Element(0x82, Ascii(names[0]))] + rest)[1..] == rest;
    } else {
      assert Elements([]) == Some([]);
    }
  }

  lemma KnownOids()
    ensures EncodableArcs(EXTENSION_REQUEST) && EncodableArcs(SUBJECT_ALT_NAME) && EncodableArcs(ECDSA_WITH_SHA256)
  {
  }

  lemma ReadTagged(arcs: seq<nat>, tag: byte, content: Bytes)
    requires EncodableArcs(arcs) && |Oid(arcs) + Tlv(tag, content)| < TWO32
    ensures Tagged(Sequence(Oid(arcs) + Tlv(tag, content)), arcs, tag) == Some(content)
  {
    hide Tlv, Elements, Only, OidContent, DecodeOidContent;
    var c := Oid(arcs) + Tlv(tag, content);
    ReadOnly(0x30, c);
    Longer(0x06, OidContent(arcs));
    Longer(tag, content);
    OidRoundTrip(arcs);
    ReadLone(tag, content);
    ReadOne(0x06, OidContent(arcs), Tlv(tag, content));
  }

  lemma ReadExtensions(names: seq<Text>)
    requires |ExtensionRequest(names)| < TWO32
    ensures ReadExtensionRequest(ExtensionRequest(names)) == Some(LowOctets(names))
  {
    hide Tlv, Elements, Only, OidContent, Tagged, NamesOf;
    KnownOids();
    var value := SanExtensionValue(names);
    var inner := Oid(SUBJECT_ALT_NAME) + Tlv(0x04, value);
    var outer := Oid(EXTENSION_REQUEST) + Tlv(0x31, Sequence(SanExtension(names)));
    Longer(0x30, outer);
    Longer(0x31, Sequence(SanExtension(names)));
    Longer(0x30, SanExtension(names));
    Longer(0x30, inner);
    Longer(0x04, value);
    Longer(0x30, GeneralNames(names));
    ReadTagged(EXTENSION_REQUEST, 0x31, Sequence(SanExtension(names)));
    ReadOnly(0x30, SanExtension(names));
    ReadTagged(SUBJECT_ALT_NAME, 0x04, value);
    ReadOnly(0x30, GeneralNames(names));
    ReadNames(names);
  }

  lemma ReadFour(a: Element, b: Element, c: Element, d: Element)
    requires |a.content| < TWO32 && |b.content| < TWO32 && |c.content| < TWO32 && |d.content| < TWO32
    ensures Elements(Tlv(a.tag, a.content) + Tlv(b.tag, b.content) + Tlv(c.tag, c.content) + Tlv(d.tag, d.content))
         == Some([a, b, c, d])
  {
    hide Tlv, Elements;
    var x, y, z, w := Tlv(a.tag, a.content), Tlv(b.tag, b.content), Tlv(c.tag, c.content), Tlv(d.tag, d.content);
    ReadLone(d.tag, d.content);
    ReadOne(c.tag, c.content, w);
    ReadOne(b.tag, b.content, z + w);
    ReadOne(a.tag, a.content, y + (z + w));
    assert x + y + z + w == x + (y + (z + w));
    assert [c] + [d] == [c, d] && [b] + [c, d] == [b, c, d] && [a] + [b, c, d] == [a, b, c, d];
  }

  lemma ReadContent(key: Bytes, names: seq<Text>)
    requires |RequestContent(Tlv(0x30, key), names)| < TWO32
    ensures ReadRequestContent(RequestContent(Tlv(0x30, key), names)) == Some(Request(key, LowOctets(names)))
  {
    hide Tlv, Elements, ReadExtensionRequest, ExtensionRequest;
    Longer(0x30, key);
    Longer(0xa0, ExtensionRequest(names));
    ReadFour(Element(0x02, [0]), Element(0x30, []), Element(0x30, key), Element(0xa0, ExtensionRequest(names)));
    ReadExtensions(names);
  }

  /** The request info gives back the key and the exact list of names, exactly when it fits in 2^32 octets and no name needs more than an octet a unit. */
  lemma RequestRoundTrip(key: Bytes, names: seq<Text>)
    ensures ReadRequest(CertificationRequestInfo(Tlv(0x30, key), names)) == Some(Request(key, names))
       <==> |RequestContent(Tlv(0x30, key), names)| < TWO32 && Latin(names)
  {
    hide Tlv, RequestContent, ReadRequestContent, Only, Latin;
    var content := RequestContent(Tlv(0x30, key), names);
    ReadOnly(0x30, content);
    if |content| < TWO32 {
      ReadContent(key, names);
      LatinExactly(names);
    }
  }

  lemma SignedContent(info: Bytes, signature: Bytes)
    requires |CsrContent(Tlv(0x30, info), signature)| < TWO32
    ensures Elements(CsrContent(Tlv(0x30, info), signature))
         == Some([Element(0x30, info), Element(0x30, Oid(ECDSA_WITH_SHA256)), Element(0x03, [0] + signature)])
  {
    hide Tlv, Elements, Oid;
    var x, y, z := Tlv(0x30, info), Tlv(0x30, Oid(ECDSA_WITH_SHA256)), Tlv(0x03, [0] + signature);
    Longer(0x30, info);
    Longer(0x30, Oid(ECDSA_WITH_SHA256));
    Longer(0x03, [0] + signature);
    ReadLone(0x03, [0] + signature);
    ReadOne(0x30, Oid(ECDSA_WITH_SHA256), z);
    ReadOne(0x30, info, y + z);
    assert x + y + z == x + (y + z);
    var a, b, c := Element(0x30, info), Element(0x30, Oid(ECDSA_WITH_SHA256)), Element(0x03, [0] + signature);
    assert [b] + [c] == [b, c] && [a] + [b, c] == [a, b, c];
  }

  /** The whole signing request carries the key, the names and a signature over the very info it carries. */
  lemma CsrRoundTrip(key: Bytes, names: seq<Text>, sign: Bytes -> Bytes)
    requires Latin(names)
    requires var info := CertificationRequestInfo(Tlv(0x30, key), names); |CsrContent(info, sign(info))| < TWO32
    ensures ReadCsr(GenerateCsr(Tlv(0x30, key), names, sign))
         == Some(SignedRequest(Request(key, names), sign(CertificationRequestInfo(Tlv(0x30, key), names))))
  {
    hide Tlv, Elements, Only, RequestContent, ReadRequestContent, OidContent, DecodeOidContent, Latin;
    var content := RequestContent(Tlv(0x30, key), names);
    var info := Tlv(0x30, content);
    var signature := sign(info);
    var bits := [0] + signature;
    assert bits[1..] == signature;
    KnownOids();
    OidRoundTrip(ECDSA_WITH_SHA256);
    Longer(0x30, content);
    Longer(0x06, OidContent(ECDSA_WITH_SHA256));
    Longer(0x30, Oid(ECDSA_WITH_SHA256));
    ReadOnly(0x30, CsrContent(info, signature));
    SignedContent(content, signature);
    ReadLone(0x06, OidContent(ECDSA_WITH_SHA256));
    ReadContent(key, names);
    LatinExactly(names);
  }
}

/**
 Canonical JSON text (packages/core-schemas/src/canonical-json.ts): object keys sorted recursively, then the text of
 JSON.stringify. Assigning the key `__proto__` to a fresh object sets its prototype and leaves no member, so members of that
 name are lost at every depth: two values have the same canonical text exactly when, without those members, they differ in key
 order only. Numbers are integers.
 */
module CanonicalJson {
  import opened Sorting
  import opened Decimals

  datatype Json =
    | Null
    | Bool(b: bool)
    | Number(n: int)
    | Text(s: string)
    | Array(items: seq<Json>)
    | Object(fields: seq<Field>)

  datatype Field = Field(key: string, value: Json)

  // ---------- the text of a value ----------

  function HexDigit(d: nat): (c: char)
    requires d < 16
  {
    ['0', '1', '2', '3', '4', '5', '6', '7', '8', '9', 'a', 'b', 'c', 'd', 'e', 'f'][d]
  }

  function EscapeChar(c: char): string {
    if c == '"' then "\\\""
    else if c == '\\' then "\\\\"
    else if c >= ' ' then [c]
    else if c as int == 8 then "\\b"
    else if c as int == 9 then "\\t"
    else if c as int == 10 then "\\n"
    else if c as int == 12 then "\\f"
    else if c as int == 13 then "\\r"
    else "\\u00" + [HexDigit(c as int / 16), HexDigit(c as int % 16)]
  }

  function Escape(s: string): string { if s == "" then "" else EscapeChar(s[0]) + Escape(s[1..]) }

  function Quote(s: string): string { "\"" + (Escape(s) + "\"") }

  function Stringify(j: Json): string
    decreases j, 0
  {
    match j
    case Null => "null"
    case Bool(b) => if b then "true" else "false"
    case Number(n) => IntText(n)
    case Text(s) => Quote(s)
    case Array(items) => "[" + (ItemsText(items) + "]")
    case Object(fields) => "{" + (FieldsText(fields) + "}")
  }

  function ItemsText(items: seq<Json>): string
    decreases items, 1
  {
    if items == [] then ""
    else if |items| == 1 then Stringify(items[0])
    else Stringify(items[0]) + ("," + ItemsText(items[1..]))
  }

  function FieldText(f: Field): string
    decreases f, 1
  {
    Quote(f.key) + (":" + Stringify(f.value))
  }

  function FieldsText(fields: seq<Field>): string
    decreases fields, 1
  {
    if fields == [] then ""
    else if |fields| == 1 then FieldText(fields[0])
    else FieldText(fields[0]) + ("," + FieldsText(fields[1..]))
  }

  // ---------- unique reading ----------

  function HexValue(c: char): nat {
    if '0' <= c <= '9' then c as int - '0' as int else if 'a' <= c <= 'f' then c as int - 'a' as int + 10 else 0
  }

  /** The character an escape sequence at the start of `s` stands for, and its length. */
  function ReadChar(s: string): (char, nat)
    requires |s| >= 6 || (|s| >= 2 && s[1] != 'u') || (s != "" && s[0] != '\\')
  {
    if s[0] != '\\' then (s[0], 1)
    else if s[1] == 'b' then (8 as char, 2)
    else if s[1] == 't' then (9 as char, 2)
    else if s[1] == 'n' then (10 as char, 2)
    else if s[1] == 'f' then (12 as char, 2)
    else if s[1] == 'r' then (13 as char, 2)
    else if s[1] != 'u' then (s[1], 2)
    else ((16 * HexValue(s[4]) + HexValue(s[5])) as char, 6)
  }

  lemma ReadCharBack(c: char, u: string)
    ensures var s := EscapeChar(c) + u;
            && (|s| >= 6 || (|s| >= 2 && s[1] != 'u') || (s != "" && s[0] != '\\'))
            && ReadChar(s) == (c, |EscapeChar(c)|)
  {
    var e, s := EscapeChar(c), EscapeChar(c) + u;
    assert forall i :: 0 <= i < |e| ==> s[i] == e[i];
    if |e| == 6 {
      var h, l := c as int / 16, c as int % 16;
      assert HexValue(HexDigit(h)) == h && HexValue(HexDigit(l)) == l;
      assert e[4] == HexDigit(h) && e[5] == HexDigit(l);
    }
  }

  lemma ReadEscaped(c: char, d: char, u: string, v: string)
    requires EscapeChar(c) + u == EscapeChar(d) + v
    ensures c == d && u == v
  {
    hide EscapeChar, ReadChar;
    ReadCharBack(c, u);
    ReadCharBack(d, v);
    assert u == (EscapeChar(c) + u)[|EscapeChar(c)|..] && v == (EscapeChar(d) + v)[|EscapeChar(d)|..];
  }

  lemma EscapeCharNotQuote(c: char)
    ensures EscapeChar(c) != "" && EscapeChar(c)[0] != '"'
  {
  }

  lemma EscapeStart(s: string, x: string)
    ensures var r := Escape(s) + ("\"" + x);
            && r != "" && (r[0] == '"' <==> s == "")
            && (if s == "" then r[1..] == x else r == EscapeChar(s[0]) + (Escape(s[1..]) + ("\"" + x)))
  {
    hide EscapeChar;
    if s == "" {
      assert Escape(s) + ("\"" + x) == "\"" + x;
    } else {
      EscapeCharNotQuote(s[0]);
    }
  }

  lemma {:induction false} ReadQuoted(s: string, t: string, x: string, y: string)
    requires Escape(s) + ("\"" + x) == Escape(t) + ("\"" + y)
    ensures s == t && x == y
  {
    hide EscapeChar, Escape;
    EscapeStart(s, x);
    EscapeStart(t, y);
    if s != "" {
      ReadEscaped(s[0], t[0], Escape(s[1..]) + ("\"" + x), Escape(t[1..]) + ("\"" + y));
      ReadQuoted(s[1..], t[1..], x, y);
      assert s == [s[0]] + s[1..] && t == [t[0]] + t[1..];
    }
  }

  /** What may follow a value inside a text. */
  predicate Ends(x: string) { x == "" || x[0] == ',' || x[0] == ']' || x[0] == '}' }

  datatype Kind = NullKind | TrueKind | FalseKind | NumberKind | TextKind | ArrayKind | ObjectKind | NoKind

  function KindOf(j: Json): Kind {
    match j
    case Null => NullKind
    case Bool(b) => if b then TrueKind else FalseKind
    case Number(_) => NumberKind
    case Text(_) => TextKind
    case Array(_) => ArrayKind
    case Object(_) => ObjectKind
  }

  function KindOfChar(c: char): Kind {
    if c == 'n' then NullKind else if c == 't' then TrueKind else if c == 'f' then FalseKind
    else if c == '-' || IsDigit(c) then NumberKind else if c == '"' then TextKind
    else if c == '[' then ArrayKind else if c == '{' then ObjectKind else NoKind
  }

  lemma FirstChar(j: Json)
    ensures Stringify(j) != "" && KindOfChar(Stringify(j)[0]) == KindOf(j)
  {
    hide Value, Numeral, Escape, ItemsText, FieldsText;
    if j.Number? {
      SignShows(j.n, "");
      assert IntText(j.n) + "" == IntText(j.n);
      if j.n >= 0 {
        assert Numeral(j.n) + "" == Numeral(j.n);
        assert IsDigit(Numeral(j.n)[0]);
      }
    }
  }

  /** A value's text, followed by the end of the value, can be read in one way only. */
  lemma {:induction false} ReadValue(a: Json, b: Json, x: string, y: string)
    requires Stringify(a) + x == Stringify(b) + y && Ends(x) && Ends(y)
    ensures a == b && x == y
    decreases a, 0
  {
    hide Stringify, ItemsText, FieldsText, Escape, IntText;
    FirstChar(a);
    FirstChar(b);
    assert (Stringify(a) + x)[0] == Stringify(a)[0] && (Stringify(b) + y)[0] == Stringify(b)[0];
    assert KindOf(a) == KindOf(b);
    Shape(a, x);
    Shape(b, y);
    match a
    case Number(n) => ReadInt(n, b.n, x, y);
    case Text(s) => ReadQuoted(s, b.s, x, y);
    case Array(items) => ReadItems(items, b.items, x, y);
    case Object(fields) => ReadFields(fields, b.fields, x, y);
    case _ =>
  }

  /** The text of a value behind its first character. */
  lemma Shape(j: Json, x: string)
    ensures var s := Stringify(j) + x;
            match j
            case Null => |s| >= 4 && s[4..] == x
            case Bool(b) => if b then |s| >= 4 && s[4..] == x else |s| >= 5 && s[5..] == x
            case Number(n) => s == IntText(n) + x
            case Text(t) => s != "" && s[1..] == Escape(t) + ("\"" + x)
            case Array(items) => s != "" && s[1..] == ItemsText(items) + ("]" + x)
            case Object(fields) => s != "" && s[1..] == FieldsText(fields) + ("}" + x)
  {
    hide ItemsText, FieldsText, Escape, IntText;
  }

  lemma ItemsShape(items: seq<Json>, x: string)
    ensures var s := ItemsText(items) + ("]" + x);
            && s != "" && (s[0] == ']' <==> items == [])
            && (items == [] ==> s[1..] == x)
            && (|items| == 1 ==> s == Stringify(items[0]) + ("]" + x))
            && (|items| > 1 ==> s == Stringify(items[0]) + ("," + (ItemsText(items[1..]) + ("]" + x))))
  {
    hide Stringify, KindOfChar, KindOf;
    if items == [] {
      assert ItemsText(items) + ("]" + x) == "]" + x;
    } else {
      NotABracket(items[0]);
      if |items| > 1 {
        hide ItemsText;
        ItemsStep(items);
        Regroup(Stringify(items[0]), ",", ItemsText(items[1..]), "]" + x);
      }
    }
  }

  lemma ItemsStep(items: seq<Json>)
    requires |items| > 1
    ensures ItemsText(items) == Stringify(items[0]) + ("," + ItemsText(items[1..]))
  {
    hide Stringify;
  }

  lemma NotABracket(j: Json)
    ensures Stringify(j) != "" && Stringify(j)[0] != ']'
  {
    hide Stringify;
    FirstChar(j);
  }

  lemma Regroup(a: string, sep: string, b: string, c: string)
    ensures (a + (sep + b)) + c == a + (sep + (b + c))
  {
  }

  lemma {:induction false} ReadItems(a: seq<Json>, b: seq<Json>, x: string, y: string)
    requires ItemsText(a) + ("]" + x) == ItemsText(b) + ("]" + y)
    ensures a == b && x == y
    decreases a, 1
  {
    hide Stringify, ItemsText;
    ItemsShape(a, x);
    ItemsShape(b, y);
    if a != [] {
      var p := if |a| == 1 then "]" + x else "," + (ItemsText(a[1..]) + ("]" + x));
      var q := if |b| == 1 then "]" + y else "," + (ItemsText(b[1..]) + ("]" + y));
      ReadValue(a[0], b[0], p, q);
      assert p[1..] == if |a| == 1 then x else ItemsText(a[1..]) + ("]" + x);
      assert q[1..] == if |b| == 1 then y else ItemsText(b[1..]) + ("]" + y);
      if |a| > 1 {
        ReadItems(a[1..], b[1..], x, y);
      }
      assert a == [a[0]] + a[1..] && b == [b[0]] + b[1..];
    }
  }

  lemma FieldsShape(fields: seq<Field>, x: string)
    ensures var s := FieldsText(fields) + ("}" + x);
            && s != "" && (s[0] == '}' <==> fields == [])
            && (fields == [] ==> s[1..] == x)
            && (|fields| == 1 ==>
                s[1..] == Escape(fields[0].key) + ("\"" + (":" + (Stringify(fields[0].value) + ("}" + x)))))
            && (|fields| > 1 ==>
                s[1..] == Escape(fields[0].key) + ("\"" + (":" + (Stringify(fields[0].value) + ("," + (FieldsText(fields[1..]) + ("}" + x)))))))
  {
    hide Stringify, Escape, FieldsText;
    if fields == [] {
      FieldsStep(fields);
      assert FieldsText(fields) + ("}" + x) == "}" + x;
    } else {
      FieldsStep(fields);
      var f := fields[0];
      FieldTail(f, "}" + x);
      if |fields| > 1 {
        Regroup(FieldText(f), ",", FieldsText(fields[1..]), "}" + x);
        FieldTail(f, "," + (FieldsText(fields[1..]) + ("}" + x)));
      }
    }
  }

  lemma FieldsStep(fields: seq<Field>)
    ensures fields == [] ==> FieldsText(fields) == ""
    ensures |fields| == 1 ==> FieldsText(fields) == FieldText(fields[0])
    ensures |fields| > 1 ==> FieldsText(fields) == FieldText(fields[0]) + ("," + FieldsText(fields[1..]))
  {
    hide FieldText;
  }

  lemma FieldTail(f: Field, x: string)
    ensures var s := FieldText(f) + x;
            s != "" && s[0] == '"' && s[1..] == Escape(f.key) + ("\"" + (":" + (Stringify(f.value) + x)))
  {
    hide Stringify, Escape;
  }

  lemma {:induction false} ReadFields(a: seq<Field>, b: seq<Field>, x: string, y: string)
    requires FieldsText(a) + ("}" + x) == FieldsText(b) + ("}" + y)
    ensures a == b && x == y
    decreases a, 1
  {
    hide Stringify, FieldsText, Escape;
    FieldsShape(a, x);
    FieldsShape(b, y);
    if a != [] {
      var p := if |a| == 1 then "}" + x else "," + (FieldsText(a[1..]) + ("}" + x));
      var q := if |b| == 1 then "}" + y else "," + (FieldsText(b[1..]) + ("}" + y));
      var u, v := Stringify(a[0].value) + p, Stringify(b[0].value) + q;
      ReadQuoted(a[0].key, b[0].key, ":" + u, ":" + v);
      assert u == (":" + u)[1..] && v == (":" + v)[1..];
      ReadValue(a[0].value, b[0].value, p, q);
      assert p[1..] == if |a| == 1 then x else FieldsText(a[1..]) + ("}" + x);
      assert q[1..] == if |b| == 1 then y else FieldsText(b[1..]) + ("}" + y);
      if |a| > 1 {
        ReadFields(a[1..], b[1..], x, y);
      }
      assert a == [a[0]] + a[1..] && b == [b[0]] + b[1..];
    }
  }

  lemma StringifyInjective(a: Json, b: Json)
    ensures Stringify(a) == Stringify(b) <==> a == b
  {
    if Stringify(a) == Stringify(b) {
      assert Stringify(a) + "" == Stringify(a) && Stringify(b) + "" == Stringify(b);
      ReadValue(a, b, "", "");
    }
  }

  // ---------- canonical form ----------

  function Keys(fields: seq<Field>): seq<string> { seq(|fields|, i requires 0 <= i < |fields| => fields[i].key) }

  /** Object keys are distinct, at every level. */
  ghost predicate WellFormed(j: Json) {
    match j
    case Array(items) => forall i :: 0 <= i < |items| ==> WellFormed(items[i])
    case Object(fields) =>
      && DistinctKeys(fields)
      && (forall i :: 0 <= i < |fields| ==> WellFormed(fields[i].value))
    case _ => true
  }

  function IndexOf(fields: seq<Field>, key: string): (i: nat)
    requires key in Keys(fields)
    ensures i < |fields| && fields[i].key == key
  {
    if fields[0].key == key then 0
    else
      assert Keys(fields[1..]) == Keys(fields)[1..];
      1 + IndexOf(fields[1..], key)
  }

  function Lookup(fields: seq<Field>, key: string): (v: Json)
    requires key in Keys(fields)
    ensures exists i :: 0 <= i < |fields| && fields[i].value == v && fields[i].key == key
  {
    fields[IndexOf(fields, key)].value
  }

  /** The key that sets a prototype. */
  const PROTO: string := "__proto__"

  /** Object keys in sorted order, recursively; arrays keep their order. */
  function Canonicalize(j: Json): Json
    decreases j, 0
  {
    match j
    case Array(items) => Array(seq(|items|, i requires 0 <= i < |items| => Canonicalize(items[i])))
    case Object(fields) =>
      KeysSort(fields);
      Object(Assigned(fields, Sort(Keys(fields), StringLe)))
    case _ => j
  }

  /** The object after `out[key] = ...` for the keys in turn. */
  function Assigned(fields: seq<Field>, keys: seq<string>): seq<Field>
    requires forall k :: k in keys ==> k in Keys(fields)
    decreases fields, |keys|
  {
    if keys == [] then []
    else
      var n := |keys| - 1;
      Assigned(fields, keys[..n]) + if keys[n] == PROTO then [] else [Field(keys[n], Canonicalize(Lookup(fields, keys[n])))]
  }

  lemma KeysSort(fields: seq<Field>)
    ensures forall k :: k in Sort(Keys(fields), StringLe) <==> k in Keys(fields)
  {
    hide StringLe;
    var s := Sort(Keys(fields), StringLe);
    assert forall k :: k in s <==> k in multiset(s);
    assert forall k :: k in Keys(fields) <==> k in multiset(Keys(fields));
  }

  /** The recursion and its loops. */
  method CanonicalizeValue(value: Json) returns (c: Json)
    ensures c == Canonicalize(value)
    decreases value
  {
    hide Sort, StringLe, Lookup;
    match value {
      case Array(items) =>
        var mapped := [];
        for i := 0 to |items|
          invariant |mapped| == i && forall k :: 0 <= k < i ==> mapped[k] == Canonicalize(items[k])
        {
          var item := CanonicalizeValue(items[i]);
          mapped := mapped + [item];
        }
        c := Array(mapped);
      case Object(fields) =>
        KeysSort(fields);
        var sortedKeys := Sort(Keys(fields), StringLe);
        var out := [];
        for i := 0 to |sortedKeys|
          invariant out == Assigned(fields, sortedKeys[..i])
        {
          assert sortedKeys[..i + 1][..i] == sortedKeys[..i];
          var key := sortedKeys[i];
          var member := CanonicalizeValue(Lookup(fields, key));
          if key != PROTO {
            out := out + [Field(key, member)];
          }
        }
        assert sortedKeys[..|sortedKeys|] == sortedKeys;
        c := Object(out);
      case _ => c := value;
    }
  }

  function CanonicalText(j: Json): string { Stringify(Canonicalize(j)) }

  // ---------- without prototypes ----------

  function Kept(fields: seq<Field>): (r: seq<Field>)
    ensures forall f :: f in r <==> f in fields && f.key != PROTO
    ensures forall f <- r :: f in fields
  {
    if fields == [] then []
    else
      assert fields == [fields[0]] + fields[1..];
      (if fields[0].key == PROTO then [] else [fields[0]]) + Kept(fields[1..])
  }

  /** The value without its members called `__proto__`, at every depth. */
  function Bare(j: Json): Json {
    match j
    case Array(items) => Array(seq(|items|, i requires 0 <= i < |items| => Bare(items[i])))
    case Object(fields) =>
      var kept := Kept(fields);
      Object(seq(|kept|, i requires 0 <= i < |kept| => assert kept[i] in fields; Field(kept[i].key, Bare(kept[i].value))))
    case _ => j
  }

  /** Object keys in sorted order, recursively, every member kept. */
  function SortKeys(j: Json): Json {
    match j
    case Array(items) => Array(seq(|items|, i requires 0 <= i < |items| => SortKeys(items[i])))
    case Object(fields) =>
      var keys := Sort(Keys(fields), StringLe);
      Object(seq(|keys|, i requires 0 <= i < |keys| =>
        assert keys[i] in multiset(Keys(fields));
        Field(keys[i], SortKeys(Lookup(fields, keys[i])))))
    case _ => j
  }

  /** Equal up to the order of object keys. */
  ghost predicate Equivalent(a: Json, b: Json) {
    if a.Array? && b.Array? then
      |a.items| == |b.items| && forall i :: 0 <= i < |a.items| ==> Equivalent(a.items[i], b.items[i])
    else if a.Object? && b.Object? then
      && (forall k :: k in Keys(a.fields) <==> k in Keys(b.fields))
      && (forall i :: 0 <= i < |a.fields| && a.fields[i].key in Keys(b.fields) ==>
            Equivalent(a.fields[i].value, Lookup(b.fields, a.fields[i].key)))
    else a == b
  }

  lemma {:induction false} DistinctMultiset(s: seq<string>)
    requires forall i, k :: 0 <= i < k < |s| ==> s[i] != s[k]
    ensures forall x :: multiset(s)[x] == if x in s then 1 else 0
  {
    if s != [] {
      DistinctMultiset(s[1..]);
      assert s == [s[0]] + s[1..];
      assert s[0] !in s[1..];
    }
  }

  lemma DistinctSameMembers(a: seq<string>, b: seq<string>)
    requires forall i, k :: 0 <= i < k < |a| ==> a[i] != a[k]
    requires forall i, k :: 0 <= i < k < |b| ==> b[i] != b[k]
    ensures multiset(a) == multiset(b) <==> forall k :: k in a <==> k in b
  {
    DistinctMultiset(a);
    DistinctMultiset(b);
    if multiset(a) == multiset(b) {
      assert forall k :: k in a <==> k in multiset(a);
      assert forall k :: k in b <==> k in multiset(b);
    }
  }

  ghost predicate DistinctKeys(fields: seq<Field>) {
    forall i, k :: 0 <= i < k < |fields| ==> fields[i].key != fields[k].key
  }

  /** The sorted key lists of two objects agree exactly when they have the same keys. */
  lemma SortedKeys(a: seq<Field>, b: seq<Field>)
    requires DistinctKeys(a) && DistinctKeys(b)
    ensures Sort(Keys(a), StringLe) == Sort(Keys(b), StringLe) <==> forall k :: k in Keys(a) <==> k in Keys(b)
    ensures forall k :: k in Sort(Keys(a), StringLe) <==> k in Keys(a)
  {
    hide StringLe, TotalOrder, Sort;
    StringOrder();
    SortIdentifiesPermutations(Keys(a), Keys(b), StringLe);
    DistinctSameMembers(Keys(a), Keys(b));
    var s := Sort(Keys(a), StringLe);
    assert forall k :: k in s <==> k in multiset(s);
    assert forall k :: k in Keys(a) <==> k in multiset(Keys(a));
  }

  lemma {:induction false} CanonicalForms(a: Json, b: Json)
    requires WellFormed(a) && WellFormed(b)
    ensures SortKeys(a) == SortKeys(b) <==> Equivalent(a, b)
    decreases a
  {
    if a.Array? && b.Array? {
      if |a.items| == |b.items| {
        forall i | 0 <= i < |a.items|
          ensures SortKeys(a.items[i]) == SortKeys(b.items[i]) <==> Equivalent(a.items[i], b.items[i])
        {
          CanonicalForms(a.items[i], b.items[i]);
        }
      }
      var ca, cb := SortKeys(a), SortKeys(b);
      if ca == cb {
        forall i | 0 <= i < |a.items|
          ensures Equivalent(a.items[i], b.items[i])
        {
          assert ca.items[i] == cb.items[i];
        }
      }
    } else if a.Object? && b.Object? {
      CanonicalObjects(a, b);
    }
  }

  lemma ObjectForm(j: Json)
    requires j.Object?
    ensures var keys, c := Sort(Keys(j.fields), StringLe), SortKeys(j);
            && c.Object? && |c.fields| == |keys|
            && forall i :: 0 <= i < |keys| ==> keys[i] in Keys(j.fields) && c.fields[i] == Field(keys[i], SortKeys(Lookup(j.fields, keys[i])))
  {
    hide StringLe, Lookup;
    var keys := Sort(Keys(j.fields), StringLe);
    forall i | 0 <= i < |keys|
      ensures keys[i] in Keys(j.fields)
    {
      assert keys[i] in multiset(Keys(j.fields));
    }
  }

  lemma LookupOwn(fields: seq<Field>, i: nat)
    requires DistinctKeys(fields) && i < |fields|
    ensures fields[i].key in Keys(fields) && Lookup(fields, fields[i].key) == fields[i].value
  {
    assert Keys(fields)[i] == fields[i].key;
  }

  /** For values under a common key, equal canonical forms and equivalence mean the same. */
  ghost predicate ValuesAgree(fa: seq<Field>, fb: seq<Field>) {
    forall i :: 0 <= i < |fa| && fa[i].key in Keys(fb) ==>
      (SortKeys(fa[i].value) == SortKeys(Lookup(fb, fa[i].key)) <==> Equivalent(fa[i].value, Lookup(fb, fa[i].key)))
  }

  lemma {:induction false} CanonicalObjects(a: Json, b: Json)
    requires WellFormed(a) && WellFormed(b) && a.Object? && b.Object?
    ensures SortKeys(a) == SortKeys(b) <==> Equivalent(a, b)
    decreases a, 0
  {
    hide SortKeys, Lookup, Equivalent;
    var fa, fb := a.fields, b.fields;
    forall i | 0 <= i < |fa| && fa[i].key in Keys(fb)
      ensures SortKeys(fa[i].value) == SortKeys(Lookup(fb, fa[i].key)) <==> Equivalent(fa[i].value, Lookup(fb, fa[i].key))
    {
      CanonicalForms(fa[i].value, Lookup(fb, fa[i].key));
    }
    assert ValuesAgree(fa, fb) && DistinctKeys(fa) && DistinctKeys(fb);
    hide ValuesAgree, WellFormed, DistinctKeys;
    if SortKeys(a) == SortKeys(b) {
      SameFormEquivalent(a, b);
    }
    if Equivalent(a, b) {
      EquivalentSameForm(a, b);
    }
  }

  lemma SameFormEquivalent(a: Json, b: Json)
    requires a.Object? && b.Object? && DistinctKeys(a.fields) && DistinctKeys(b.fields)
    requires ValuesAgree(a.fields, b.fields) && SortKeys(a) == SortKeys(b)
    ensures Equivalent(a, b)
  {
    hide StringLe, Sort, SortKeys, Lookup;
    var fa, fb := a.fields, b.fields;
    var ka, kb := Sort(Keys(fa), StringLe), Sort(Keys(fb), StringLe);
    var ca, cb := SortKeys(a), SortKeys(b);
    SortedKeys(fa, fb);
    ObjectForm(a);
    ObjectForm(b);
    assert ka == kb by {
      assert forall i :: 0 <= i < |ka| ==> ka[i] == ca.fields[i].key == kb[i];
    }
    forall i | 0 <= i < |fa|
      ensures fa[i].key in Keys(fb) && Equivalent(fa[i].value, Lookup(fb, fa[i].key))
    {
      LookupOwn(fa, i);
      var j :| 0 <= j < |ka| && ka[j] == fa[i].key;
      assert ca.fields[j].value == cb.fields[j].value;
    }
  }

  lemma EquivalentSameForm(a: Json, b: Json)
    requires a.Object? && b.Object? && DistinctKeys(a.fields) && DistinctKeys(b.fields)
    requires ValuesAgree(a.fields, b.fields) && Equivalent(a, b)
    ensures SortKeys(a) == SortKeys(b)
  {
    hide StringLe, Sort, SortKeys, Lookup;
    var fa, fb := a.fields, b.fields;
    var ka, kb := Sort(Keys(fa), StringLe), Sort(Keys(fb), StringLe);
    var ca, cb := SortKeys(a), SortKeys(b);
    SortedKeys(fa, fb);
    ObjectForm(a);
    ObjectForm(b);
    assert ka == kb;
    forall j | 0 <= j < |ka|
      ensures ca.fields[j] == cb.fields[j]
    {
      var i := IndexOf(fa, ka[j]);
      LookupOwn(fa, i);
      assert fa[i].key == ka[j] && Equivalent(fa[i].value, Lookup(fb, fa[i].key));
    }
    assert ca.fields == cb.fields;
  }

  lemma {:induction false} KeptDistinct(fields: seq<Field>)
    requires DistinctKeys(fields)
    ensures DistinctKeys(Kept(fields))
  {
    if fields != [] {
      KeptDistinct(fields[1..]);
      var rest := Kept(fields[1..]);
      forall f | f in rest
        ensures f.key != fields[0].key
      {
        var i :| 0 <= i < |fields[1..]| && fields[1..][i] == f;
        assert fields[i + 1] == f;
      }
    }
  }

  /** Looking a key up before and after the removal. */
  lemma BareLookup(fields: seq<Field>, key: string)
    requires DistinctKeys(fields)
    ensures key in Keys(Bare(Object(fields)).fields) <==> key in Keys(fields) && key != PROTO
    ensures key in Keys(fields) && key != PROTO ==> Lookup(Bare(Object(fields)).fields, key) == Bare(Lookup(fields, key))
    ensures DistinctKeys(Bare(Object(fields)).fields)
  {
    hide Lookup, Kept;
    var kept, bare := Kept(fields), Bare(Object(fields)).fields;
    KeptDistinct(fields);
    if key in Keys(fields) && key != PROTO {
      var i := IndexOf(fields, key);
      LookupOwn(fields, i);
      assert fields[i] in kept;
      var k :| 0 <= k < |kept| && kept[k] == fields[i];
      assert bare[k].key == key;
      LookupOwn(bare, k);
    }
    if key in Keys(bare) {
      var k :| 0 <= k < |bare| && Keys(bare)[k] == key;
      assert kept[k] in fields;
      var i :| 0 <= i < |fields| && fields[i] == kept[k];
      assert Keys(fields)[i] == key;
    }
  }

  lemma {:induction false} BareWellFormed(j: Json)
    requires WellFormed(j)
    ensures WellFormed(Bare(j))
  {
    hide Kept;
    if j.Array? {
      forall i | 0 <= i < |j.items|
        ensures WellFormed(Bare(j.items[i]))
      {
        BareWellFormed(j.items[i]);
      }
    } else if j.Object? {
      BareLookup(j.fields, "");
      var kept, bare := Kept(j.fields), Bare(j).fields;
      forall i | 0 <= i < |bare|
        ensures WellFormed(bare[i].value)
      {
        assert kept[i] in j.fields;
        BareWellFormed(kept[i].value);
      }
    }
  }

  function KeptKeys(keys: seq<string>): (r: seq<string>)
    ensures forall k :: k in r <==> k in keys && k != PROTO
  {
    if keys == [] then []
    else
      var n := |keys| - 1;
      assert keys == keys[..n] + [keys[n]];
      KeptKeys(keys[..n]) + if keys[n] == PROTO then [] else [keys[n]]
  }

  lemma {:induction false} KeptKeysSorted(keys: seq<string>)
    requires Sorted(keys, StringLe) && forall i, k :: 0 <= i < k < |keys| ==> keys[i] != keys[k]
    ensures Sorted(KeptKeys(keys), StringLe)
    ensures forall i, k :: 0 <= i < k < |KeptKeys(keys)| ==> KeptKeys(keys)[i] != KeptKeys(keys)[k]
  {
    hide StringLe;
    if keys != [] {
      var n := |keys| - 1;
      KeptKeysSorted(keys[..n]);
      var r := KeptKeys(keys[..n]);
      forall i | 0 <= i < |r|
        ensures StringLe(r[i], keys[n]) && r[i] != keys[n]
      {
        assert r[i] in keys[..n];
        var k :| 0 <= k < n && keys[k] == r[i];
      }
    }
  }

  /** The assignments in order are the kept keys in order. */
  lemma {:induction false} AssignedKept(fields: seq<Field>, keys: seq<string>)
    requires forall k :: k in keys ==> k in Keys(fields)
    ensures var r, kept := Assigned(fields, keys), KeptKeys(keys);
            |r| == |kept| && forall i :: 0 <= i < |r| ==> kept[i] in Keys(fields) && r[i] == Field(kept[i], Canonicalize(Lookup(fields, kept[i])))
    decreases |keys|
  {
    hide Canonicalize, Lookup;
    if keys != [] {
      var n := |keys| - 1;
      assert keys[n] in keys;
      AssignedKept(fields, keys[..n]);
    }
  }

  lemma SortedDistinct(fields: seq<Field>)
    requires DistinctKeys(fields)
    ensures var s := Sort(Keys(fields), StringLe);
            Sorted(s, StringLe) && (forall i, k :: 0 <= i < k < |s| ==> s[i] != s[k])
  {
    hide StringLe, TotalOrder, Sort;
    StringOrder();
    SortSorted(Keys(fields), StringLe);
    DistinctCounts(Keys(fields), Sort(Keys(fields), StringLe));
  }

  /** A permutation of distinct strings is distinct. */
  lemma DistinctCounts(a: seq<string>, b: seq<string>)
    requires multiset(a) == multiset(b) && forall i, k :: 0 <= i < k < |a| ==> a[i] != a[k]
    ensures forall i, k :: 0 <= i < k < |b| ==> b[i] != b[k]
  {
    DistinctMultiset(a);
    forall i, k | 0 <= i < k < |b|
      ensures b[i] != b[k]
    {
      if b[i] == b[k] {
        Twice(b, i, k);
      }
    }
  }

  lemma Twice(b: seq<string>, i: nat, k: nat)
    requires i < k < |b| && b[i] == b[k]
    ensures multiset(b)[b[i]] >= 2
  {
    assert b == b[..k] + [b[k]] + b[k + 1..];
    assert b[..k][i] == b[i];
  }

  /** Dropping the key from the sorted keys, or sorting without it, is the same. */
  lemma KeptKeysOfBare(fields: seq<Field>)
    requires DistinctKeys(fields)
    ensures KeptKeys(Sort(Keys(fields), StringLe)) == Sort(Keys(Bare(Object(fields)).fields), StringLe)
  {
    hide StringLe, TotalOrder, Sort, Bare, Lookup, KeptKeys, Keys;
    BareIsObject(Object(fields));
    var bare := Bare(Object(fields)).fields;
    BareLookup(fields, "");
    var a, b := KeptKeys(Sort(Keys(fields), StringLe)), Sort(Keys(bare), StringLe);
    KeysSort(fields);
    KeysSort(bare);
    SortedDistinct(fields);
    SortedDistinct(bare);
    KeptKeysSorted(Sort(Keys(fields), StringLe));
    forall k
      ensures k in a <==> k in b
    {
      BareLookup(fields, k);
    }
    DistinctSameMembers(a, b);
    StringOrder();
    SortedUnique(a, b, StringLe);
  }

  /** Canonicalizing is sorting what is left without `__proto__` members. */
  lemma {:induction false} CanonicalizeBare(j: Json)
    requires WellFormed(j)
    ensures Canonicalize(j) == SortKeys(Bare(j))
  {
    if j.Array? {
      forall i | 0 <= i < |j.items|
        ensures Canonicalize(j.items[i]) == SortKeys(Bare(j.items[i]))
      {
        CanonicalizeBare(j.items[i]);
      }
    } else if j.Object? {
      CanonicalizeObject(j);
    }
  }

  lemma {:induction false} CanonicalizeObject(j: Json)
    requires WellFormed(j) && j.Object?
    ensures Canonicalize(j) == SortKeys(Bare(j))
    decreases j, 0
  {
    hide StringLe, Sort, Lookup, Kept, KeptKeys, Assigned, Bare, SortKeys;
    var fields, bare := j.fields, Bare(j);
    assert bare.Object? by { BareIsObject(j); }
    KeysSort(fields);
    var keys := Sort(Keys(fields), StringLe);
    AssignedKept(fields, keys);
    KeptKeysOfBare(fields);
    ObjectForm(bare);
    var kept := KeptKeys(keys);
    forall i | 0 <= i < |kept|
      ensures SortKeys(bare).fields[i] == Assigned(fields, keys)[i]
    {
      BareLookup(fields, kept[i]);
      var m := IndexOf(fields, kept[i]);
      LookupOwn(fields, m);
      CanonicalizeBare(fields[m].value);
    }
    assert SortKeys(bare).fields == Assigned(fields, keys);
  }

  lemma BareIsObject(j: Json)
    ensures Bare(j).Object? <==> j.Object?
  {
  }

  /** Two values have the same canonical text exactly when, without their `__proto__` members, they are equal up to key order. */
  lemma CanonicalTextIdentifies(a: Json, b: Json)
    requires WellFormed(a) && WellFormed(b)
    ensures CanonicalText(a) == CanonicalText(b) <==> Equivalent(Bare(a), Bare(b))
  {
    hide Canonicalize, SortKeys, Bare, Equivalent, Stringify;
    StringifyInjective(Canonicalize(a), Canonicalize(b));
    CanonicalizeBare(a);
    CanonicalizeBare(b);
    BareWellFormed(a);
    BareWellFormed(b);
    CanonicalForms(Bare(a), Bare(b));
  }

  /** No member called `__proto__`, at any depth. */
  ghost predicate ProtoFree(j: Json) {
    match j
    case Array(items) => forall i :: 0 <= i < |items| ==> ProtoFree(items[i])
    case Object(fields) => forall i :: 0 <= i < |fields| ==> fields[i].key != PROTO && ProtoFree(fields[i].value)
    case _ => true
  }

  lemma {:induction false} KeptAll(fields: seq<Field>)
    requires forall i :: 0 <= i < |fields| ==> fields[i].key != PROTO
    ensures Kept(fields) == fields
  {
    if fields != [] {
      KeptAll(fields[1..]);
    }
  }

  /** Nothing is lost of a value without such members. */
  lemma {:induction false} ProtoFreeIsBare(j: Json)
    requires ProtoFree(j)
    ensures Bare(j) == j
  {
    hide Kept;
    if j.Array? {
      forall i | 0 <= i < |j.items|
        ensures Bare(j.items[i]) == j.items[i]
      {
        ProtoFreeIsBare(j.items[i]);
      }
    } else if j.Object? {
      KeptAll(j.fields);
      forall i | 0 <= i < |j.fields|
        ensures Bare(j.fields[i].value) == j.fields[i].value
      {
        ProtoFreeIsBare(j.fields[i].value);
      }
      assert Bare(j).fields == j.fields;
    }
  }
}

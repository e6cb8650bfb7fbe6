/**
 The audit log (packages/orchestrator/src/audit-log.ts): one JSON line an entry, each carrying the hash of the one before.
 The digest, the signature scheme and JSON.parse are parameters.
 */
module AuditLogs {
  import opened Options
  import opened CanonicalJson
  import opened Strings
  import opened Ndjson

  /** SHA-256 in hex, the signing key, the check of a checkpoint signature, and JSON.parse. */
  datatype Primitives = Primitives(
    sha: string -> string,
    sign: string -> string,
    checks: (string, Json) -> bool,
    parse: Parser)

  const GENESIS: string := "0000000000000000000000000000000000000000000000000000000000000000"

  const SECURITY_RELEVANT: set<string> := {
    "plugin.trust", "plugin.untrust", "grant.create", "grant.revoke", "plan.approve", "plan.revoke", "key.rotate", "key.import",
    "powerful.execute", "secret.set", "secret.unset", "plugin.invoke.refused", "framework.uninstall"}

  // ---------- entries ----------

  function Get(j: Json, key: string): Option<Json> {
    if j.Object? && key in Keys(j.fields) then Some(Lookup(j.fields, key)) else None
  }

  /** What is hashed: everything but the hash and the signature. */
  function Without(fields: seq<Field>): (r: seq<Field>)
    ensures forall f <- r :: f in fields
  {
    if fields == [] then []
    else (if fields[0].key == "hash" || fields[0].key == "checkpointSig" then [] else [fields[0]]) + Without(fields[1..])
  }

  function Base(j: Json): Json { if j.Object? then Object(Without(j.fields)) else j }

  function HashOf(base: Json, p: Primitives): string { p.sha(CanonicalText(base)) }

  datatype Fault = PrevHashMismatch | HashMismatch | BadSignature

  /** The first thing wrong with an entry that should follow the given hash. */
  function Check(entry: Json, prevHash: string, p: Primitives): Option<Fault> {
    if Get(entry, "prevHash") != Some(Text(prevHash)) then Some(PrevHashMismatch)
    else
      var hash := HashOf(Base(entry), p);
      if Get(entry, "hash") != Some(Text(hash)) then Some(HashMismatch)
      else
        var sig := Get(entry, "checkpointSig");
        if sig.Some? && !p.checks(hash, sig.value) then Some(BadSignature) else None
  }

  function LastHash(entries: seq<Json>, p: Primitives): string {
    if entries == [] then GENESIS else HashOf(Base(entries[|entries| - 1]), p)
  }

  /** Every entry follows the one before it. */
  predicate Chained(entries: seq<Json>, p: Primitives) {
    forall i :: 0 <= i < |entries| ==> Check(entries[i], LastHash(entries[..i], p), p) == None
  }

  // ---------- the file ----------

  function Values(emitted: seq<Emission>): seq<Json> {
    if emitted == [] then []
    else (if emitted[0].Message? then [emitted[0].value] else []) + Values(emitted[1..])
  }

  /** The entries of a file: blank lines and lines that are not JSON are passed over. */
  function Entries(file: string, p: Primitives): seq<Json> { Values(EmitAll(Split(file, '\n'), p.parse)) }

  datatype Verdict =
    | Valid(count: nat)
    | Invalid(count: nat, at: Option<Json>, fault: Fault)
    | Throws   // a null entry has no fields to read

  datatype Input = Input(ts: string, kind: string, details: Json)

  function NewBase(seqNo: int, input: Input, prevHash: string): Json {
    Object([Field("seq", Number(seqNo)), Field("ts", Text(input.ts)), Field("type", Text(input.kind)),
            Field("details", input.details), Field("prevHash", Text(prevHash))])
  }

  predicate IsCheckpoint(seqNo: int, kind: string) { seqNo % 100 == 0 || kind in SECURITY_RELEVANT }

  function NewEntry(seqNo: int, input: Input, prevHash: string, p: Primitives): Json {
    var base := NewBase(seqNo, input, prevHash);
    var hash := HashOf(base, p);
    Object(base.fields + [Field("hash", Text(hash))]
           + if IsCheckpoint(seqNo, input.kind) then [Field("checkpointSig", Text(p.sign(hash)))] else [])
  }

  datatype State = State(file: string, seqNo: int, lastHash: string)

  function Appended(s: State, input: Input, p: Primitives): State {
    var entry := NewEntry(s.seqNo + 1, input, s.lastHash, p);
    State(s.file + Stringify(entry) + ['\n'], s.seqNo + 1, HashOf(NewBase(s.seqNo + 1, input, s.lastHash), p))
  }

  /** Where a new process takes up: none if the last entry has no number or no hash to go on from. */
  function Resumed(file: string, p: Primitives): Option<State> {
    var entries := Entries(file, p);
    if entries == [] then Some(State(file, 0, GENESIS)) else
      var last := entries[|entries| - 1];
      var n, h := Get(last, "seq"), Get(last, "hash");
      if n.Some? && n.value.Number? && h.Some? && h.value.Text? then Some(State(file, n.value.n, h.value.s)) else None
  }

  class AuditLog {
    const p: Primitives
    var file: string
    var seqNo: int
    var lastHash: string

    ghost function Now(): State
      reads this
    {
      State(file, seqNo, lastHash)
    }

    /** Opens an existing file whose last entry can be gone on from, or a new one. */
    constructor (file: string, p: Primitives)
      requires Resumed(file, p).Some?
      ensures this.p == p && Some(Now()) == Resumed(file, p)
    {
      this.p := p;
      this.file := file;
      seqNo, lastHash := 0, GENESIS;
      new;
      var existing := ReadAll(file, p);
      if |existing| > 0 {
        var last := existing[|existing| - 1];
        seqNo := Get(last, "seq").value.n;
        lastHash := Get(last, "hash").value.s;
      }
    }

    method Append(input: Input) returns (entry: Json)
      modifies this
      ensures Now() == Appended(old(Now()), input, p)
      ensures entry == NewEntry(old(seqNo) + 1, input, old(lastHash), p)
    {
      hide Stringify, CanonicalText;
      seqNo := seqNo + 1;
      var base := NewBase(seqNo, input, lastHash);
      var hash := p.sha(CanonicalText(base));
      if seqNo % 100 == 0 || input.kind in SECURITY_RELEVANT {
        entry := Object(base.fields + [Field("hash", Text(hash))] + [Field("checkpointSig", Text(p.sign(hash)))]);
      } else {
        entry := Object(base.fields + [Field("hash", Text(hash))]);
        assert entry.fields + [] == entry.fields;
      }
      assert entry == NewEntry(seqNo, input, lastHash, p);
      file := file + Stringify(entry) + ['\n'];
      lastHash := hash;
    }

    method Verify() returns (v: Verdict)
      ensures v == VerdictOn(Entries(file, p), p)
    {
      var entries := ReadAll(file, p);
      v := VerifyEntries(entries, p);
    }
  }

  method ReadAll(file: string, p: Primitives) returns (entries: seq<Json>)
    ensures entries == Entries(file, p)
  {
    hide Split, Blank, EmitAll, Emit, Values;
    var lines := Split(file, '\n');
    entries := [];
    assert lines[0..] == lines;
    for i := 0 to |lines|
      invariant entries + Values(EmitAll(lines[i..], p.parse)) == Entries(file, p)
    {
      assert lines[i..] == [lines[i]] + lines[i + 1..];
      ValuesStep(lines[i], lines[i + 1..], p);
      var parsed := p.parse(lines[i]);
      if !Blank(lines[i]) && parsed.Some? {
        assert entries + ([parsed.value] + Values(EmitAll(lines[i + 1..], p.parse))) == (entries + [parsed.value]) + Values(EmitAll(lines[i + 1..], p.parse));
        entries := entries + [parsed.value];
      }
    }
    assert lines[|lines|..] == [];
    NoValues(p);
  }

  lemma NoValues(p: Primitives)
    ensures Values(EmitAll([], p.parse)) == []
  {
  }

  lemma {:induction false} ValuesAppend(a: seq<Emission>, b: seq<Emission>)
    ensures Values(a + b) == Values(a) + Values(b)
  {
    if a == [] {
      assert a + b == b;
    } else {
      assert (a + b)[1..] == a[1..] + b && (a + b)[0] == a[0];
      ValuesAppend(a[1..], b);
    }
  }

  lemma ValuesStep(line: string, rest: seq<string>, p: Primitives)
    ensures Values(EmitAll([line] + rest, p.parse))
         == (if !Blank(line) && p.parse(line).Some? then [p.parse(line).value] else []) + Values(EmitAll(rest, p.parse))
  {
    hide Blank;
    assert ([line] + rest)[1..] == rest;
    ValuesAppend(Emit(line, p.parse), EmitAll(rest, p.parse));
  }

  /** The verdict is about the first entry that does not follow; a null entry before it throws. */
  function VerdictOn(entries: seq<Json>, p: Primitives): Verdict { VerdictFrom(entries, 0, GENESIS, p) }

  function VerdictFrom(entries: seq<Json>, i: nat, prevHash: string, p: Primitives): Verdict
    requires i <= |entries|
    decreases |entries| - i
  {
    if i == |entries| then Valid(|entries|)
    else if entries[i].Null? then Throws
    else if Check(entries[i], prevHash, p).Some? then Invalid(|entries|, Get(entries[i], "seq"), Check(entries[i], prevHash, p).value)
    else VerdictFrom(entries, i + 1, HashOf(Base(entries[i]), p), p)
  }

  method VerifyEntries(entries: seq<Json>, p: Primitives) returns (v: Verdict)
    ensures v == VerdictOn(entries, p)
  {
    var prevHash := GENESIS;
    for i := 0 to |entries|
      invariant VerdictFrom(entries, i, prevHash, p) == VerdictOn(entries, p)
    {
      var entry := entries[i];
      if entry.Null? {
        return Throws;
      }
      if Get(entry, "prevHash") != Some(Text(prevHash)) {
        return Invalid(|entries|, Get(entry, "seq"), PrevHashMismatch);
      }
      var recomputed := p.sha(CanonicalText(Base(entry)));
      if Get(entry, "hash") != Some(Text(recomputed)) {
        return Invalid(|entries|, Get(entry, "seq"), HashMismatch);
      }
      var sig := Get(entry, "checkpointSig");
      if sig.Some? && !p.checks(recomputed, sig.value) {
        return Invalid(|entries|, Get(entry, "seq"), BadSignature);
      }
      prevHash := recomputed;
    }
    v := Valid(|entries|);
  }

  lemma {:induction false} VerdictMeaning(entries: seq<Json>, i: nat, p: Primitives)
    requires i <= |entries|
    ensures VerdictFrom(entries, i, LastHash(entries[..i], p), p) == Valid(|entries|)
       <==> forall k :: i <= k < |entries| ==> Check(entries[k], LastHash(entries[..k], p), p) == None
    ensures var v := VerdictFrom(entries, i, LastHash(entries[..i], p), p); v.Valid? ==> v.count == |entries|
    decreases |entries| - i
  {
    hide HashOf, Base, Get;
    if i < |entries| {
      assert entries[..i + 1][i] == entries[i];
      assert LastHash(entries[..i + 1], p) == HashOf(Base(entries[i]), p);
      VerdictMeaning(entries, i + 1, p);
      NullHasNoFields(entries[i], LastHash(entries[..i], p), p);
    }
  }

  lemma NullHasNoFields(entry: Json, prevHash: string, p: Primitives)
    ensures entry.Null? ==> Check(entry, prevHash, p).Some?
  {
  }

  /** `verify` accepts a log exactly when every entry follows the one before it, and then counts them all. */
  lemma VerifyExactly(entries: seq<Json>, p: Primitives)
    ensures VerdictOn(entries, p) == Valid(|entries|) <==> Chained(entries, p)
    ensures VerdictOn(entries, p).Valid? ==> VerdictOn(entries, p).count == |entries|
  {
    hide VerdictFrom, Check;
    assert entries[..0] == [];
    VerdictMeaning(entries, 0, p);
  }

  /** The i-th entry is the first that does not follow, and this is what is wrong with it. */
  predicate FirstFault(entries: seq<Json>, i: nat, fault: Fault, p: Primitives)
    requires i < |entries|
  {
    var e, hash := entries[i], HashOf(Base(entries[i]), p);
    var links, hashed := Get(e, "prevHash") == Some(Text(LastHash(entries[..i], p))), Get(e, "hash") == Some(Text(hash));
    && Chained(entries[..i], p) && !e.Null?
    && (fault.PrevHashMismatch? ==> !links)
    && (fault.HashMismatch? ==> links && !hashed)
    && (fault.BadSignature? ==> links && hashed && Get(e, "checkpointSig").Some? && !p.checks(hash, Get(e, "checkpointSig").value))
  }

  /** Any other verdict is about the first entry that does not follow: it says which and why, or throws because that entry is null. */
  lemma FaultExactly(entries: seq<Json>, p: Primitives)
    ensures var v := VerdictOn(entries, p);
            && (v.Throws? ==> exists i :: 0 <= i < |entries| && entries[i].Null? && Chained(entries[..i], p))
            && (v.Invalid? ==> v.count == |entries| && exists i :: 0 <= i < |entries| && v.at == Get(entries[i], "seq") && FirstFault(entries, i, v.fault, p))
  {
    assert entries[..0] == [];
    FaultFrom(entries, 0, p);
  }

  lemma {:induction false} FaultFrom(entries: seq<Json>, i: nat, p: Primitives)
    requires i <= |entries| && Chained(entries[..i], p)
    ensures var v := VerdictFrom(entries, i, LastHash(entries[..i], p), p);
            && (v.Throws? ==> exists k :: 0 <= k < |entries| && entries[k].Null? && Chained(entries[..k], p))
            && (v.Invalid? ==> v.count == |entries| && exists k :: 0 <= k < |entries| && v.at == Get(entries[k], "seq") && FirstFault(entries, k, v.fault, p))
    decreases |entries| - i
  {
    hide HashOf, Base, Get, Chained, FirstFault;
    if i < |entries| && !entries[i].Null? {
      var prevHash := LastHash(entries[..i], p);
      if Check(entries[i], prevHash, p).Some? {
        FaultHere(entries, i, p);
      } else {
        ChainedNext(entries, i, p);
        FaultFrom(entries, i + 1, p);
      }
    }
  }

  lemma FaultHere(entries: seq<Json>, i: nat, p: Primitives)
    requires i < |entries| && Chained(entries[..i], p) && !entries[i].Null? && Check(entries[i], LastHash(entries[..i], p), p).Some?
    ensures FirstFault(entries, i, Check(entries[i], LastHash(entries[..i], p), p).value, p)
  {
    hide HashOf, Base, Get, Chained;
  }

  lemma ChainedNext(entries: seq<Json>, i: nat, p: Primitives)
    requires i < |entries| && Chained(entries[..i], p) && Check(entries[i], LastHash(entries[..i], p), p) == None
    ensures Chained(entries[..i + 1], p) && LastHash(entries[..i + 1], p) == HashOf(Base(entries[i]), p)
  {
    hide HashOf, Base, Get, Check, LastHash;
    var more := entries[..i + 1];
    assert forall k :: 0 <= k <= i ==> more[..k] == entries[..k];
    assert forall k :: 0 <= k < i ==> more[k] == entries[..i][k] && entries[..i][..k] == entries[..k];
    assert LastHash(more, p) == HashOf(Base(entries[i]), p) by { LastHashIs(more, p); }
  }

  lemma LastHashIs(entries: seq<Json>, p: Primitives)
    requires entries != []
    ensures LastHash(entries, p) == HashOf(Base(entries[|entries| - 1]), p)
  {
  }

  // ---------- appends and restarts ----------

  datatype Event = Write(input: Input) | Restart

  function Inputs(events: seq<Event>): seq<Input> {
    if events == [] then [] else
      var e := events[|events| - 1];
      Inputs(events[..|events| - 1]) + if e.Write? then [e.input] else []
  }

  /** The state after any number of appends and restarts on a new file. */
  function After(events: seq<Event>, p: Primitives): Option<State> {
    if events == [] then Some(State("", 0, GENESIS)) else
      var s, e := After(events[..|events| - 1], p), events[|events| - 1];
      if s.None? then None
      else if e.Write? then Some(Appended(s.value, e.input, p)) else Resumed(s.value.file, p)
  }

  /** The log these inputs make. */
  function Log(inputs: seq<Input>, p: Primitives): (r: seq<Json>)
    ensures |r| == |inputs|
  {
    if inputs == [] then [] else
      var front := Log(inputs[..|inputs| - 1], p);
      front + [NewEntry(|inputs|, inputs[|inputs| - 1], LastHash(front, p), p)]
  }

  ghost predicate Sound(p: Primitives) { ReadsBack(p.parse) && forall h :: p.checks(h, Text(p.sign(h))) }

  ghost predicate Storable(inputs: seq<Input>) { forall i :: 0 <= i < |inputs| ==> WellFormed(inputs[i].details) }

  /** What a new entry says, read back field by field. */
  lemma EntryFields(seqNo: int, input: Input, prevHash: string, p: Primitives)
    ensures var e, base := NewEntry(seqNo, input, prevHash, p), NewBase(seqNo, input, prevHash);
            && Base(e) == base
            && Get(e, "seq") == Some(Number(seqNo)) && Get(e, "type") == Some(Text(input.kind))
            && Get(e, "ts") == Some(Text(input.ts)) && Get(e, "details") == Some(input.details)
            && Get(e, "prevHash") == Some(Text(prevHash))
            && Get(e, "hash") == Some(Text(HashOf(base, p)))
            && Get(e, "checkpointSig") == (if IsCheckpoint(seqNo, input.kind) then Some(Text(p.sign(HashOf(base, p)))) else None)
  {
    hide HashOf, IsCheckpoint;
    var e := NewEntry(seqNo, input, prevHash, p);
    EntryShape(seqNo, input, prevHash, p);
    WithoutNew(seqNo, input, prevHash, p);
    hide NewEntry, NewBase, DistinctKeys, Base, Get;
    forall i | 0 <= i < |e.fields|
      ensures Get(e, e.fields[i].key) == Some(e.fields[i].value)
    {
      GetOwn(e, i);
    }
    assert Get(e, e.fields[0].key) == Some(e.fields[0].value);
    assert Get(e, e.fields[1].key) == Some(e.fields[1].value);
    assert Get(e, e.fields[2].key) == Some(e.fields[2].value);
    assert Get(e, e.fields[3].key) == Some(e.fields[3].value);
    assert Get(e, e.fields[4].key) == Some(e.fields[4].value);
    assert Get(e, e.fields[5].key) == Some(e.fields[5].value);
    if IsCheckpoint(seqNo, input.kind) {
      assert Get(e, e.fields[6].key) == Some(e.fields[6].value);
    } else {
      GetNone(e, "checkpointSig");
    }
  }

  lemma GetOwn(e: Json, i: nat)
    requires e.Object? && DistinctKeys(e.fields) && i < |e.fields|
    ensures Get(e, e.fields[i].key) == Some(e.fields[i].value)
  {
    LookupOwn(e.fields, i);
  }

  lemma GetNone(e: Json, key: string)
    requires e.Object? && forall i :: 0 <= i < |e.fields| ==> e.fields[i].key != key
    ensures Get(e, key) == None
  {
    assert forall i :: 0 <= i < |e.fields| ==> Keys(e.fields)[i] != key;
  }

  lemma EntryShape(seqNo: int, input: Input, prevHash: string, p: Primitives)
    ensures var e, h := NewEntry(seqNo, input, prevHash, p), HashOf(NewBase(seqNo, input, prevHash), p);
            && e.Object? && |e.fields| == (if IsCheckpoint(seqNo, input.kind) then 7 else 6)
            && e.fields[0] == Field("seq", Number(seqNo)) && e.fields[1] == Field("ts", Text(input.ts))
            && e.fields[2] == Field("type", Text(input.kind)) && e.fields[3] == Field("details", input.details)
            && e.fields[4] == Field("prevHash", Text(prevHash)) && e.fields[5] == Field("hash", Text(h))
            && (IsCheckpoint(seqNo, input.kind) ==> e.fields[6] == Field("checkpointSig", Text(p.sign(h))))
            && DistinctKeys(e.fields)
  {
    hide HashOf, IsCheckpoint;
  }

  lemma {:induction false} WithoutAppend(a: seq<Field>, b: seq<Field>)
    ensures Without(a + b) == Without(a) + Without(b)
  {
    if a == [] {
      assert a + b == b;
    } else {
      assert (a + b)[1..] == a[1..] + b && (a + b)[0] == a[0];
      WithoutAppend(a[1..], b);
    }
  }

  lemma {:induction false} WithoutKeeps(a: seq<Field>)
    requires forall f <- a :: f.key != "hash" && f.key != "checkpointSig"
    ensures Without(a) == a
  {
    if a != [] {
      WithoutKeeps(a[1..]);
    }
  }

  lemma WithoutNew(seqNo: int, input: Input, prevHash: string, p: Primitives)
    ensures Base(NewEntry(seqNo, input, prevHash, p)) == NewBase(seqNo, input, prevHash)
  {
    hide HashOf, IsCheckpoint;
    var base := NewBase(seqNo, input, prevHash);
    var hash := HashOf(base, p);
    var extra := [Field("hash", Text(hash))] + if IsCheckpoint(seqNo, input.kind) then [Field("checkpointSig", Text(p.sign(hash)))] else [];
    assert NewEntry(seqNo, input, prevHash, p).fields == base.fields + extra;
    WithoutAppend(base.fields, extra);
    WithoutKeeps(base.fields);
    assert Without(extra[1..]) == [];
  }

  lemma EntryWellFormed(seqNo: int, input: Input, prevHash: string, p: Primitives)
    requires WellFormed(input.details)
    ensures WellFormed(NewEntry(seqNo, input, prevHash, p))
  {
    hide HashOf, IsCheckpoint;
    EntryShape(seqNo, input, prevHash, p);
    hide NewEntry, NewBase, DistinctKeys;
    var e := NewEntry(seqNo, input, prevHash, p);
    assert forall i :: 0 <= i < |e.fields| ==> WellFormed(e.fields[i].value);
  }

  lemma {:induction false} LogWellFormed(inputs: seq<Input>, p: Primitives)
    requires Storable(inputs)
    ensures AllWellFormed(Log(inputs, p))
  {
    if inputs != [] {
      hide NewEntry;
      var front := inputs[..|inputs| - 1];
      LogWellFormed(front, p);
      EntryWellFormed(|inputs|, inputs[|inputs| - 1], LastHash(Log(front, p), p), p);
    }
  }

  lemma {:induction false} WireMore(messages: seq<Json>, m: Json)
    ensures Wire(messages + [m]) == Wire(messages) + Stringify(m) + ['\n']
  {
    hide Stringify;
    if messages == [] {
      assert messages + [m] == [m] && [m][1..] == [];
      assert Wire([m]) == Stringify(m) + ['\n'] + Wire([]);
    } else {
      WireMore(messages[1..], m);
      var all, line := messages + [m], Stringify(messages[0]) + ['\n'];
      assert all[1..] == messages[1..] + [m] && all[0] == messages[0];
      assert Wire(all) == line + Wire(messages[1..] + [m]) && Wire(messages) == line + Wire(messages[1..]);
      hide Wire;
      assert line + (Wire(messages[1..]) + Stringify(m) + ['\n']) == (line + Wire(messages[1..])) + Stringify(m) + ['\n'];
    }
  }

  lemma {:induction false} ValuesOfMessages(messages: seq<Json>)
    ensures Values(Messages(messages)) == messages
  {
    if messages != [] {
      ValuesOfMessages(messages[1..]);
    }
  }

  /** A file of whole lines is read back entry by entry. */
  lemma EntriesOfWire(messages: seq<Json>, p: Primitives)
    requires ReadsBack(p.parse) && AllWellFormed(messages)
    ensures Entries(Wire(messages), p) == messages
  {
    var file := Wire(messages);
    WireReadsBack(messages, p.parse);
    ValuesOfMessages(messages);
    assert Split(file, '\n') == Complete(file) + [Partial(file)];
    hide Split, Stringify, Wire, Complete, Partial;
    EmitAppend(Complete(file), [Partial(file)], p.parse);
    assert EmitAll([""], p.parse) == [];
    assert Messages(messages) + [] == Messages(messages);
  }

  lemma InputsStorable(events: seq<Event>)
    requires events != [] && Storable(Inputs(events))
    ensures Storable(Inputs(events[..|events| - 1]))
  {
    var front, all := Inputs(events[..|events| - 1]), Inputs(events);
    assert forall i :: 0 <= i < |front| ==> front[i] == all[i];
  }

  /** After any appends and restarts the file holds the log of the inputs and the process knows its last number and hash: restarts leave no trace. */
  lemma {:induction false} RestartsInvisible(events: seq<Event>, p: Primitives)
    requires Sound(p) && Storable(Inputs(events))
    ensures var log := Log(Inputs(events), p);
            After(events, p) == Some(State(Wire(log), |log|, LastHash(log, p)))
  {
    hide Stringify, WellFormed, HashOf, Wire;
    if events == [] {
      EmptyWire();
    } else {
      var front, e := events[..|events| - 1], events[|events| - 1];
      InputsStorable(events);
      RestartsInvisible(front, p);
      var log := Log(Inputs(front), p);
      if e.Write? {
        AppendExtends(Inputs(front), e.input, p);
      } else {
        assert Inputs(events) == Inputs(front);
        ResumeWhole(Inputs(front), p);
      }
    }
  }

  lemma EmptyWire()
    ensures Wire([]) == ""
  {
  }

  lemma AppendExtends(inputs: seq<Input>, input: Input, p: Primitives)
    ensures var log, more := Log(inputs, p), Log(inputs + [input], p);
            Appended(State(Wire(log), |log|, LastHash(log, p)), input, p) == State(Wire(more), |more|, LastHash(more, p))
  {
    hide Stringify, HashOf;
    var log, more := Log(inputs, p), Log(inputs + [input], p);
    assert (inputs + [input])[..|inputs|] == inputs;
    var e := NewEntry(|log| + 1, input, LastHash(log, p), p);
    assert more == log + [e];
    WireMore(log, e);
    WithoutNew(|log| + 1, input, LastHash(log, p), p);
    hide NewEntry, NewBase, Wire, Log, Base;
  }

  lemma ResumeWhole(inputs: seq<Input>, p: Primitives)
    requires Sound(p) && Storable(inputs)
    ensures var log := Log(inputs, p); Resumed(Wire(log), p) == Some(State(Wire(log), |log|, LastHash(log, p)))
  {
    var log := Log(inputs, p);
    LogWellFormed(inputs, p);
    EntriesOfWire(log, p);
    hide Entries, WellFormed, HashOf;
    if inputs != [] {
      var front := Log(inputs[..|inputs| - 1], p);
      EntryFields(|inputs|, inputs[|inputs| - 1], LastHash(front, p), p);
      hide NewEntry, NewBase, Get, Base;
    }
  }

  lemma {:induction false} LogAt(inputs: seq<Input>, p: Primitives, i: nat)
    requires i < |inputs|
    ensures Log(inputs, p)[..i] == Log(inputs[..i], p)
    ensures Log(inputs, p)[i] == NewEntry(i + 1, inputs[i], LastHash(Log(inputs[..i], p), p), p)
  {
    hide NewEntry, LastHash;
    var n := |inputs| - 1;
    var log, front := Log(inputs, p), Log(inputs[..n], p);
    if i < n {
      LogAt(inputs[..n], p, i);
      assert inputs[..n][..i] == inputs[..i];
      assert log[..i] == front[..i];
    } else {
      assert log[..n] == front;
    }
  }

  lemma LogChained(inputs: seq<Input>, p: Primitives)
    requires Sound(p)
    ensures Chained(Log(inputs, p), p)
  {
    var log := Log(inputs, p);
    forall i | 0 <= i < |log|
      ensures Check(log[i], LastHash(log[..i], p), p) == None
    {
      LogAt(inputs, p, i);
      NewEntryChecks(i + 1, inputs[i], LastHash(log[..i], p), p);
    }
  }

  lemma NewEntryChecks(seqNo: int, input: Input, prevHash: string, p: Primitives)
    requires Sound(p)
    ensures Check(NewEntry(seqNo, input, prevHash, p), prevHash, p) == None
  {
    EntryFields(seqNo, input, prevHash, p);
    hide NewEntry, NewBase, Get, HashOf, Base;
  }

  /** Under one key, after any appends and restarts, `verify` is valid with the exact count. */
  lemma AlwaysVerifies(events: seq<Event>, p: Primitives)
    requires Sound(p) && Storable(Inputs(events))
    ensures After(events, p).Some?
    ensures VerdictOn(Entries(After(events, p).value.file, p), p) == Valid(|Inputs(events)|)
  {
    hide Entries, VerdictOn, Chained, WellFormed;
    var log := Log(Inputs(events), p);
    RestartsInvisible(events, p);
    LogWellFormed(Inputs(events), p);
    EntriesOfWire(log, p);
    LogChained(Inputs(events), p);
    VerifyExactly(log, p);
  }

  lemma SignedExactly(seqNo: nat, kind: string)
    ensures IsCheckpoint(seqNo, kind) <==>
            seqNo % 100 == 0 || kind in {
              "plugin.trust", "plugin.untrust", "grant.create", "grant.revoke", "plan.approve", "plan.revoke", "key.rotate", "key.import",
              "powerful.execute", "secret.set", "secret.unset", "plugin.invoke.refused", "framework.uninstall"}
  {
  }

  /** The i-th entry of the file records the i-th input under its number, and is signed exactly if it is a hundredth or security-relevant. */
  lemma EntryRecordsInput(events: seq<Event>, p: Primitives, i: nat)
    requires Sound(p) && Storable(Inputs(events)) && i < |Inputs(events)|
    ensures After(events, p).Some? && |Entries(After(events, p).value.file, p)| == |Inputs(events)|
    ensures var e, input := Entries(After(events, p).value.file, p)[i], Inputs(events)[i];
            && Get(e, "seq") == Some(Number(i + 1)) && Get(e, "type") == Some(Text(input.kind))
            && Get(e, "ts") == Some(Text(input.ts)) && Get(e, "details") == Some(input.details)
            && (Get(e, "checkpointSig").Some? <==>
                (i + 1) % 100 == 0 || input.kind in {
                  "plugin.trust", "plugin.untrust", "grant.create", "grant.revoke", "plan.approve", "plan.revoke", "key.rotate", "key.import",
                  "powerful.execute", "secret.set", "secret.unset", "plugin.invoke.refused", "framework.uninstall"})
            && (Get(e, "checkpointSig").Some? ==> Get(e, "checkpointSig") == Some(Text(p.sign(HashOf(Base(e), p)))))
  {
    var inputs := Inputs(events);
    var log := Log(inputs, p);
    assert Entries(After(events, p).value.file, p) == log && After(events, p).Some? by {
      hide *;
      RestartsInvisible(events, p);
      LogWellFormed(inputs, p);
      EntriesOfWire(log, p);
    }
    LogAt(inputs, p, i);
    EntryFields(i + 1, inputs[i], LastHash(Log(inputs[..i], p), p), p);
    hide NewEntry, NewBase, Get, HashOf, Base, Entries, After, Log, WellFormed, Inputs, IsCheckpoint;
    SignedExactly(i + 1, inputs[i].kind);
  }

  // ---------- tampering ----------

  /** No two texts share a digest and none digests to the genesis value. */
  ghost predicate CollisionFree(p: Primitives) {
    && (forall a, b :: p.sha(a) == p.sha(b) ==> a == b)
    && (forall a :: p.sha(a) != GENESIS)
  }

  lemma {:induction false} KeyKept(fields: seq<Field>, key: string)
    requires key != "hash" && key != "checkpointSig"
    ensures Get(Object(Without(fields)), key) == Get(Object(fields), key)
  {
    hide Get;
    if fields != [] {
      var first, rest := fields[0], fields[1..];
      KeyKept(rest, key);
      assert fields == [first] + rest;
      GetStep(first, rest, key);
      GetStep(first, Without(rest), key);
      assert [] + Without(rest) == Without(rest);
    }
  }

  lemma {:induction false} KeysStayDistinct(fields: seq<Field>)
    requires DistinctKeys(fields)
    ensures DistinctKeys(Without(fields))
  {
    if fields != [] {
      KeysStayDistinct(fields[1..]);
      var r := Without(fields[1..]);
      forall f <- r
        ensures f.key != fields[0].key
      {
        var i :| 0 <= i < |fields[1..]| && fields[1..][i] == f;
        assert fields[i + 1] == f;
      }
    }
  }

  lemma GetStep(first: Field, rest: seq<Field>, key: string)
    ensures Get(Object([first] + rest), key) == if first.key == key then Some(first.value) else Get(Object(rest), key)
  {
    var all := [first] + rest;
    assert all[1..] == rest;
    assert Keys(all)[0] == first.key;
    assert Keys(all) == [first.key] + Keys(rest);
  }

  lemma BaseWellFormed(j: Json)
    requires WellFormed(j)
    ensures WellFormed(Base(j))
  {
    if j.Object? {
      KeysStayDistinct(j.fields);
      var r := Without(j.fields);
      forall i | 0 <= i < |r|
        ensures WellFormed(r[i].value)
      {
        assert r[i] in j.fields;
      }
    }
  }

  /** Equivalent objects agree on a text field. */
  lemma EquivalentText(a: Json, b: Json, key: string, v: string)
    requires WellFormed(a) && WellFormed(b) && Equivalent(a, b) && Get(a, key) == Some(Text(v))
    ensures Get(b, key) == Some(Text(v))
  {
    hide Lookup;
    var i := IndexOf(a.fields, key);
    LookupOwn(a.fields, i);
    assert Equivalent(a.fields[i].value, Lookup(b.fields, a.fields[i].key));
  }

  /** The same for what is left without `__proto__` members. */
  lemma BareText(j: Json, key: string, v: string)
    requires WellFormed(j) && j.Object? && key != PROTO
    ensures Get(Bare(j), key) == Some(Text(v)) <==> Get(j, key) == Some(Text(v))
  {
    hide Lookup, Kept;
    BareLookup(j.fields, key);
    if key in Keys(j.fields) {
      BareIsText(Lookup(j.fields, key), v);
    }
  }

  lemma BareIsText(j: Json, v: string)
    ensures Bare(j) == Text(v) <==> j == Text(v)
  {
  }

  /** Equal up to signatures, key order and `__proto__` members, at every depth. */
  ghost predicate SameRecord(x: Json, y: Json) {
    x.Object? && y.Object? && Equivalent(Bare(Base(x)), Bare(Base(y))) && Get(x, "hash") == Get(y, "hash")
  }

  ghost predicate SameRecords(a: seq<Json>, b: seq<Json>) {
    |a| == |b| && forall i :: 0 <= i < |a| ==> SameRecord(a[i], b[i])
  }

  lemma AcceptedIsObject(x: Json, prevHash: string, p: Primitives)
    requires Check(x, prevHash, p) == None
    ensures x.Object?
  {
  }

  /** Two records that say the same have the same digest and follow the same hash. */
  lemma SameRecordAgrees(x: Json, y: Json, prevHash: string, p: Primitives)
    requires WellFormed(x) && WellFormed(y) && SameRecord(x, y)
    ensures HashOf(Base(x), p) == HashOf(Base(y), p)
    ensures Get(x, "prevHash") == Some(Text(prevHash)) ==> Get(y, "prevHash") == Some(Text(prevHash))
  {
    assert |"prevHash"| == 8 && |PROTO| == 9;
    BaseWellFormed(x);
    BaseWellFormed(y);
    KeyKept(x.fields, "prevHash");
    KeyKept(y.fields, "prevHash");
    hide Equivalent, Get, CanonicalText, Bare, Without, SortKeys;
    BareText(Base(x), "prevHash", prevHash);
    BareText(Base(y), "prevHash", prevHash);
    BareWellFormed(Base(x));
    BareWellFormed(Base(y));
    hide WellFormed;
    CanonicalTextIdentifies(Base(x), Base(y));
    if Get(x, "prevHash") == Some(Text(prevHash)) {
      EquivalentText(Bare(Base(x)), Bare(Base(y)), "prevHash", prevHash);
    }
  }

  /** Two accepted entries with the same hash say the same and follow the same hash. */
  lemma SameHashSameEntry(x: Json, y: Json, u: string, w: string, p: Primitives)
    requires CollisionFree(p) && WellFormed(x) && WellFormed(y)
    requires Check(x, u, p) == None && Check(y, w, p) == None && HashOf(Base(x), p) == HashOf(Base(y), p)
    ensures SameRecord(x, y) && u == w
  {
    AcceptedIsObject(x, u, p);
    AcceptedIsObject(y, w, p);
    BaseWellFormed(x);
    BaseWellFormed(y);
    hide WellFormed, Equivalent, Get, CanonicalText, Bare, Base;
    CanonicalTextIdentifies(Base(x), Base(y));
    assert Get(x, "hash") == Get(y, "hash");
    assert SameRecord(x, y);
    SameRecordAgrees(x, y, u, p);
  }

  /** Two accepted logs with the same last hash hold the same records. */
  lemma {:induction false} LastHashFixesLog(a: seq<Json>, b: seq<Json>, p: Primitives)
    requires CollisionFree(p) && AllWellFormed(a) && AllWellFormed(b) && Chained(a, p) && Chained(b, p)
    requires LastHash(a, p) == LastHash(b, p)
    ensures SameRecords(a, b)
  {
    hide *;
    NotGenesis(a, p);
    NotGenesis(b, p);
    if a != [] && b != [] {
      var m, n := |a| - 1, |b| - 1;
      ChainedFront(a, p);
      ChainedFront(b, p);
      SameHashSameEntry(a[m], b[n], LastHash(a[..m], p), LastHash(b[..n], p), p);
      LastHashFixesLog(a[..m], b[..n], p);
      SameSnoc(a, b);
    } else {
      NothingTheSame();
    }
  }

  lemma NothingTheSame()
    ensures SameRecords([], [])
  {
  }

  lemma SameSnoc(a: seq<Json>, b: seq<Json>)
    requires a != [] && b != []
    requires SameRecords(a[..|a| - 1], b[..|b| - 1]) && SameRecord(a[|a| - 1], b[|b| - 1])
    ensures SameRecords(a, b)
  {
    hide SameRecord;
    var m := |a| - 1;
    assert forall i :: 0 <= i < m ==> a[i] == a[..m][i] && b[i] == b[..m][i];
  }

  lemma NotGenesis(a: seq<Json>, p: Primitives)
    requires CollisionFree(p)
    ensures LastHash(a, p) == GENESIS <==> a == []
  {
    hide CanonicalText;
  }

  lemma ChainedFront(a: seq<Json>, p: Primitives)
    requires Chained(a, p) && AllWellFormed(a) && a != []
    ensures var n := |a| - 1;
            && Chained(a[..n], p) && AllWellFormed(a[..n]) && WellFormed(a[n])
            && Check(a[n], LastHash(a[..n], p), p) == None && LastHash(a, p) == HashOf(Base(a[n]), p)
  {
    hide Check, WellFormed, HashOf, Base;
    var front := a[..|a| - 1];
    assert forall i :: 0 <= i < |front| ==> front[i] == a[i] && front[..i] == a[..i];
  }

  /** An entry without a signature, or with one that checks. */
  predicate SignatureFits(e: Json, p: Primitives) {
    var sig := Get(e, "checkpointSig");
    sig.Some? ==> p.checks(HashOf(Base(e), p), sig.value)
  }

  /** The last hash depends on the records alone. */
  lemma SameLastHash(a: seq<Json>, b: seq<Json>, p: Primitives)
    requires AllWellFormed(a) && AllWellFormed(b) && SameRecords(a, b)
    ensures LastHash(a, p) == LastHash(b, p)
  {
    hide WellFormed, SameRecord, HashOf, Base;
    if a != [] {
      SameRecordAgrees(a[|a| - 1], b[|b| - 1], "", p);
    }
  }

  lemma AlikeChecks(x: Json, y: Json, prevHash: string, p: Primitives)
    requires WellFormed(x) && WellFormed(y) && SameRecord(x, y) && SignatureFits(y, p) && Check(x, prevHash, p) == None
    ensures Check(y, prevHash, p) == None
  {
    hide WellFormed, Equivalent, HashOf, Base, Bare, Get;
    SameRecordAgrees(x, y, prevHash, p);
  }

  /** A log with the records of an accepted one, whose signatures fit as far as there are any, is accepted. */
  lemma AcceptedAlike(a: seq<Json>, b: seq<Json>, p: Primitives)
    requires AllWellFormed(a) && AllWellFormed(b) && SameRecords(a, b) && Chained(a, p)
    requires forall i :: 0 <= i < |b| ==> SignatureFits(b[i], p)
    ensures Chained(b, p) && LastHash(b, p) == LastHash(a, p)
  {
    hide WellFormed, SameRecord, SignatureFits, Check, LastHash;
    SameLastHash(a, b, p);
    forall i | 0 <= i < |b|
      ensures Check(b[i], LastHash(b[..i], p), p) == None
    {
      SameLastHash(a[..i], b[..i], p);
      AlikeChecks(a[i], b[i], LastHash(a[..i], p), p);
    }
  }

  lemma AcceptedSignatures(a: seq<Json>, p: Primitives)
    requires Chained(a, p)
    ensures forall i :: 0 <= i < |a| ==> SignatureFits(a[i], p)
  {
    hide HashOf, Base, Get, LastHash;
    forall i | 0 <= i < |a|
      ensures SignatureFits(a[i], p)
    {
      assert Check(a[i], LastHash(a[..i], p), p) == None;
    }
  }

  /** Tampering, exactly: a log passes for an accepted one, with its last hash, if and only if it holds the same records and no signature that does not fit. */
  lemma PassesForExactly(a: seq<Json>, b: seq<Json>, p: Primitives)
    requires CollisionFree(p) && AllWellFormed(a) && AllWellFormed(b) && Chained(a, p)
    ensures Chained(b, p) && LastHash(b, p) == LastHash(a, p) <==>
            SameRecords(a, b) && forall i :: 0 <= i < |b| ==> SignatureFits(b[i], p)
  {
    hide *;
    if Chained(b, p) && LastHash(b, p) == LastHash(a, p) {
      LastHashFixesLog(a, b, p);
      AcceptedSignatures(b, p);
    }
    if SameRecords(a, b) && forall i :: 0 <= i < |b| ==> SignatureFits(b[i], p) {
      AcceptedAlike(a, b, p);
    }
  }

  /** Without `__proto__` members two accepted logs with one last hash are equal up to signatures and key order. */
  lemma LogsAgreeWithoutProto(a: seq<Json>, b: seq<Json>, p: Primitives)
    requires CollisionFree(p) && AllWellFormed(a) && AllWellFormed(b) && Chained(a, p) && Chained(b, p)
    requires LastHash(a, p) == LastHash(b, p)
    requires forall i :: 0 <= i < |a| ==> ProtoFree(a[i])
    requires forall i :: 0 <= i < |b| ==> ProtoFree(b[i])
    ensures |a| == |b| && forall i :: 0 <= i < |a| ==> Equivalent(Base(a[i]), Base(b[i])) && Get(a[i], "hash") == Get(b[i], "hash")
  {
    hide WellFormed, Chained, LastHash, CollisionFree, Equivalent, Base, Bare, ProtoFree;
    LastHashFixesLog(a, b, p);
    forall i | 0 <= i < |a|
      ensures Equivalent(Base(a[i]), Base(b[i]))
    {
      assert SameRecord(a[i], b[i]);
      BaseProtoFree(a[i]);
      BaseProtoFree(b[i]);
      ProtoFreeIsBare(Base(a[i]));
      ProtoFreeIsBare(Base(b[i]));
    }
  }

  lemma BaseProtoFree(j: Json)
    requires ProtoFree(j)
    ensures ProtoFree(Base(j))
  {
    if j.Object? {
      var r := Without(j.fields);
      forall i | 0 <= i < |r|
        ensures r[i].key != PROTO && ProtoFree(r[i].value)
      {
        assert r[i] in j.fields;
      }
    }
  }

  // ---------- what acceptance does not give ----------

  lemma EquivalentSelf(j: Json)
    requires WellFormed(j)
    ensures Equivalent(j, j)
  {
    CanonicalForms(j, j);
  }

  lemma {:induction false} KeptAppend(a: seq<Field>, b: seq<Field>)
    ensures Kept(a + b) == Kept(a) + Kept(b)
  {
    if a == [] {
      assert a + b == b;
    } else {
      assert (a + b)[1..] == a[1..] + b && (a + b)[0] == a[0];
      KeptAppend(a[1..], b);
    }
  }

  /** The entry with one more member called `__proto__`. */
  function WithProto(e: Json, v: Json): Json
    requires e.Object?
  {
    Object(e.fields + [Field(PROTO, v)])
  }

  lemma ProtoLooksUp(e: Json, v: Json, key: string)
    requires e.Object? && key != PROTO
    ensures Get(WithProto(e, v), key) == Get(e, key)
  {
    AppendedLookup(e.fields, Field(PROTO, v), key);
  }

  lemma {:induction false} AppendedLookup(fields: seq<Field>, f: Field, key: string)
    requires key != f.key
    ensures Get(Object(fields + [f]), key) == Get(Object(fields), key)
  {
    hide Get;
    if fields == [] {
      assert [] + [f] == [f] + [];
      GetStep(f, [], key);
    } else {
      AppendedLookup(fields[1..], f, key);
      GetStep(fields[0], fields[1..] + [f], key);
      GetStep(fields[0], fields[1..], key);
      assert [fields[0]] + (fields[1..] + [f]) == fields + [f] && [fields[0]] + fields[1..] == fields;
    }
  }

  lemma ProtoWellFormed(e: Json, v: Json)
    requires e.Object? && WellFormed(e) && WellFormed(v) && PROTO !in Keys(e.fields)
    ensures WellFormed(WithProto(e, v))
  {
    var all := WithProto(e, v).fields;
    forall i, k | 0 <= i < k < |all|
      ensures all[i].key != all[k].key
    {
      if k == |e.fields| {
        assert Keys(e.fields)[i] == all[i].key;
      }
    }
  }

  /** The added member changes neither what is hashed nor any field that is looked at. */
  lemma ProtoSameRecord(e: Json, v: Json)
    requires e.Object? && WellFormed(e)
    ensures SameRecord(e, WithProto(e, v))
  {
    hide WellFormed, Equivalent, Get;
    var f := Field(PROTO, v);
    assert |PROTO| == 9 && |"hash"| == 4 && PROTO[0] == '_' && |"checkpointSig"| == 13;
    WithoutAppend(e.fields, [f]);
    assert Without([f]) == [f] by {
      assert [f][1..] == [];
    }
    KeptAppend(Without(e.fields), [f]);
    assert Kept([f]) == [] by {
      assert [f][1..] == [];
    }
    hide Without, Kept;
    assert Kept(Without(e.fields) + [f]) == Kept(Without(e.fields));
    assert Bare(Base(WithProto(e, v))) == Bare(Base(e));
    BaseWellFormed(e);
    BareWellFormed(Base(e));
    EquivalentSelf(Bare(Base(e)));
    ProtoLooksUp(e, v, "hash");
  }

  /** The tampered line: any entry of an accepted log may gain a `__proto__` member, and `verify` accepts the log as before, with the same last hash. */
  lemma ProtoMemberUnseen(a: seq<Json>, i: nat, v: Json, p: Primitives)
    requires AllWellFormed(a) && Chained(a, p) && i < |a| && WellFormed(v)
    requires a[i].Object? ==> PROTO !in Keys(a[i].fields)
    ensures a[i].Object?
    ensures var b := a[i := WithProto(a[i], v)];
            b != a && Chained(b, p) && LastHash(b, p) == LastHash(a, p) && VerdictOn(b, p) == Valid(|a|)
  {
    hide Base, Bare, Equivalent, Get, LastHash, HashOf, VerdictOn, WellFormed;
    assert Check(a[i], LastHash(a[..i], p), p) == None;
    AcceptedIsObject(a[i], LastHash(a[..i], p), p);
    hide Check;
    var e := WithProto(a[i], v);
    var b := a[i := e];
    ProtoWellFormed(a[i], v);
    ProtoSameRecord(a[i], v);
    AcceptedSignatures(a, p);
    SelfRecords(a, p);
    ProtoSignature(a[i], v, p);
    hide SameRecord, SignatureFits, Chained;
    AcceptedAlike(a, b, p);
    VerifyExactly(b, p);
    assert |e.fields| != |a[i].fields|;
  }

  lemma ProtoSignature(e: Json, v: Json, p: Primitives)
    requires e.Object? && WellFormed(e) && WellFormed(v) && PROTO !in Keys(e.fields) && SignatureFits(e, p)
    ensures SignatureFits(WithProto(e, v), p)
  {
    hide Get, HashOf, Base, WellFormed, SameRecord;
    assert |PROTO| == 9 && |"checkpointSig"| == 13;
    ProtoLooksUp(e, v, "checkpointSig");
    ProtoSameRecord(e, v);
    ProtoWellFormed(e, v);
    SameRecordAgrees(e, WithProto(e, v), "", p);
  }

  lemma SelfRecords(a: seq<Json>, p: Primitives)
    requires AllWellFormed(a) && Chained(a, p)
    ensures SameRecords(a, a)
  {
    hide Base, Bare, Equivalent, Get, LastHash, HashOf, Check;
    forall i | 0 <= i < |a|
      ensures SameRecord(a[i], a[i])
    {
      AcceptedIsObject(a[i], LastHash(a[..i], p), p);
      BaseWellFormed(a[i]);
      BareWellFormed(Base(a[i]));
      EquivalentSelf(Bare(Base(a[i])));
    }
  }

  /** The entry without its signature. */
  function Unsigned(e: Json): Json { if e.Object? then Object(WithoutSignature(e.fields)) else e }

  function WithoutSignature(fields: seq<Field>): (r: seq<Field>)
    ensures forall f <- r :: f in fields && f.key != "checkpointSig"
  {
    if fields == [] then []
    else (if fields[0].key == "checkpointSig" then [] else [fields[0]]) + WithoutSignature(fields[1..])
  }

  function AllUnsigned(a: seq<Json>): (r: seq<Json>)
    ensures |r| == |a| && forall i :: 0 <= i < |r| ==> r[i] == Unsigned(a[i])
  {
    seq(|a|, i requires 0 <= i < |a| => Unsigned(a[i]))
  }

  lemma {:induction false} UnsignedBase(fields: seq<Field>)
    ensures Without(WithoutSignature(fields)) == Without(fields)
  {
    if fields != [] {
      UnsignedBase(fields[1..]);
      var rest := WithoutSignature(fields[1..]);
      assert ([fields[0]] + rest)[1..] == rest && [] + rest == rest;
    }
  }

  lemma {:induction false} UnsignedDistinct(fields: seq<Field>)
    requires DistinctKeys(fields)
    ensures DistinctKeys(WithoutSignature(fields))
  {
    if fields != [] {
      UnsignedDistinct(fields[1..]);
      var rest := WithoutSignature(fields[1..]);
      forall f <- rest
        ensures f.key != fields[0].key
      {
        var i :| 0 <= i < |fields[1..]| && fields[1..][i] == f;
        assert fields[i + 1] == f;
      }
    }
  }

  lemma {:induction false} UnsignedLookup(fields: seq<Field>, key: string)
    ensures Get(Object(WithoutSignature(fields)), key) == if key == "checkpointSig" then None else Get(Object(fields), key)
  {
    if fields != [] {
      hide Get;
      UnsignedLookup(fields[1..], key);
      GetStep(fields[0], fields[1..], key);
      GetStep(fields[0], WithoutSignature(fields[1..]), key);
      assert [fields[0]] + fields[1..] == fields;
      assert [] + WithoutSignature(fields[1..]) == WithoutSignature(fields[1..]);
    }
  }

  lemma UnsignedRecord(e: Json, p: Primitives)
    requires e.Object? && WellFormed(e)
    ensures WellFormed(Unsigned(e)) && SameRecord(e, Unsigned(e)) && SignatureFits(Unsigned(e), p)
  {
    hide Equivalent, Get, Bare, HashOf, Without, WithoutSignature;
    UnsignedBase(e.fields);
    UnsignedDistinct(e.fields);
    UnsignedLookup(e.fields, "hash");
    UnsignedLookup(e.fields, "checkpointSig");
    assert |"hash"| == 4 && |"checkpointSig"| == 13;
    var r := WithoutSignature(e.fields);
    forall i | 0 <= i < |r|
      ensures WellFormed(r[i].value)
    {
      assert r[i] in e.fields;
    }
    BaseWellFormed(e);
    BareWellFormed(Base(e));
    EquivalentSelf(Bare(Base(e)));
  }

  /** Acceptance does not protect signatures: an accepted log with every signature removed is accepted, with the same last hash. */
  lemma SignaturesRemovable(a: seq<Json>, p: Primitives)
    requires AllWellFormed(a) && Chained(a, p)
    ensures var b := AllUnsigned(a);
            Chained(b, p) && LastHash(b, p) == LastHash(a, p) && VerdictOn(b, p) == Valid(|a|)
  {
    hide Unsigned, SameRecord, SignatureFits, WellFormed, Check, LastHash, VerdictOn;
    var b := AllUnsigned(a);
    forall i | 0 <= i < |a|
      ensures WellFormed(b[i]) && SameRecord(a[i], b[i]) && SignatureFits(b[i], p)
    {
      AcceptedIsObject(a[i], LastHash(a[..i], p), p);
      UnsignedRecord(a[i], p);
    }
    hide Chained;
    AcceptedAlike(a, b, p);
    VerifyExactly(b, p);
  }

  /** Nor length: an accepted log cut after any entry is accepted. */
  lemma CutAccepted(a: seq<Json>, k: nat, p: Primitives)
    requires Chained(a, p) && k <= |a|
    ensures Chained(a[..k], p) && VerdictOn(a[..k], p) == Valid(k)
  {
    hide Check, LastHash, VerdictOn;
    assert forall i :: 0 <= i < k ==> a[..k][i] == a[i] && a[..k][..i] == a[..i];
    VerifyExactly(a[..k], p);
  }
}

/**
 Newline-delimited JSON framing (packages/pluginhost/src/ndjson.ts). JSON.parse is a parameter.
 */
module Ndjson {
  import opened Options
  import opened Strings
  import opened Decimals
  import opened CanonicalJson

  type Parser = string -> Option<Json>

  datatype Emission = Message(value: Json) | Error(line: string)

  /** The characters JavaScript's `trim` removes. */
  predicate IsSpace(c: char) {
    var u := c as int;
    9 <= u <= 13 || u == 0x20 || u == 0xa0 || u == 0x1680 || 0x2000 <= u <= 0x200a
    || u == 0x2028 || u == 0x2029 || u == 0x202f || u == 0x205f || u == 0x3000 || u == 0xfeff
  }

  predicate Blank(line: string) { forall i :: 0 <= i < |line| ==> IsSpace(line[i]) }

  /** What one complete line gives. */
  function Emit(line: string, parse: Parser): seq<Emission> {
    if Blank(line) then []
    else if parse(line).Some? then [Message(parse(line).value)] else [Error(line)]
  }

  function EmitAll(lines: seq<string>, parse: Parser): seq<Emission> {
    if lines == [] then [] else Emit(lines[0], parse) + EmitAll(lines[1..], parse)
  }

  /** The newline-terminated lines of a stream. */
  function Complete(s: string): seq<string> {
    var parts := Split(s, '\n');
    parts[..|parts| - 1]
  }

  /** What follows the last newline. */
  function Partial(s: string): string {
    var parts := Split(s, '\n');
    parts[|parts| - 1]
  }

  datatype Reader = Reader(buffer: string, emitted: seq<Emission>)

  function Receive(r: Reader, chunk: string, parse: Parser): Reader {
    Reader(Partial(r.buffer + chunk), r.emitted + EmitAll(Complete(r.buffer + chunk), parse))
  }

  method Find(s: string, c: char) returns (i: int)
    ensures i == -1 ==> c !in s
    ensures i != -1 ==> 0 <= i < |s| && s[i] == c && c !in s[..i]
  {
    i := 0;
    while i < |s|
      invariant 0 <= i <= |s| && c !in s[..i]
    {
      if s[i] == c {
        return;
      }
      i := i + 1;
    }
    i := -1;
  }

  class NdjsonReader {
    const parse: Parser
    var buffer: string
    var emitted: seq<Emission>

    ghost function Now(): Reader
      reads this
    {
      Reader(buffer, emitted)
    }

    constructor (parse: Parser)
      ensures Now() == Reader("", []) && this.parse == parse
    {
      this.parse := parse;
      buffer, emitted := "", [];
    }

    method OnData(chunk: string)
      modifies this
      ensures Now() == Receive(old(Now()), chunk, parse)
    {
      hide EmitAll, Emit, Split, Blank;
      buffer := buffer + chunk;
      ghost var all := buffer;
      var idx := Find(buffer, '\n');
      assert emitted == old(emitted);
      while idx != -1
        invariant idx == -1 ==> '\n' !in buffer
        invariant idx != -1 ==> 0 <= idx < |buffer| && buffer[idx] == '\n' && '\n' !in buffer[..idx]
        invariant emitted + EmitAll(Complete(buffer), parse) == old(emitted) + EmitAll(Complete(all), parse)
        invariant Partial(buffer) == Partial(all)
        decreases |buffer|
      {
        var line := buffer[..idx];
        ghost var before := buffer;
        buffer := buffer[idx + 1..];
        assert before == line + ['\n'] + buffer;
        FirstLine(line, buffer, parse);
        ghost var sofar := emitted;
        if !Blank(line) {
          if parse(line).Some? {
            emitted := emitted + [Message(parse(line).value)];
          } else {
            emitted := emitted + [Error(line)];
          }
        }
        Emitted(line, parse);
        assert sofar + EmitAll(Complete(before), parse) == (sofar + Emit(line, parse)) + EmitAll(Complete(buffer), parse);
        assert emitted == sofar + Emit(line, parse);
        idx := Find(buffer, '\n');
      }
      NoLine(buffer, parse);
    }
  }

  lemma Emitted(line: string, parse: Parser)
    ensures Emit(line, parse) == if Blank(line) then [] else if parse(line).Some? then [Message(parse(line).value)] else [Error(line)]
  {
  }

  lemma FirstLine(line: string, rest: string, parse: Parser)
    requires '\n' !in line
    ensures Complete(line + ['\n'] + rest) == [line] + Complete(rest)
    ensures Partial(line + ['\n'] + rest) == Partial(rest)
    ensures EmitAll(Complete(line + ['\n'] + rest), parse) == Emit(line, parse) + EmitAll(Complete(rest), parse)
  {
    hide Complete, Partial, Emit;
    SplitFirstLine(line, rest);
  }

  lemma NoLine(s: string, parse: Parser)
    requires '\n' !in s
    ensures Complete(s) == [] && Partial(s) == s && EmitAll(Complete(s), parse) == []
  {
    SplitNone(s);
  }

  // ---------- chunking ----------

  function Concat(chunks: seq<string>): string { if chunks == [] then "" else Concat(chunks[..|chunks| - 1]) + chunks[|chunks| - 1] }

  function ReceiveAll(chunks: seq<string>, parse: Parser): Reader {
    if chunks == [] then Reader("", []) else Receive(ReceiveAll(chunks[..|chunks| - 1], parse), chunks[|chunks| - 1], parse)
  }

  lemma {:induction false} EmitAppend(a: seq<string>, b: seq<string>, parse: Parser)
    ensures EmitAll(a + b, parse) == EmitAll(a, parse) + EmitAll(b, parse)
  {
    hide Emit;
    if a == [] {
      assert a + b == b;
    } else {
      EmitAppend(a[1..], b, parse);
      assert (a + b)[1..] == a[1..] + b && (a + b)[0] == a[0];
    }
  }

  /** Lines completed by later text are those of the kept partial line with that text. */
  lemma {:induction false} SplitLater(a: string, b: string)
    ensures Complete(a + b) == Complete(a) + Complete(Partial(a) + b)
    ensures Partial(a + b) == Partial(Partial(a) + b)
    decreases |a|
  {
    hide Split;
    if '\n' !in a {
      SplitNone(a);
    } else {
      var i := FirstNewline(a);
      var line, rest := a[..i], a[i + 1..];
      assert a == line + ['\n'] + rest && a + b == line + ['\n'] + (rest + b);
      SplitFirstLine(line, rest);
      SplitFirstLine(line, rest + b);
      SplitLater(rest, b);
    }
  }

  lemma SplitNone(a: string)
    requires '\n' !in a
    ensures Complete(a) == [] && Partial(a) == a
  {
    SplitWhole(a, '\n');
  }

  lemma SplitFirstLine(line: string, rest: string)
    requires '\n' !in line
    ensures Complete(line + ['\n'] + rest) == [line] + Complete(rest)
    ensures Partial(line + ['\n'] + rest) == Partial(rest)
  {
    hide Split;
    SplitPart(line, rest, '\n');
  }

  lemma FirstNewline(s: string) returns (i: nat)
    requires '\n' in s
    ensures i < |s| && s[i] == '\n' && '\n' !in s[..i]
  {
    i := 0;
    assert s[..|s|] == s;
    while s[i] != '\n'
      invariant i < |s| && '\n' !in s[..i]
      decreases |s| - i
    {
      i := i + 1;
      assert s[..i] == s[..i - 1] + [s[i - 1]];
    }
  }

  /** However the stream is cut into chunks, the reader emits what the whole stream's complete lines give, and keeps the rest. */
  lemma {:induction false} ChunkingInvisible(chunks: seq<string>, parse: Parser)
    ensures ReceiveAll(chunks, parse) == Reader(Partial(Concat(chunks)), EmitAll(Complete(Concat(chunks)), parse))
  {
    if chunks == [] {
      SplitNone("");
    } else {
      hide Complete, Partial;
      var front, last := chunks[..|chunks| - 1], chunks[|chunks| - 1];
      ChunkingInvisible(front, parse);
      SplitLater(Concat(front), last);
      EmitAppend(Complete(Concat(front)), Complete(Partial(Concat(front)) + last), parse);
    }
  }

  /** A line by itself: nothing if it is white space, the value JSON.parse makes of it, or the error with the line. */
  lemma LineEmits(line: string, parse: Parser)
    requires '\n' !in line
    ensures var r := ReceiveAll([line + ['\n']], parse);
            && r.buffer == ""
            && ((forall i :: 0 <= i < |line| ==> IsSpace(line[i])) ==> r.emitted == [])
            && (forall i :: 0 <= i < |line| && !IsSpace(line[i]) ==>
                 r.emitted == [if parse(line).Some? then Message(parse(line).value) else Error(line)])
  {
    hide IsSpace, Complete, Partial, Split;
    assert [line + ['\n']][..0] == [];
    assert "" + (line + ['\n']) == line + ['\n'] + "";
    FirstLine(line, "", parse);
    NoLine("", parse);
  }

  // ---------- writing ----------

  /** `writeNdjson`: one line a message. */
  function Wire(messages: seq<Json>): string {
    if messages == [] then "" else Stringify(messages[0]) + ['\n'] + Wire(messages[1..])
  }

  ghost predicate ReadsBack(parse: Parser) { forall j :: WellFormed(j) ==> parse(Stringify(j)) == Some(j) }

  ghost predicate AllWellFormed(messages: seq<Json>) { forall i :: 0 <= i < |messages| ==> WellFormed(messages[i]) }

  predicate Printable(s: string) { forall i :: 0 <= i < |s| ==> s[i] >= ' ' }

  lemma EscapeCharPrintable(c: char)
    ensures Printable(EscapeChar(c))
  {
  }

  lemma {:induction false} EscapePrintable(s: string)
    ensures Printable(Escape(s))
  {
    if s != "" {
      hide EscapeChar;
      EscapeCharPrintable(s[0]);
      EscapePrintable(s[1..]);
    }
  }

  lemma NumberPrintable(n: int)
    ensures Printable(IntText(n))
  {
    hide Value, Numeral;
  }

  lemma {:induction false} StringifyPrintable(j: Json)
    ensures Printable(Stringify(j))
    decreases j, 0
  {
    hide ItemsText, FieldsText, Escape, IntText;
    match j
    case Number(n) => NumberPrintable(n);
    case Text(s) => EscapePrintable(s);
    case Array(items) => ItemsPrintable(items);
    case Object(fields) => FieldsPrintable(fields);
    case _ =>
  }

  lemma {:induction false} ItemsPrintable(items: seq<Json>)
    ensures Printable(ItemsText(items))
    decreases items, 1
  {
    hide Stringify;
    if items != [] {
      StringifyPrintable(items[0]);
      ItemsPrintable(items[1..]);
    }
  }

  lemma {:induction false} FieldsPrintable(fields: seq<Field>)
    ensures Printable(FieldsText(fields))
    decreases fields, 1
  {
    hide Stringify, Escape;
    if fields != [] {
      EscapePrintable(fields[0].key);
      StringifyPrintable(fields[0].value);
      FieldsPrintable(fields[1..]);
    }
  }

  /** The text of a value is one line, and not a blank one. */
  lemma OneLine(j: Json)
    ensures '\n' !in Stringify(j) && !Blank(Stringify(j))
  {
    hide Stringify;
    StringifyPrintable(j);
    FirstChar(j);
    assert !IsSpace(Stringify(j)[0]);
  }

  function Messages(messages: seq<Json>): seq<Emission> {
    if messages == [] then [] else [Message(messages[0])] + Messages(messages[1..])
  }

  lemma {:induction false} WireReadsBack(messages: seq<Json>, parse: Parser)
    requires ReadsBack(parse) && AllWellFormed(messages)
    ensures EmitAll(Complete(Wire(messages)), parse) == Messages(messages) && Partial(Wire(messages)) == ""
  {
    if messages == [] {
      NoLine("", parse);
    } else {
      hide Stringify, Split, Blank;
      OneLine(messages[0]);
      FirstLine(Stringify(messages[0]), Wire(messages[1..]), parse);
      WireReadsBack(messages[1..], parse);
    }
  }

  /** Messages arrive exactly as sent: all of them, in order, once each, whatever the chunks. */
  lemma SentIsReceived(messages: seq<Json>, chunks: seq<string>, parse: Parser)
    requires ReadsBack(parse) && AllWellFormed(messages) && Concat(chunks) == Wire(messages)
    ensures ReceiveAll(chunks, parse) == Reader("", Messages(messages))
  {
    ChunkingInvisible(chunks, parse);
    WireReadsBack(messages, parse);
  }
}

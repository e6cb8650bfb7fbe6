/**
 The race that settles a plugin invocation (packages/pluginhost/src/child-runner.ts): timer, reply, exit and errors may come
 in any order and any number; standard error accumulates meanwhile.
 */
module ChildRunner {
  import opened Options
  import opened Ndjson

  const TAIL: nat := 4096

  datatype Code = Timeout | InvokeError | NonzeroExit | SpawnError

  datatype Result = Ok(value: string) | Failed(code: Code, message: string)

  datatype Event =
    | StderrData(chunk: string)
    | TimerFires
    | CallReturns(value: string)
    | CallRejects(message: string)
    | ChildExits(message: string)
    | ChildErrors(message: string)

  function TrimStart(s: string): string { if s != "" && IsSpace(s[0]) then TrimStart(s[1..]) else s }

  function TrimEnd(s: string): string { if s != "" && IsSpace(s[|s| - 1]) then TrimEnd(s[..|s| - 1]) else s }

  /** `s.slice(-TAIL)` */
  function LastPart(s: string): string { if |s| > TAIL then s[|s| - TAIL..] else s }

  function WithStderr(message: string, tail: string): string {
    if tail == "" then message else message + ": " + TrimEnd(TrimStart(tail))
  }

  /** The text is `s` without white space at either end. */
  ghost predicate Trimmed(s: string, text: string) {
    && (text != "" ==> !IsSpace(text[0]) && !IsSpace(text[|text| - 1]))
    && exists a, b :: s == a + text + b && Blank(a) && Blank(b)
  }

  lemma {:induction false} TrimStartExactly(s: string) returns (a: string)
    ensures s == a + TrimStart(s) && Blank(a) && (TrimStart(s) != "" ==> !IsSpace(TrimStart(s)[0]))
  {
    a := "";
    if s != "" && IsSpace(s[0]) {
      a := TrimStartExactly(s[1..]);
      a := [s[0]] + a;
      assert s == [s[0]] + s[1..];
    }
  }

  lemma {:induction false} TrimEndExactly(s: string) returns (b: string)
    ensures s == TrimEnd(s) + b && Blank(b) && (TrimEnd(s) != "" ==> !IsSpace(TrimEnd(s)[|TrimEnd(s)| - 1]))
  {
    b := "";
    if s != "" && IsSpace(s[|s| - 1]) {
      b := TrimEndExactly(s[..|s| - 1]);
      b := b + [s[|s| - 1]];
      assert s == s[..|s| - 1] + [s[|s| - 1]];
    }
  }

  /** A message keeps its text; what standard error adds follows a colon, without the white space around it. */
  lemma StderrShown(message: string, tail: string)
    ensures tail == "" ==> WithStderr(message, tail) == message
    ensures tail != "" ==> exists text :: Trimmed(tail, text) && WithStderr(message, tail) == message + ": " + text
  {
    hide IsSpace, TrimStart, TrimEnd;
    var s := TrimStart(tail);
    var a := TrimStartExactly(tail);
    var b := TrimEndExactly(s);
    var text := TrimEnd(s);
    assert tail == a + text + b;
    assert text != "" ==> text[0] == s[0];
    assert Trimmed(tail, text);
  }

  /** What an event resolves the invocation with, given the standard error so far. */
  function Verdict(e: Event, tail: string, wallMessage: string): Option<Result> {
    match e
    case StderrData(_) => None
    case TimerFires => Some(Failed(Timeout, WithStderr(wallMessage, tail)))
    case CallReturns(v) => Some(Ok(v))
    case CallRejects(m) => Some(Failed(InvokeError, WithStderr(m, tail)))
    case ChildExits(m) => Some(Failed(NonzeroExit, WithStderr(m, tail)))
    case ChildErrors(m) => Some(Failed(SpawnError, m))
  }

  datatype State = State(settled: bool, resolutions: seq<Result>, tail: string, kills: nat, timerArmed: bool)

  const STARTED := State(false, [], "", 0, true)

  class Invocation {
    const wallMessage: string
    var settled: bool
    var resolutions: seq<Result>   // every call of resolve
    var stderrTail: string
    var kills: nat
    var timerArmed: bool

    ghost function Now(): State
      reads this
    {
      State(settled, resolutions, stderrTail, kills, timerArmed)
    }

    constructor (wallMessage: string)
      ensures Now() == STARTED && this.wallMessage == wallMessage
    {
      this.wallMessage := wallMessage;
      settled, resolutions, stderrTail, kills, timerArmed := false, [], "", 0, true;
    }

    method OnStderr(chunk: string)
      modifies this
      ensures Now() == Next(old(Now()), StderrData(chunk), wallMessage)
      ensures resolutions == old(resolutions) && settled == old(settled)
    {
      stderrTail := LastPart(stderrTail + chunk);
    }

    method OnTimer()
      modifies this
      ensures Now() == Next(old(Now()), TimerFires, wallMessage)
      ensures resolutions == old(resolutions) + if old(settled) then [] else [Failed(Timeout, WithStderr(wallMessage, old(stderrTail)))]
    {
      if settled {
        return;
      }
      settled := true;
      kills := kills + 1;
      resolutions := resolutions + [Failed(Timeout, WithStderr(wallMessage, stderrTail))];
      timerArmed := false;
    }

    method OnReturn(value: string)
      modifies this
      ensures Now() == Next(old(Now()), CallReturns(value), wallMessage)
      ensures resolutions == old(resolutions) + if old(settled) then [] else [Ok(value)]
    {
      if settled {
        return;
      }
      settled := true;
      timerArmed := false;
      kills := kills + 1;
      resolutions := resolutions + [Ok(value)];
    }

    method OnReject(message: string)
      modifies this
      ensures Now() == Next(old(Now()), CallRejects(message), wallMessage)
      ensures resolutions == old(resolutions) + if old(settled) then [] else [Failed(InvokeError, WithStderr(message, old(stderrTail)))]
    {
      if settled {
        return;
      }
      settled := true;
      timerArmed := false;
      kills := kills + 1;
      resolutions := resolutions + [Failed(InvokeError, WithStderr(message, stderrTail))];
    }

    method OnExit(message: string)
      modifies this
      ensures Now() == Next(old(Now()), ChildExits(message), wallMessage)
      ensures resolutions == old(resolutions) + if old(settled) then [] else [Failed(NonzeroExit, WithStderr(message, old(stderrTail)))]
    {
      if settled {
        return;
      }
      settled := true;
      timerArmed := false;
      resolutions := resolutions + [Failed(NonzeroExit, WithStderr(message, stderrTail))];
    }

    method OnError(message: string)
      modifies this
      ensures Now() == Next(old(Now()), ChildErrors(message), wallMessage)
      ensures resolutions == old(resolutions) + if old(settled) then [] else [Failed(SpawnError, message)]
    {
      if settled {
        return;
      }
      settled := true;
      timerArmed := false;
      resolutions := resolutions + [Failed(SpawnError, message)];
    }
  }

  function Next(s: State, e: Event, wallMessage: string): State {
    match e
    case StderrData(chunk) => s.(tail := LastPart(s.tail + chunk))
    case _ =>
      if s.settled then s
      else State(true, s.resolutions + [Verdict(e, s.tail, wallMessage).value], s.tail,
                 s.kills + (if e.ChildExits? || e.ChildErrors? then 0 else 1), false)
  }

  // ---------- runs ----------

  function After(events: seq<Event>, wallMessage: string): State {
    if events == [] then STARTED else Next(After(events[..|events| - 1], wallMessage), events[|events| - 1], wallMessage)
  }

  function Stderr(events: seq<Event>): string {
    if events == [] then "" else
      var e := events[|events| - 1];
      Stderr(events[..|events| - 1]) + if e.StderrData? then e.chunk else ""
  }

  lemma LastPartOfTail(s: string, chunk: string)
    ensures LastPart(LastPart(s) + chunk) == LastPart(s + chunk)
  {
    if |s| > TAIL {
      assert s + chunk == s[..|s| - TAIL] + (LastPart(s) + chunk);
      var t := LastPart(s) + chunk;
      assert (s + chunk)[|s + chunk| - TAIL..] == t[|t| - TAIL..];
    }
  }

  /** Cutting after every chunk keeps the same tail as cutting the whole output once. */
  lemma {:induction false} TailOfAll(events: seq<Event>, wallMessage: string)
    ensures After(events, wallMessage).tail == LastPart(Stderr(events))
  {
    if events != [] {
      var front, e := events[..|events| - 1], events[|events| - 1];
      TailOfAll(front, wallMessage);
      hide LastPart, WithStderr;
      if e.StderrData? {
        LastPartOfTail(Stderr(front), e.chunk);
      } else {
        assert Stderr(front) + "" == Stderr(front);
      }
    }
  }

  /** The first event that is not standard error. */
  function Decisive(events: seq<Event>): (r: Option<nat>)
    ensures r.None? <==> forall k :: 0 <= k < |events| ==> events[k].StderrData?
    ensures r.Some? ==> r.value < |events| && !events[r.value].StderrData? && forall k :: 0 <= k < r.value ==> events[k].StderrData?
  {
    if events == [] then None
    else if !events[0].StderrData? then Some(0)
    else
      var r := Decisive(events[1..]);
      assert forall k :: 1 <= k < |events| ==> events[k] == events[1..][k - 1];
      if r.None? then None else Some(r.value + 1)
  }

  /** The state after a verdict on the event at `i`. */
  predicate DecidedBy(s: State, events: seq<Event>, i: nat, wallMessage: string)
    requires i < |events| && !events[i].StderrData?
  {
    && s.settled && !s.timerArmed
    && |s.resolutions| == 1
    && var e, r, tail := events[i], s.resolutions[0], LastPart(Stderr(events[..i]));
       && (e.TimerFires? ==> r == Failed(Timeout, WithStderr(wallMessage, tail)))
       && (e.CallReturns? ==> r == Ok(e.value))
       && (e.CallRejects? ==> r == Failed(InvokeError, WithStderr(e.message, tail)))
       && (e.ChildExits? ==> r == Failed(NonzeroExit, WithStderr(e.message, tail)))
       && (e.ChildErrors? ==> r == Failed(SpawnError, e.message))
       && s.kills == (if e.ChildExits? || e.ChildErrors? then 0 else 1)
  }

  /**
   The invocation resolves exactly once as soon as any deciding event has come, with the verdict of the first one and the
   tail of the standard error written before it; until then it is not resolved and its timer is armed.
   */
  lemma {:induction false} ResolvesOnce(events: seq<Event>, wallMessage: string)
    ensures var s, d := After(events, wallMessage), Decisive(events);
            if d.None? then !s.settled && s.resolutions == [] && s.timerArmed && s.kills == 0
            else DecidedBy(s, events, d.value, wallMessage)
  {
    hide LastPart, WithStderr, Stderr, Decisive;
    if events != [] {
      var n := |events| - 1;
      var front := events[..n];
      ResolvesOnce(front, wallMessage);
      TailOfAll(front, wallMessage);
      DecisiveOfFront(events);
      var d := Decisive(front);
      if d.Some? {
        assert front[..d.value] == events[..d.value];
      }
    }
  }

  lemma DecisiveOfFront(events: seq<Event>)
    requires events != []
    ensures var n := |events| - 1;
            Decisive(events) == if Decisive(events[..n]).Some? then Decisive(events[..n])
                                else if events[n].StderrData? then None else Some(n)
  {
    hide Decisive;
    var n := |events| - 1;
    var f, d := Decisive(events[..n]), Decisive(events);
    assert forall k :: 0 <= k < n ==> events[k] == events[..n][k];
    if f.Some? {
      assert !events[f.value].StderrData?;
    }
  }
}

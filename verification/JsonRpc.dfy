/**
 The bidirectional JSON-RPC connection (packages/pluginhost/src/jsonrpc.ts). Identifiers, which the source draws at random,
 and incoming messages are arbitrary; handlers finish when they please.
 */
module JsonRpc {
  type Id = string

  /** A malformed reply has an `error` without a `message` to read, such as null. */
  datatype Reply = Result(value: string) | Failure(message: string) | Malformed

  datatype Outcome = Returned(value: string) | Rejected(message: string) | ConnectionClosed

  /** One call of `call`, with every settlement of its promise. */
  datatype Promise = Promise(id: Id, settlements: seq<Outcome>)

  datatype Sent = Request(id: Id) | Success(id: Id) | Failed(id: Id, code: int)

  datatype State = State(
    pending: map<Id, nat>,       // which promise an identifier belongs to
    closed: bool,
    promises: seq<Promise>,
    running: multiset<Id>,       // incoming requests whose handler has not finished
    sent: seq<Sent>)

  datatype Event =
    | Call(id: Id)
    | Incoming(id: Id, known: bool)            // a request, with or without a registered handler
    | HandlerDone(id: Id, ok: bool)
    | Notification
    | Response(id: Id, reply: Reply)
    | Close

  const FRESH := State(map[], false, [], multiset{}, [])

  function Settled(p: Promise, o: Outcome): Promise { p.(settlements := p.settlements + [o]) }

  function CloseAll(promises: seq<Promise>, pending: map<Id, nat>): (r: seq<Promise>)
    ensures |r| == |promises|
    ensures forall k :: 0 <= k < |r| ==> r[k] == if k in pending.Values then Settled(promises[k], ConnectionClosed) else promises[k]
  {
    seq(|promises|, k requires 0 <= k < |promises| => if k in pending.Values then Settled(promises[k], ConnectionClosed) else promises[k])
  }

  function Next(s: State, e: Event): State {
    match e
    case Call(id) =>
      if s.closed then s.(promises := s.promises + [Promise(id, [ConnectionClosed])])
      else s.(pending := s.pending[id := |s.promises|], promises := s.promises + [Promise(id, [])], sent := s.sent + [Request(id)])
    case Incoming(id, known) =>
      if known then s.(running := s.running + multiset{id}) else s.(sent := s.sent + [Failed(id, -32601)])
    case HandlerDone(id, ok) =>
      if id !in s.running then s
      else s.(running := s.running - multiset{id}, sent := s.sent + [if ok then Success(id) else Failed(id, -32000)])
    case Notification => s
    case Response(id, reply) =>
      if id !in s.pending || s.pending[id] >= |s.promises| then s
      else
        var k := s.pending[id];
        var rest := s.(pending := s.pending - {id});
        (match reply
         case Result(v) => rest.(promises := s.promises[k := Settled(s.promises[k], Returned(v))])
         case Failure(m) => rest.(promises := s.promises[k := Settled(s.promises[k], Rejected(m))])
         case Malformed => rest)
    case Close => s.(closed := true, pending := map[], promises := CloseAll(s.promises, s.pending))
  }

  /** What every step keeps. */
  ghost predicate Sound(s: State) {
    && (s.closed ==> s.pending == map[])
    && (forall id <- s.pending :: s.pending[id] < |s.promises| && s.promises[s.pending[id]] == Promise(id, []))
    && (forall k :: 0 <= k < |s.promises| ==> |s.promises[k].settlements| <= 1)
  }

  class JsonRpcConnection {
    var pending: map<Id, nat>
    var closed: bool
    var promises: seq<Promise>
    var running: multiset<Id>
    var sent: seq<Sent>
    var methods: set<string>

    ghost function Now(): State
      reads this
    {
      State(pending, closed, promises, running, sent)
    }

    constructor ()
      ensures Now() == FRESH && methods == {}
    {
      pending, closed, promises, running, sent, methods := map[], false, [], multiset{}, [], {};
    }

    method RegisterMethod(name: string)
      modifies this
      ensures Now() == old(Now()) && methods == old(methods) + {name}
    {
      methods := methods + {name};
    }

    method MakeCall(id: Id)
      requires Sound(Now())
      modifies this
      ensures Now() == Next(old(Now()), Call(id)) && methods == old(methods)
      ensures sent == if old(closed) then old(sent) else old(sent) + [Request(id)]
    {
      if closed {
        promises := promises + [Promise(id, [ConnectionClosed])];
        return;
      }
      pending := pending[id := |promises|];
      promises := promises + [Promise(id, [])];
      sent := sent + [Request(id)];
    }

    method HandleRequest(id: Id, name: string)
      modifies this
      ensures Now() == Next(old(Now()), Incoming(id, name in methods)) && methods == old(methods)
      ensures name in methods ==> sent == old(sent) && running == old(running) + multiset{id}
      ensures name !in methods ==> sent == old(sent) + [Failed(id, -32601)] && running == old(running)
    {
      if name !in methods {
        sent := sent + [Failed(id, -32601)];
        return;
      }
      running := running + multiset{id};
    }

    method FinishRequest(id: Id, ok: bool)
      requires id in running
      modifies this
      ensures Now() == Next(old(Now()), HandlerDone(id, ok)) && methods == old(methods)
      ensures sent == old(sent) + [if ok then Success(id) else Failed(id, -32000)] && running == old(running) - multiset{id}
    {
      running := running - multiset{id};
      if ok {
        sent := sent + [Success(id)];
      } else {
        sent := sent + [Failed(id, -32000)];
      }
    }

    method HandleResponse(id: Id, reply: Reply)
      requires Sound(Now())
      modifies this
      ensures Now() == Next(old(Now()), Response(id, reply)) && methods == old(methods)
      ensures id in old(pending) ==> id !in pending
      ensures id in old(pending) && reply.Result? ==> promises[old(pending[id])] == Promise(id, [Returned(reply.value)])
      ensures id in old(pending) && reply.Failure? ==> promises[old(pending[id])] == Promise(id, [Rejected(reply.message)])
    {
      if id !in pending {
        return;
      }
      var k := pending[id];
      pending := pending - {id};
      match reply {
        case Result(v) => promises := promises[k := Settled(promises[k], Returned(v))];
        case Failure(m) => promises := promises[k := Settled(promises[k], Rejected(m))];
        case Malformed =>
      }
    }

    method HandleClose()
      requires Sound(Now())
      modifies this
      ensures Now() == Next(old(Now()), Close) && methods == old(methods)
    {
      hide CloseAll;
      closed := true;
      promises := RejectAll(promises, pending);
      pending := map[];
    }
  }

  /** The loop that rejects every pending call. */
  method RejectAll(promises: seq<Promise>, pending: map<Id, nat>) returns (r: seq<Promise>)
    requires forall id <- pending :: pending[id] < |promises| && promises[pending[id]] == Promise(id, [])
    ensures r == CloseAll(promises, pending)
  {
    hide CloseAll, Partition;
    r := promises;
    CloseNone(promises);
    var todo := pending;
    ghost var done: map<Id, nat> := map[];
    AllToDo(pending);
    while todo != map[]
      invariant todo.Keys !! done.Keys && Partition(pending, todo, done)
      invariant r == CloseAll(promises, done)
      decreases |todo|
    {
      var id :| id in todo;
      CloseOne(promises, pending, todo, done, id);
      r := r[todo[id] := Settled(r[todo[id]], ConnectionClosed)];
      done := done[id := todo[id]];
      todo := todo - {id};
    }
    NothingToDo(pending, done);
  }

  lemma AllToDo(pending: map<Id, nat>)
    ensures Partition(pending, pending, map[])
  {
  }

  lemma NothingToDo(pending: map<Id, nat>, done: map<Id, nat>)
    requires Partition(pending, map[], done)
    ensures done == pending
  {
    assert done.Keys == pending.Keys;
  }

  lemma CloseNone(promises: seq<Promise>)
    ensures CloseAll(promises, map[]) == promises
  {
  }

  ghost predicate Partition(all: map<Id, nat>, a: map<Id, nat>, b: map<Id, nat>) {
    && a.Keys + b.Keys == all.Keys
    && (forall id <- a :: a[id] == all[id]) && (forall id <- b :: b[id] == all[id])
  }

  /** Rejecting one more entry. */
  lemma CloseOne(promises: seq<Promise>, pending: map<Id, nat>, todo: map<Id, nat>, done: map<Id, nat>, id: Id)
    requires forall id <- pending :: pending[id] < |promises| && promises[pending[id]] == Promise(id, [])
    requires Partition(pending, todo, done) && todo.Keys !! done.Keys && id in todo
    ensures id in pending && todo[id] == pending[id]
    ensures var k, before := todo[id], CloseAll(promises, done);
            && k < |before| && CloseAll(promises, done[id := k]) == before[k := Settled(before[k], ConnectionClosed)]
            && Partition(pending, todo - {id}, done[id := k])
  {
    var k, more := todo[id], done[id := todo[id]];
    assert pending[id] == k && promises[k].id == id;
    assert k !in done.Values;
    assert more.Values == done.Values + {k} by {
      assert forall x <- done :: more[x] == done[x];
      assert more[id] == k;
    }
  }

  /** Two identifiers never share a promise. */
  lemma Distinct(s: State, id: Id)
    requires Sound(s) && id in s.pending
    ensures forall other <- s.pending :: other != id ==> s.pending[other] != s.pending[id]
  {
  }

  // ---------- runs ----------

  function After(events: seq<Event>): State {
    if events == [] then FRESH else Next(After(events[..|events| - 1]), events[|events| - 1])
  }

  lemma SoundStep(s: State, e: Event)
    requires Sound(s)
    ensures Sound(Next(s, e))
  {
    match e
    case Response(id, reply) => if id in s.pending { Distinct(s, id); }
    case _ =>
  }

  lemma {:induction false} AlwaysSound(events: seq<Event>)
    ensures Sound(After(events))
  {
    if events != [] {
      AlwaysSound(events[..|events| - 1]);
      SoundStep(After(events[..|events| - 1]), events[|events| - 1]);
    }
  }

  /** Where a call stands: waiting, settled, or forgotten without a settlement. */
  datatype Status = Waiting | Done(outcome: Outcome) | Forgotten

  ghost function StatusOf(s: State, k: nat): Status
    requires k < |s.promises|
  {
    if s.promises[k].settlements != [] then Done(s.promises[k].settlements[0])
    else if k in s.pending.Values then Waiting
    else Forgotten
  }

  /** The life of one call: only its own reply, a close, or another call under its identifier ends the waiting. */
  function Live(id: Id, status: Status, e: Event): Status {
    if !status.Waiting? then status else
      match e
      case Response(other, reply) =>
        if other != id then Waiting
        else (match reply
              case Result(v) => Done(Returned(v))
              case Failure(m) => Done(Rejected(m))
              case Malformed => Forgotten)
      case Close => Done(ConnectionClosed)
      case Call(other) => if other == id then Forgotten else Waiting
      case _ => Waiting
  }

  lemma OwnId(s: State, k: nat)
    requires Sound(s) && k < |s.promises|
    ensures k in s.pending.Values <==> s.promises[k].id in s.pending && s.pending[s.promises[k].id] == k
  {
  }

  lemma StepLife(s: State, e: Event, k: nat)
    requires Sound(s) && k < |s.promises|
    ensures var t := Next(s, e);
            k < |t.promises| && t.promises[k].id == s.promises[k].id && StatusOf(t, k) == Live(s.promises[k].id, StatusOf(s, k), e)
  {
    match e
    case Response(id, reply) => ResponseLife(s, id, reply, k);
    case Call(id) => CallStep(s, id, k);
    case Close =>
    case _ =>
  }

  lemma CallStep(s: State, id: Id, k: nat)
    requires Sound(s) && k < |s.promises|
    ensures var t := Next(s, Call(id));
            k < |t.promises| && t.promises[k].id == s.promises[k].id && StatusOf(t, k) == Live(s.promises[k].id, StatusOf(s, k), Call(id))
  {
    SoundStep(s, Call(id));
    OwnId(s, k);
    OwnId(Next(s, Call(id)), k);
  }

  lemma ResponseLife(s: State, id: Id, reply: Reply, k: nat)
    requires Sound(s) && k < |s.promises|
    ensures var t := Next(s, Response(id, reply));
            k < |t.promises| && t.promises[k].id == s.promises[k].id && StatusOf(t, k) == Live(s.promises[k].id, StatusOf(s, k), Response(id, reply))
  {
    var t := Next(s, Response(id, reply));
    SoundStep(s, Response(id, reply));
    OwnId(s, k);
    OwnId(t, k);
    if id in s.pending {
      assert s.promises[s.pending[id]] == Promise(id, []);
    }
  }

  function LiveAll(id: Id, status: Status, events: seq<Event>): Status {
    if events == [] then status else Live(id, LiveAll(id, status, events[..|events| - 1]), events[|events| - 1])
  }

  lemma OnceAtMost(events: seq<Event>)
    ensures forall k :: 0 <= k < |After(events).promises| ==> |After(events).promises[k].settlements| <= 1
  {
    AlwaysSound(events);
  }

  /**
   Whatever else goes on, each call lives by its own small automaton: it settles at most once, and only by a reply that
   carries its identifier or by the close of the connection.
   */
  lemma {:induction false} CallLife(events: seq<Event>, more: seq<Event>, k: nat)
    requires k < |After(events).promises|
    ensures var s, t := After(events), After(events + more);
            && k < |t.promises| && t.promises[k].id == s.promises[k].id
            && StatusOf(t, k) == LiveAll(s.promises[k].id, StatusOf(s, k), more)
            && |t.promises[k].settlements| <= 1
  {
    hide Next, Live, StatusOf, Sound;
    OnceAtMost(events + more);
    if more == [] {
      assert events + more == events;
    } else {
      var front, last := more[..|more| - 1], more[|more| - 1];
      CallLife(events, front, k);
      AlwaysSound(events + front);
      AfterMore(events, more);
      assert LiveAll(After(events).promises[k].id, StatusOf(After(events), k), more)
          == Live(After(events).promises[k].id, LiveAll(After(events).promises[k].id, StatusOf(After(events), k), front), last);
      hide After, LiveAll;
      StepLife(After(events + front), last, k);
    }
  }

  lemma AfterMore(events: seq<Event>, more: seq<Event>)
    requires more != []
    ensures After(events + more) == Next(After(events + more[..|more| - 1]), more[|more| - 1])
  {
    hide Next;
    assert (events + more)[..|events + more| - 1] == events + more[..|more| - 1];
  }

  /** A call starts waiting, or fails at once on a closed connection. */
  lemma CallStarts(events: seq<Event>, id: Id)
    ensures var s, t := After(events), After(events + [Call(id)]);
            && |t.promises| == |s.promises| + 1 && t.promises[|s.promises|].id == id
            && StatusOf(t, |s.promises|) == (if s.closed then Done(ConnectionClosed) else Waiting)
  {
    assert (events + [Call(id)])[..|events|] == events;
    var t := After(events + [Call(id)]);
    assert id in t.pending ==> t.pending[id] in t.pending.Values;
  }

  /** A closed connection waits for nothing. */
  lemma NothingPendingOnceClosed(events: seq<Event>, k: nat)
    requires After(events).closed && k < |After(events).promises|
    ensures After(events).pending == map[] && !StatusOf(After(events), k).Waiting?
  {
    AlwaysSound(events);
  }

  /** An event that makes the connection forget a waiting call. */
  predicate Forgets(e: Event, id: Id) { e == Response(id, Malformed) || e == Call(id) }

  lemma ForgetStep(id: Id, status: Status, e: Event)
    ensures Live(id, status, e).Forgotten? <==> status.Forgotten? || (status.Waiting? && Forgets(e, id))
  {
  }

  predicate ForgetsAt(id: Id, more: seq<Event>, i: nat)
    requires i < |more|
  {
    LiveAll(id, Waiting, more[..i]).Waiting? && Forgets(more[i], id)
  }

  lemma ForgetsAtPrefix(id: Id, more: seq<Event>, n: nat)
    requires n <= |more|
    ensures forall i :: 0 <= i < n ==> ForgetsAt(id, more[..n], i) == ForgetsAt(id, more, i)
  {
    hide LiveAll, Forgets;
    assert forall i :: 0 <= i < n ==> more[..n][..i] == more[..i];
  }

  /** A waiting call is forgotten exactly when a malformed reply or a reuse of its identifier reaches it while it waits. */
  lemma {:induction false} ForgottenExactly(id: Id, more: seq<Event>)
    ensures LiveAll(id, Waiting, more).Forgotten? <==> exists i :: 0 <= i < |more| && ForgetsAt(id, more, i)
  {
    hide Live, Forgets;
    if more != [] {
      var n := |more| - 1;
      ForgottenExactly(id, more[..n]);
      ForgetStep(id, LiveAll(id, Waiting, more[..n]), more[n]);
      assert ForgetsAt(id, more, n) == (LiveAll(id, Waiting, more[..n]).Waiting? && Forgets(more[n], id));
      assert LiveAll(id, Waiting, more) == Live(id, LiveAll(id, Waiting, more[..n]), more[n]);
      hide LiveAll, ForgetsAt;
      ForgetsAtPrefix(id, more, n);
      assert (exists i :: 0 <= i < n && ForgetsAt(id, more[..n], i)) <==> (exists i :: 0 <= i < n && ForgetsAt(id, more, i));
    }
  }

  /** With identifiers never reused and no malformed reply, a call made before the close is settled by the time of the close. */
  lemma SettledByClose(events: seq<Event>, id: Id, more: seq<Event>)
    requires !After(events).closed && Close in more
    requires forall e <- more :: !Forgets(e, id)
    ensures var k := |After(events).promises|;
            var t := After(events + [Call(id)] + more);
            k < |t.promises| && StatusOf(t, k).Done? && |t.promises[k].settlements| == 1
  {
    var k := |After(events).promises|;
    CallStarts(events, id);
    CallLife(events + [Call(id)], more, k);
    ForgottenExactly(id, more);
    NotWaitingAfterClose(id, more);
  }

  lemma {:induction false} NotWaitingAfterClose(id: Id, more: seq<Event>)
    requires Close in more
    ensures !LiveAll(id, Waiting, more).Waiting?
  {
    var n := |more| - 1;
    if more[n] != Close {
      assert more == more[..n] + [more[n]];
      NotWaitingAfterClose(id, more[..n]);
    }
  }

  // ---------- what is sent ----------

  /** What each event puts on the wire, in any history, and which requests it leaves running. */
  lemma Wire(events: seq<Event>, e: Event)
    ensures var s, t := After(events), After(events + [e]);
            && (e.Incoming? && e.known ==> t.sent == s.sent && t.running == s.running + multiset{e.id})
            && (e.Incoming? && !e.known ==> t.sent == s.sent + [Failed(e.id, -32601)] && t.running == s.running)
            && (e.HandlerDone? && e.id in s.running && e.ok ==> t.sent == s.sent + [Success(e.id)] && t.running == s.running - multiset{e.id})
            && (e.HandlerDone? && e.id in s.running && !e.ok ==> t.sent == s.sent + [Failed(e.id, -32000)] && t.running == s.running - multiset{e.id})
            && (e.Call? && Close !in events ==> t.sent == s.sent + [Request(e.id)] && t.running == s.running)
            && (e.Call? && Close in events ==> t.sent == s.sent && t.running == s.running)
            && (e.Notification? || e.Response? || e.Close? ==> t.sent == s.sent && t.running == s.running)
  {
    assert (events + [e])[..|events|] == events;
    ClosedExactly(events);
    hide After, CloseAll, Settled;
    assert After(events + [e]) == Next(After(events), e) by { AfterOne(events, e); }
  }

  lemma AfterOne(events: seq<Event>, e: Event)
    ensures After(events + [e]) == Next(After(events), e)
  {
    assert (events + [e])[..|events|] == events;
  }

  /** A connection is closed exactly when a close has happened. */
  lemma {:induction false} ClosedExactly(events: seq<Event>)
    ensures After(events).closed <==> Close in events
  {
    hide Next;
    if events != [] {
      var n := |events| - 1;
      ClosedExactly(events[..n]);
      ClosedStep(After(events[..n]), events[n]);
      assert events == events[..n] + [events[n]];
    }
  }

  lemma ClosedStep(s: State, e: Event)
    ensures Next(s, e).closed <==> s.closed || e == Close
  {
    hide CloseAll, Settled;
  }

  // ---------- the other direction ----------

  /** Incoming requests received so far. */
  function Received(events: seq<Event>): multiset<Id> {
    if events == [] then multiset{} else
      var e := events[|events| - 1];
      Received(events[..|events| - 1]) + if e.Incoming? then multiset{e.id} else multiset{}
  }

  /** Replies sent so far. */
  function Answered(sent: seq<Sent>): multiset<Id> {
    if sent == [] then multiset{} else
      var m := sent[|sent| - 1];
      Answered(sent[..|sent| - 1]) + if m.Request? then multiset{} else multiset{m.id}
  }

  lemma AnsweredMore(sent: seq<Sent>, m: Sent)
    ensures Answered(sent + [m]) == Answered(sent) + if m.Request? then multiset{} else multiset{m.id}
  {
    assert (sent + [m])[..|sent|] == sent;
  }

  /** Every incoming request is either being handled or has been answered, exactly once and under its own identifier. */
  lemma {:induction false} RequestsConserved(events: seq<Event>)
    ensures Received(events) == After(events).running + Answered(After(events).sent)
  {
    if events != [] {
      var front, e := events[..|events| - 1], events[|events| - 1];
      RequestsConserved(front);
      ConservedStep(After(front), e);
      hide Next, Answered;
    }
  }

  lemma ConservedStep(s: State, e: Event)
    ensures var t := Next(s, e);
            t.running + Answered(t.sent) == s.running + Answered(s.sent) + if e.Incoming? then multiset{e.id} else multiset{}
  {
    hide Answered;
    match e
    case Call(id) => AnsweredMore(s.sent, Request(id));
    case Incoming(id, known) => AnsweredMore(s.sent, Failed(id, -32601));
    case HandlerDone(id, ok) => FinishConserves(s, id, ok);
    case Response(id, reply) =>
      hide Settled;
      assert Next(s, e).running == s.running && Next(s, e).sent == s.sent;
    case _ =>
  }

  lemma FinishConserves(s: State, id: Id, ok: bool)
    ensures var t := Next(s, HandlerDone(id, ok)); t.running + Answered(t.sent) == s.running + Answered(s.sent)
  {
    if id in s.running {
      AnsweredMore(s.sent, if ok then Success(id) else Failed(id, -32000));
      hide Answered;
      assert s.running == (s.running - multiset{id}) + multiset{id};
    }
  }
}

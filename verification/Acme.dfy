/**
 The ACME DNS-01 issue flow (plugins/cert-letsencrypt-dns01/src/cert-ensure.ts and acme-client.ts). Every call to the outside is an
 event; what it answers, whether it throws and how long it takes come from an arbitrary script.
 */
module Acme {
  import opened Options

  // ---------- calls and answers ----------

  datatype Challenge = Challenge(kind: string, url: string, token: string)

  /** The JSON of a response body: not JSON at all, null, or an object whose missing arrays are None. */
  datatype Body =
    | Broken
    | Null
    | Object(
        newNonce: string, newAccount: string, newOrder: string,
        status: string, authorizations: Option<seq<string>>, finalize: string, certificate: string,
        identifier: string, challenges: Option<seq<Challenge>>)

  /** `nonce` and `location` are header values, "" when absent; `values` are the TXT values a resolver returns. */
  datatype Answer = Answer(
    throws: bool, elapsed: nat, status: nat, nonce: string, location: string, text: string, body: Body, values: seq<string>)
  {
    predicate Accepted() { !throws && nonce != "" && status < 400 }

    predicate Reports(status: string) { Accepted() && body.Object? && body.status == status }
  }

  datatype Payload = NewAccount | NewOrder(names: seq<string>) | Nothing | Ready | Finalize(names: seq<string>)

  datatype Record = Record(zone: string, name: string, value: string)

  datatype Call =
    | SecretsGet
    | SecretsPut
    | Get(url: string)
    | Head(url: string)
    | Post(url: string, nonce: string, payload: Payload)
    | SetRecord(record: Record)
    | DeleteRecord(record: Record)
    | ResolveTxt(name: string)
    | Sleep(ms: nat)
    | Store(certName: string, certPem: string, names: seq<string>)
  {
    predicate Http() { Get? || Head? || Post? }

    predicate Quiet() { !SetRecord? && !DeleteRecord? && !Store? }
  }

  datatype Event = Event(call: Call, answer: Answer)

  type Trace = seq<Event>

  // ---------- what a trace promises ----------

  /** The nonce of the latest response. */
  function LastNonce(t: Trace): Option<string> {
    if t == [] then None else
      var e := t[|t| - 1];
      if !e.call.Http() then LastNonce(t[..|t| - 1])
      else if e.answer.throws || e.answer.nonce == "" then None else Some(e.answer.nonce)
  }

  predicate Threaded(t: Trace) {
    t == [] || (
      && Threaded(t[..|t| - 1])
      && (t[|t| - 1].call.Post? ==> LastNonce(t[..|t| - 1]) == Some(t[|t| - 1].call.nonce)))
  }

  /** The record that is published and not yet withdrawn. */
  function Published(t: Trace): Option<Record> {
    if t == [] then None else
      var e := t[|t| - 1];
      match e.call
      case SetRecord(r) => if e.answer.throws then Published(t[..|t| - 1]) else Some(r)
      case DeleteRecord(_) => None
      case _ => Published(t[..|t| - 1])
  }

  /** A record is published only while none is, and withdrawn only while it is the published one. */
  predicate Tidy(t: Trace) {
    t == [] ||
      var front, e := t[..|t| - 1], t[|t| - 1];
      Tidy(front)
      && (e.call.SetRecord? ==> Published(front) == None)
      && (e.call.DeleteRecord? ==> Published(front) == Some(e.call.record))
  }

  /** The zone of the records, and the account key as far as challenges see it: its thumbprint, and the base64url of the SHA-256 of a key authorization. */
  datatype Setup = Setup(zone: string, digest: string -> string, thumbprint: string)
  {
    function TxtValue(token: string): string { digest(token + "." + thumbprint) }
  }

  /** The first challenge of kind dns-01 is the i-th. */
  predicate FirstDns01(challenges: seq<Challenge>, i: nat) {
    i < |challenges| && challenges[i].kind == "dns-01" && forall k :: 0 <= k < i ==> challenges[k].kind != "dns-01"
  }

  /** The record a fetched authorization asks for: under the identifier without its wildcard, for the first dns-01 challenge. */
  ghost predicate AskedFor(e: Event, r: Record, setup: Setup) {
    && e.call.Post? && e.answer.Accepted() && e.answer.body.Object? && e.answer.body.challenges.Some?
    && (exists i: nat :: FirstDns01(e.answer.body.challenges.value, i)
                         && r.value == setup.digest(e.answer.body.challenges.value[i].token + "." + setup.thumbprint))
    && r.zone == setup.zone
    && (exists base :: r.name == "_acme-challenge." + base
                       && (e.answer.body.identifier == "*." + base || (e.answer.body.identifier == base && !("*." <= base))))
  }

  /** The url belongs to the first dns-01 challenge that event offers. */
  predicate ChallengeOf(e: Event, url: string) {
    e.answer.body.Object? && e.answer.body.challenges.Some?
    && exists i :: 0 <= i < |e.answer.body.challenges.value| && FirstDns01(e.answer.body.challenges.value, i) && e.answer.body.challenges.value[i].url == url
  }

  predicate Seen(e: Event, r: Record) { e.call == ResolveTxt(r.name) && r.value in e.answer.values }

  /** A record is published only in answer to the challenge just fetched, and a challenge is declared ready only once its record has just been seen. */
  ghost predicate Prompted(t: Trace, setup: Setup) {
    t == [] ||
      var front, e := t[..|t| - 1], t[|t| - 1];
      Prompted(front, setup)
      && (e.call.SetRecord? ==> front != [] && AskedFor(front[|front| - 1], e.call.record, setup))
      && (e.call.Post? && e.call.payload == Ready ==>
            && front != [] && Published(front).Some? && Seen(front[|front| - 1], Published(front).value)
            && exists k :: 0 <= k < |front| && AskedFor(front[k], Published(front).value, setup) && ChallengeOf(front[k], e.call.url))
  }

  ghost predicate ReportedValid(t: Trace, url: string) {
    exists k :: 0 <= k < |t| && t[k].call.Post? && t[k].call.url == url && t[k].answer.Reports("valid")
  }

  /** The order was reported valid with this certificate. */
  ghost predicate Issued(t: Trace, url: string, certificate: string) {
    && certificate != ""
    && exists k :: 0 <= k < |t| && t[k].call.Post? && t[k].call.url == url && t[k].answer.Reports("valid") && t[k].answer.body.certificate == certificate
  }

  predicate Orders(e: Event, names: seq<string>) {
    && e.call.Post? && e.call.payload == NewOrder(names)
    && e.answer.Accepted() && e.answer.location != "" && e.answer.body.Object? && e.answer.body.authorizations.Some?
  }

  /** After the first o + 1 events the finalize url of the order took a request for these names. */
  ghost predicate Finalized(t: Trace, o: nat, url: string, names: seq<string>) {
    exists f :: o < f < |t| && t[f].call.Post? && t[f].call.url == url && t[f].call.payload == Finalize(names) && t[f].answer.Accepted()
  }

  /** Everything that must have happened before a certificate may be stored. */
  ghost predicate Justified(before: Trace, certPem: string, names: seq<string>) {
    && before != []
    && var last := before[|before| - 1];
       last.call.Post? && last.answer.Accepted() && last.answer.text == certPem
       && (exists o :: 0 <= o < |before| && Orders(before[o], names)
                       && Finalized(before, o, before[o].answer.body.finalize, names)
                       && (forall url <- before[o].answer.body.authorizations.value :: ReportedValid(before, url))
                       && Issued(before, before[o].answer.location, last.call.url))
  }

  predicate NoStore(t: Trace) { forall i :: 0 <= i < |t| ==> !t[i].call.Store? }

  function Posts(t: Trace): nat { if t == [] then 0 else Posts(t[..|t| - 1]) + if t[|t| - 1].call.Post? then 1 else 0 }

  function Resolutions(t: Trace): nat {
    if t == [] then 0 else Resolutions(t[..|t| - 1]) + if t[|t| - 1].call.ResolveTxt? then 1 else 0
  }

  /** What holds between two calls of the flow: `nonce` is fresh and `record` is the one published. */
  ghost predicate Orderly(t: Trace, nonce: Option<string>, record: Option<Record>, setup: Setup) {
    Threaded(t) && Tidy(t) && Prompted(t, setup) && NoStore(t) && (nonce.Some? ==> LastNonce(t) == nonce) && Published(t) == record
  }

  lemma Snoc(t: Trace, e: Event)
    ensures (t + [e])[..|t|] == t && (t + [e])[|t|] == e
  {
  }

  /** A call that touches neither records nor the store keeps the order of things. */
  lemma QuietStep(t: Trace, e: Event, nonce: Option<string>, record: Option<Record>, setup: Setup)
    requires Orderly(t, nonce, record, setup) && e.call.Quiet()
    requires e.call.Post? ==> nonce == Some(e.call.nonce)
    requires e.call.Post? && e.call.payload == Ready ==>
               && t != [] && record.Some? && Seen(t[|t| - 1], record.value)
               && exists k :: 0 <= k < |t| && AskedFor(t[k], record.value, setup) && ChallengeOf(t[k], e.call.url)
    ensures Orderly(t + [e], None, record, setup)
    ensures !e.call.Http() ==> Orderly(t + [e], nonce, record, setup)
    ensures e.call.Http() && !e.answer.throws && e.answer.nonce != "" ==> Orderly(t + [e], Some(e.answer.nonce), record, setup)
  {
    Snoc(t, e);
  }

  lemma SetStep(t: Trace, e: Event, nonce: Option<string>, setup: Setup)
    requires Orderly(t, nonce, None, setup) && e.call.SetRecord?
    requires t != [] && AskedFor(t[|t| - 1], e.call.record, setup)
    ensures Orderly(t + [e], nonce, if e.answer.throws then None else Some(e.call.record), setup)
  {
    Snoc(t, e);
  }

  lemma DeleteStep(t: Trace, e: Event, nonce: Option<string>, setup: Setup)
    requires e.call.DeleteRecord? && Orderly(t, nonce, Some(e.call.record), setup)
    ensures Orderly(t + [e], nonce, None, setup)
  {
    Snoc(t, e);
  }

  lemma CountStep(t: Trace, e: Event)
    ensures Posts(t + [e]) == Posts(t) + if e.call.Post? then 1 else 0
    ensures Resolutions(t + [e]) == Resolutions(t) + if e.call.ResolveTxt? then 1 else 0
  {
    Snoc(t, e);
  }

  lemma ReportedLater(t: Trace, u: Trace, url: string)
    requires t <= u && ReportedValid(t, url)
    ensures ReportedValid(u, url)
  {
    var k :| 0 <= k < |t| && t[k].call.Post? && t[k].call.url == url && t[k].answer.Reports("valid");
    assert u[k] == t[k];
  }

  // ---------- what can go wrong ----------

  /** The time a trace takes; a sleep takes at least its interval. */
  function Spent(t: Trace): nat {
    if t == [] then 0 else
      var e := t[|t| - 1];
      Spent(t[..|t| - 1]) + e.answer.elapsed + if e.call.Sleep? then e.call.ms else 0
  }

  /** A call that throws, an account key that cannot be read, or a response without what the flow reads next. */
  predicate BadEvent(e: Event) {
    || e.answer.throws
    || (match e.call
        case SecretsGet => e.answer.text != "" && e.answer.body.Broken?
        case Get(_) => e.answer.status >= 400 || !e.answer.body.Object?
        case Head(_) => e.answer.nonce == ""
        case Post(_, _, payload) =>
          || !e.answer.Accepted()
          || (payload == NewAccount && e.answer.location == "")
          || (payload.NewOrder? && (e.answer.location == "" || !e.answer.body.Object? || e.answer.body.authorizations.None?))
          || (payload.Finalize? && e.answer.body.Broken?)
        case _ => false)
  }

  /** An accepted order lists the authorization. */
  ghost predicate Listed(t: Trace, url: string) {
    exists o :: 0 <= o < |t| && t[o].call.Post? && t[o].call.payload.NewOrder?
                && t[o].answer.body.Object? && t[o].answer.body.authorizations.Some? && url in t[o].answer.body.authorizations.value
  }

  /** The url is that of the order. */
  ghost predicate Ordered(t: Trace, url: string) {
    exists o :: 0 <= o < |t| && t[o].call.Post? && t[o].call.payload.NewOrder? && t[o].answer.location == url
  }

  predicate OffersDns01(body: Body) {
    body.Object? && body.challenges.Some? && exists i :: 0 <= i < |body.challenges.value| && body.challenges.value[i].kind == "dns-01"
  }

  /** An authorization that is no object, neither valid nor open to a dns-01 challenge when fetched, or invalid once its record is published. */
  ghost predicate BadAuthorization(t: Trace, k: nat)
    requires k < |t|
  {
    && t[k].call.Post? && t[k].call.payload == Nothing && Listed(t[..k], t[k].call.url)
    && var body := t[k].answer.body;
       !body.Object? || (if Published(t[..k]).Some? then body.status == "invalid" else body.status != "valid" && !OffersDns01(body))
  }

  /** An order that is no object, invalid, or valid without a certificate. */
  ghost predicate BadOrder(t: Trace, k: nat)
    requires k < |t|
  {
    && t[k].call.Post? && t[k].call.payload == Nothing && Ordered(t[..k], t[k].call.url)
    && var body := t[k].answer.body; !body.Object? || body.status == "invalid" || (body.status == "valid" && body.certificate == "")
  }

  /** From a to b the record was only resolved, without its value, between sleeps. */
  predicate Unseen(t: Trace, a: nat, b: nat, record: Record)
    requires b <= |t|
  {
    forall k :: a <= k < b ==> t[k].call.Sleep? || (t[k].call == ResolveTxt(record.name) && record.value !in t[k].answer.values)
  }

  /** For ten minutes the published record was resolved and its value not seen. */
  ghost predicate NeverSeen(t: Trace, a: nat, b: nat) {
    && a <= b <= |t| && Spent(t[..b]) >= Spent(t[..a]) + 600_000 && Published(t[..a]).Some?
    && Unseen(t, a, b, Published(t[..a]).value)
  }

  /** For ten minutes an authorization or the order was polled and neither valid nor invalid. */
  ghost predicate NeverDone(t: Trace, a: nat, b: nat, url: string) {
    && a <= b <= |t| && Spent(t[..b]) >= Spent(t[..a]) + 600_000 && (Listed(t[..a], url) || Ordered(t[..a], url))
    && forall k :: a <= k < b ==>
         t[k].call.Sleep? || (t[k].call.Post? && t[k].call.url == url && t[k].call.payload == Nothing && t[k].answer.body.Object?
                              && t[k].answer.body.status != "valid" && t[k].answer.body.status != "invalid")
  }

  ghost predicate Fault(t: Trace) {
    || (exists k :: 0 <= k < |t| && BadEvent(t[k]))
    || (exists k :: 0 <= k < |t| && BadAuthorization(t, k))
    || (exists k :: 0 <= k < |t| && BadOrder(t, k))
    || (exists a: nat, b: nat :: NeverSeen(t, a, b))
    || (exists a: nat, b: nat, url :: NeverDone(t, a, b, url))
  }

  lemma SpentStep(t: Trace, e: Event)
    ensures Spent(t + [e]) == Spent(t) + e.answer.elapsed + if e.call.Sleep? then e.call.ms else 0
  {
    Snoc(t, e);
  }

  lemma FaultLater(t: Trace, u: Trace)
    requires t <= u && Fault(t)
    ensures Fault(u)
  {
    hide BadEvent, Listed, Ordered, OffersDns01, Spent, Published;
    assert forall a :: 0 <= a <= |t| ==> u[..a] == t[..a];
    assert forall k :: 0 <= k < |t| ==> u[k] == t[k];
    if k :| 0 <= k < |t| && BadEvent(t[k]) {
      assert BadEvent(u[k]);
    } else if k :| 0 <= k < |t| && BadAuthorization(t, k) {
      assert BadAuthorization(u, k);
    } else if k :| 0 <= k < |t| && BadOrder(t, k) {
      assert BadOrder(u, k);
    } else if a: nat, b: nat :| NeverSeen(t, a, b) {
      assert NeverSeen(u, a, b);
    } else {
      var a: nat, b: nat, url :| NeverDone(t, a, b, url);
      assert NeverDone(u, a, b, url);
    }
  }

  lemma ListedLater(t: Trace, u: Trace, url: string)
    requires t <= u
    ensures Listed(t, url) ==> Listed(u, url)
    ensures Ordered(t, url) ==> Ordered(u, url)
  {
    assert forall k :: 0 <= k < |t| ==> u[k] == t[k];
    if Listed(t, url) {
      var o :| 0 <= o < |t| && t[o].call.Post? && t[o].call.payload.NewOrder?
               && t[o].answer.body.Object? && t[o].answer.body.authorizations.Some? && url in t[o].answer.body.authorizations.value;
      assert u[o] == t[o];
    }
    if Ordered(t, url) {
      var o :| 0 <= o < |t| && t[o].call.Post? && t[o].call.payload.NewOrder? && t[o].answer.location == url;
      assert u[o] == t[o];
    }
  }

  // ---------- the flow ----------

  const POLL_INTERVAL: nat := 2000
  const POLL_TIMEOUT: nat := 600_000

  function TxtRecordName(identifier: string): string {
    "_acme-challenge." + if |identifier| >= 2 && identifier[..2] == "*." then identifier[2..] else identifier
  }

  function FindDns01(challenges: seq<Challenge>): Option<Challenge> {
    if challenges == [] then None
    else if challenges[0].kind == "dns-01" then Some(challenges[0]) else FindDns01(challenges[1..])
  }

  lemma {:induction false} FindsFirst(challenges: seq<Challenge>) returns (i: nat)
    ensures FindDns01(challenges).Some? ==> FirstDns01(challenges, i) && FindDns01(challenges).value == challenges[i]
    ensures FindDns01(challenges).None? ==> forall k :: 0 <= k < |challenges| ==> challenges[k].kind != "dns-01"
  {
    i := 0;
    if challenges != [] && challenges[0].kind != "dns-01" {
      i := FindsFirst(challenges[1..]);
      i := i + 1;
      assert forall k :: 1 <= k < |challenges| ==> challenges[k] == challenges[1..][k - 1];
    }
  }

  /** The record built from a fetched authorization is the one it asks for. */
  lemma BuiltAsAsked(e: Event, setup: Setup)
    requires e.call.Post? && e.answer.Accepted() && e.answer.body.Object? && e.answer.body.challenges.Some?
    requires FindDns01(e.answer.body.challenges.value).Some?
    ensures var c := FindDns01(e.answer.body.challenges.value).value;
            && AskedFor(e, Record(setup.zone, TxtRecordName(e.answer.body.identifier), setup.TxtValue(c.token)), setup)
            && ChallengeOf(e, c.url)
  {
    var i := FindsFirst(e.answer.body.challenges.value);
    var identifier := e.answer.body.identifier;
    if "*." <= identifier {
      assert identifier == "*." + identifier[2..];
      assert TxtRecordName(identifier) == "_acme-challenge." + identifier[2..];
    } else {
      assert TxtRecordName(identifier) == "_acme-challenge." + identifier;
    }
  }

  class Flow {
    const script: nat -> Answer
    const setup: Setup
    const start: nat
    var trace: Trace

    /** The clock, which the calls move. */
    function Now(): nat
      reads this
    {
      start + Spent(trace)
    }

    constructor (script: nat -> Answer, setup: Setup, start: nat)
      ensures trace == [] && Now() == start
    {
      this.script, this.setup, this.start := script, setup, start;
      trace := [];
    }

    /** One call to the outside; a sleep takes at least its interval. */
    method Perform(call: Call) returns (a: Answer)
      modifies this
      ensures trace == old(trace) + [Event(call, a)] && a == script(|old(trace)|)
      ensures Now() == old(Now()) + a.elapsed + if call.Sleep? then call.ms else 0
    {
      a := script(|trace|);
      SpentStep(trace, Event(call, a));
      trace := trace + [Event(call, a)];
    }

    method LoadOrCreateAccountKey() returns (ok: bool)
      requires Orderly(trace, None, None, setup)
      modifies this
      ensures Orderly(trace, None, None, setup)
      ensures !ok ==> Fault(trace)
    {
      hide Orderly, Fault;
      var existing := Perform(SecretsGet);
      QuietStep(old(trace), Event(SecretsGet, existing), None, None, setup);
      Culprit(trace);
      if existing.throws {
        return false;
      }
      if existing.text != "" {
        return !existing.body.Broken?;
      }
      ghost var t := trace;
      var put := Perform(SecretsPut);
      QuietStep(t, Event(SecretsPut, put), None, None, setup);
      Culprit(trace);
      ok := !put.throws;
    }

    /** signedPost followed by the status check every request makes; the missing nonce is noticed first. */
    method SignedPost(url: string, nonce: string, payload: Payload, ghost record: Option<Record>) returns (r: Option<Answer>)
      requires Orderly(trace, Some(nonce), record, setup)
      requires payload == Ready ==>
                 && trace != [] && record.Some? && Seen(trace[|trace| - 1], record.value)
                 && exists k :: 0 <= k < |trace| && AskedFor(trace[k], record.value, setup) && ChallengeOf(trace[k], url)
      modifies this
      ensures |trace| == |old(trace)| + 1 && old(trace) <= trace
      ensures trace[|old(trace)|].call == Post(url, nonce, payload)
      ensures Now() >= old(Now())
      ensures r.None? ==> Fault(trace)
      ensures Orderly(trace, None, record, setup) && Posts(trace) == Posts(old(trace)) + 1
      ensures r.Some? <==> trace[|old(trace)|].answer.Accepted()
      ensures r.Some? ==> r.value == trace[|old(trace)|].answer && Orderly(trace, Some(r.value.nonce), record, setup)
    {
      var res := Perform(Post(url, nonce, payload));
      QuietStep(old(trace), Event(Post(url, nonce, payload), res), Some(nonce), record, setup);
      CountStep(old(trace), Event(Post(url, nonce, payload), res));
      Culprit(trace);
      hide Fault, Orderly;
      if res.throws {
        return None;
      }
      if res.nonce == "" {
        return None;
      }
      if res.status >= 400 {
        return None;
      }
      r := Some(res);
    }

    /** The sleep between two attempts. */
    method Pause(ghost nonce: string, ghost record: Option<Record>) returns (s: Answer)
      requires Orderly(trace, Some(nonce), record, setup)
      modifies this
      ensures trace == old(trace) + [Event(Sleep(POLL_INTERVAL), s)] && Orderly(trace, Some(nonce), record, setup)
      ensures Now() >= old(Now()) + POLL_INTERVAL
      ensures Posts(trace) == Posts(old(trace)) && Resolutions(trace) == Resolutions(old(trace))
      ensures s.throws ==> Fault(trace)
    {
      s := Perform(Sleep(POLL_INTERVAL));
      QuietStep(old(trace), Event(Sleep(POLL_INTERVAL), s), Some(nonce), record, setup);
      CountStep(old(trace), Event(Sleep(POLL_INTERVAL), s));
      Culprit(trace);
    }

    method WaitForPropagation(name: string, expected: string, ghost nonce: string, ghost record: Record) returns (ok: bool)
      requires Orderly(trace, Some(nonce), Some(record), setup) && record.name == name && record.value == expected
      modifies this
      ensures old(trace) <= trace && Orderly(trace, Some(nonce), Some(record), setup)
      ensures ok ==> trace != [] && trace[|trace| - 1].call == ResolveTxt(name) && expected in trace[|trace| - 1].answer.values
      ensures !ok ==> Fault(trace)
      ensures Resolutions(trace) <= Resolutions(old(trace)) + 300
    {
      assert Published(old(trace)) == Some(record);
      hide Orderly, Resolutions, Fault, Spent, Published, Unseen, BadEvent, AskedFor, ChallengeOf, Seen;
      var deadline := Now() + POLL_TIMEOUT;
      ghost var n: nat := 0;
      UnseenYet(trace, record);
      while Now() < deadline
        invariant old(trace) <= trace && Orderly(trace, Some(nonce), Some(record), setup)
        invariant Now() >= old(Now()) + POLL_INTERVAL * n
        invariant n <= 300 && Resolutions(trace) == Resolutions(old(trace)) + n
        invariant Unseen(trace, |old(trace)|, |trace|, record)
        decreases deadline - Now()
      {
        ghost var t := trace;
        var a := Perform(ResolveTxt(name));
        QuietStep(t, Event(ResolveTxt(name), a), Some(nonce), Some(record), setup);
        CountStep(t, Event(ResolveTxt(name), a));
        n := n + 1;
        if a.throws {
          Thrown(trace);
          return false;
        }
        if expected in a.values {
          return true;
        }
        UnseenStep(t, Event(ResolveTxt(name), a), |old(trace)|, record);
        t := trace;
        var s := Pause(nonce, Some(record));
        UnseenStep(t, trace[|t|], |old(trace)|, record);
        if s.throws {
          return false;
        }
      }
      assert trace[..|old(trace)|] == old(trace);
      WaitedInVain(trace, |old(trace)|, record);
      ok := false;
    }

    method PollUntilDone(url: string, nonce: string, done: string, ghost record: Option<Record>) returns (r: Option<Answer>)
      requires Orderly(trace, Some(nonce), record, setup) && done == "valid"
      requires if record.Some? then Listed(trace, url) else Ordered(trace, url)
      modifies this
      ensures old(trace) <= trace && Orderly(trace, None, record, setup)
      ensures Posts(trace) <= Posts(old(trace)) + 300
      ensures r.Some? ==>
        && |trace| > |old(trace)| && trace[|trace| - 1].call.Post? && trace[|trace| - 1].call.url == url
        && trace[|trace| - 1].answer == r.value && (r.value.Reports(done) || r.value.Reports("invalid"))
        && Orderly(trace, Some(r.value.nonce), record, setup)
        && (Ordered(old(trace), url) && r.value.body.status == "valid" && r.value.body.certificate == "" ==> Fault(trace))
      ensures r.None? || r.value.body.status != done ==> Fault(trace)
    {
      hide Posts, Fault, Spent, Listed, Ordered, OffersDns01;
      var deadline := Now() + POLL_TIMEOUT;
      var currentNonce := nonce;
      ghost var n: nat := 0;
      while Now() < deadline
        invariant old(trace) <= trace && Orderly(trace, Some(currentNonce), record, setup)
        invariant Now() >= old(Now()) + POLL_INTERVAL * n
        invariant n <= 300 && Posts(trace) == Posts(old(trace)) + n
        invariant forall k :: |old(trace)| <= k < |trace| ==>
                    trace[k].call.Sleep? || (trace[k].call.Post? && trace[k].call.url == url && trace[k].call.payload == Nothing && trace[k].answer.body.Object?
                                             && trace[k].answer.body.status != "valid" && trace[k].answer.body.status != "invalid")
        decreases deadline - Now()
      {
        hide Orderly;
        ghost var t := trace;
        ListedLater(old(trace), t, url);
        var res := SignedPost(url, currentNonce, Nothing, record);
        assert trace[..|t|] == t;
        PublishedIs(t, currentNonce, record, setup);
        PolledBadly(trace, url);
        n := n + 1;
        if res.None? || !res.value.body.Object? {
          WeakerNonce(trace, record, setup);
          return None;
        }
        currentNonce := res.value.nonce;
        if res.value.body.status == done || res.value.body.status == "invalid" {
          return res;
        }
        t := trace;
        var s := Pause(currentNonce, record);
        if s.throws {
          WeakerNonce(trace, record, setup);
          return None;
        }
      }
      assert trace[..|old(trace)|] == old(trace);
      PolledInVain(trace, |old(trace)|, url);
      r := None;
    }

    /** The part of an authorization between publishing the record and withdrawing it. */
    method Validate(authUrl: string, challenge: Challenge, nonce: string, record: Record, ghost asked: nat) returns (next: Option<string>)
      requires Orderly(trace, Some(nonce), Some(record), setup) && Listed(trace, authUrl)
      requires asked < |trace| && AskedFor(trace[asked], record, setup) && ChallengeOf(trace[asked], challenge.url)
      modifies this
      ensures old(trace) <= trace && Orderly(trace, next, Some(record), setup)
      ensures next.Some? ==> ReportedValid(trace, authUrl)
      ensures next.None? ==> Fault(trace)
    {
      hide Posts, Resolutions, Fault, Listed, AskedFor, ChallengeOf, Spent;
      next := None;
      var seen := WaitForPropagation(record.name, record.value, nonce, record);
      if !seen {
        return;
      }
      assert trace[asked] == old(trace)[asked];
      var responded := SignedPost(challenge.url, nonce, Ready, Some(record));
      if responded.None? {
        return;
      }
      ListedLater(old(trace), trace, authUrl);
      var polled := PollUntilDone(authUrl, responded.value.nonce, "valid", Some(record));
      if polled.None? || polled.value.body.status != "valid" {
        return;
      }
      next := Some(polled.value.nonce);
    }

    /** One turn of the loop over the order's authorizations. */
    method Authorize(authUrl: string, nonce: string) returns (next: Option<string>)
      requires Orderly(trace, Some(nonce), None, setup) && Listed(trace, authUrl)
      modifies this
      ensures old(trace) <= trace && Orderly(trace, next, None, setup)
      ensures next.Some? ==> ReportedValid(trace, authUrl)
      ensures next.None? ==> Fault(trace)
    {
      hide Posts, Resolutions, Threaded, Tidy, Prompted, LastNonce, Published, Fault, Listed, AskedFor, ChallengeOf, Spent, FindDns01, TxtRecordName;
      next := None;
      var fetched := SignedPost(authUrl, nonce, Nothing, None);
      assert trace[..|old(trace)|] == old(trace);
      FetchedBadly(trace, authUrl);
      if fetched.None? || !fetched.value.body.Object? {
        return;
      }
      var authorization := fetched.value.body;
      if authorization.status == "valid" {
        return Some(fetched.value.nonce);
      }
      if authorization.challenges.None? || FindDns01(authorization.challenges.value).None? {
        return;
      }
      var challenge := FindDns01(authorization.challenges.value).value;
      var record := Record(setup.zone, TxtRecordName(authorization.identifier), setup.TxtValue(challenge.token));
      ghost var t, asked := trace, |trace| - 1;
      BuiltAsAsked(trace[asked], setup);
      var publication := Perform(SetRecord(record));
      SetStep(t, Event(SetRecord(record), publication), Some(fetched.value.nonce), setup);
      Culprit(trace);
      if publication.throws {
        return;
      }
      assert trace[asked] == t[asked];
      ListedLater(old(trace), trace, authUrl);
      next := Validate(authUrl, challenge, fetched.value.nonce, record, asked);
      t := trace;
      var deleted := Perform(DeleteRecord(record));
      DeleteStep(t, Event(DeleteRecord(record), deleted), next, setup);
      Culprit(trace);
      if next.Some? {
        ReportedLater(t, trace, authUrl);
      } else {
        FaultLater(t, trace);
      }
      if deleted.throws {
        next := None;
      }
    }

    /** Directory, nonce, account and order. */
    method PlaceOrder(directoryUrl: string, names: seq<string>) returns (r: Option<Answer>)
      requires trace == []
      modifies this
      ensures Orderly(trace, None, None, setup)
      ensures r.Some? ==> trace != [] && Orders(trace[|trace| - 1], names) && trace[|trace| - 1].answer == r.value
      ensures r.Some? ==> Orderly(trace, Some(r.value.nonce), None, setup)
      ensures r.Some? ==> Opening(trace, directoryUrl, names)
      ensures r.None? ==> Fault(trace)
    {
      hide Orderly, Posts, Resolutions, Fault, Spent, AskedFor, ChallengeOf, Seen;
      NothingYet(setup);
      r := None;
      var key := LoadOrCreateAccountKey();
      if !key {
        return;
      }
      ghost var t := trace;
      var dir := Perform(Get(directoryUrl));
      QuietStep(t, Event(Get(directoryUrl), dir), None, None, setup);
      Culprit(trace);
      if dir.throws || dir.status >= 400 || !dir.body.Object? {
        return;
      }
      t := trace;
      var head := Perform(Head(dir.body.newNonce));
      QuietStep(t, Event(Head(dir.body.newNonce), head), None, None, setup);
      Culprit(trace);
      if head.throws || head.nonce == "" {
        return;
      }
      var registered := SignedPost(dir.body.newAccount, head.nonce, NewAccount, None);
      Culprit(trace);
      if registered.None? || registered.value.location == "" {
        return;
      }
      var order := SignedPost(dir.body.newOrder, registered.value.nonce, NewOrder(names), None);
      Culprit(trace);
      if order.None? || order.value.location == "" || !order.value.body.Object? || order.value.body.authorizations.None? {
        return;
      }
      r := order;
    }

    /** The loop over the order's authorizations. */
    method AuthorizeAll(authorizations: seq<string>, nonce: string) returns (next: Option<string>)
      requires Orderly(trace, Some(nonce), None, setup)
      requires forall k :: 0 <= k < |authorizations| ==> Listed(trace, authorizations[k])
      modifies this
      ensures old(trace) <= trace && Orderly(trace, next, None, setup)
      ensures next.Some? ==> forall k :: 0 <= k < |authorizations| ==> ReportedValid(trace, authorizations[k])
      ensures next.None? ==> Fault(trace)
    {
      hide Orderly, ReportedValid, Fault, Listed, Spent;
      next := Some(nonce);
      for i := 0 to |authorizations|
        invariant old(trace) <= trace && next.Some? && Orderly(trace, next, None, setup)
        invariant forall k :: 0 <= k < i ==> ReportedValid(trace, authorizations[k])
      {
        ghost var t := trace;
        ListedLater(old(trace), t, authorizations[i]);
        next := Authorize(authorizations[i], next.value);
        if next.None? {
          return;
        }
        AllReportedLater(t, trace, authorizations[..i]);
        assert forall k :: 0 <= k < i ==> authorizations[..i][k] == authorizations[k];
      }
    }

    /** From the finished authorizations to the certificate. */
    method Download(finalize: string, orderUrl: string, nonce: string, names: seq<string>) returns (r: Option<Answer>)
      requires Orderly(trace, Some(nonce), None, setup) && Ordered(trace, orderUrl) && trace != []
      modifies this
      ensures old(trace) < trace && Orderly(trace, None, None, setup)
      ensures r.None? ==> Fault(trace)
      ensures r.Some? ==>
        && trace[|trace| - 1].call.Post? && trace[|trace| - 1].answer == r.value && r.value.Accepted()
        && Finalized(trace, |old(trace)| - 1, finalize, names) && Issued(trace, orderUrl, trace[|trace| - 1].call.url)
    {
      hide Orderly, Fault, Spent, Ordered, Listed, Published, Posts;
      r := None;
      var finalized := SignedPost(finalize, nonce, Finalize(names), None);
      ghost var f := |trace| - 1;
      Culprit(trace);
      if finalized.None? || finalized.value.body.Broken? {
        return;
      }
      ListedLater(old(trace), trace, orderUrl);
      var polled := PollUntilDone(orderUrl, finalized.value.nonce, "valid", None);
      if polled.None? || polled.value.body.status != "valid" || polled.value.body.certificate == "" {
        if polled.Some? {
          WeakerNonce(trace, None, setup);
        }
        return;
      }
      ghost var p := |trace| - 1;
      r := SignedPost(polled.value.body.certificate, polled.value.nonce, Nothing, None);
      assert trace[f].call.payload == Finalize(names);
      assert trace[p].answer.Reports("valid");
    }

    /** certEnsure: true when it returns, false when it throws. */
    method CertEnsure(directoryUrl: string, names: seq<string>, certName: string) returns (ok: bool)
      requires trace == []
      modifies this
      ensures Threaded(trace)
      ensures Tidy(trace) && Published(trace) == None
      ensures Prompted(trace, setup)
      ensures forall i :: 0 <= i < |trace| && trace[i].call.Store? ==>
                i == |trace| - 1 && trace[i].call.certName == certName && trace[i].call.names == names
                && Justified(trace[..i], trace[i].call.certPem, names)
      ensures ok <==> trace != [] && trace[|trace| - 1].call.Store? && !trace[|trace| - 1].answer.throws
      // progress: it succeeds whenever nothing goes wrong
      ensures !Fault(trace) ==> ok
    {
      hide Orderly, Threaded, Tidy, Prompted, LastNonce, Published, Posts, Resolutions, Fault, Spent, Listed, Ordered, Finalized, Issued, ReportedValid, Opening;
      ok := false;
      var order := PlaceOrder(directoryUrl, names);
      if order.None? {
        InOrder(trace, setup);
        return;
      }
      ghost var o := |trace| - 1;
      ghost var placed := trace[o];
      var nonce := order.value.nonce;
      var authorizations := order.value.body.authorizations.value;
      OrderLists(trace, o);
      var next := AuthorizeAll(authorizations, nonce);
      if next.None? {
        InOrder(trace, setup);
        return;
      }
      ghost var t := trace;
      ListedBy(placed, o, t);
      var downloaded := Download(order.value.body.finalize, order.value.location, next.value, names);
      if downloaded.None? {
        InOrder(trace, setup);
        return;
      }
      AllReportedLater(t, trace, authorizations);
      ghost var before := trace;
      assert Finalized(before, o, placed.answer.body.finalize, names) by {
        FinalizedSince(before, o, |t| - 1, placed.answer.body.finalize, names);
      }
      assert before[o] == placed && Orders(before[o], names);
      assert Justified(before, downloaded.value.text, names);
      var stored := Perform(Store(certName, downloaded.value.text, names));
      InOrder(before, setup);
      StoreStep(before, Event(Store(certName, downloaded.value.text, names), stored), setup);
      Culprit(trace);
      ok := !stored.throws;
    }
  }

  /** A bad last event is a fault. */
  lemma Culprit(t: Trace)
    requires t != []
    ensures BadEvent(t[|t| - 1]) ==> Fault(t)
  {
  }

  /** The directory, a nonce, the account and the order, each asked for where the directory says. */
  predicate Opening(t: Trace, directoryUrl: string, names: seq<string>) {
    && |t| >= 4
    && var d := |t| - 4;
       && t[d].call == Get(directoryUrl) && t[d].answer.body.Object?
       && t[d + 1].call == Head(t[d].answer.body.newNonce)
       && t[d + 2].call.Post? && t[d + 2].call.url == t[d].answer.body.newAccount && t[d + 2].call.payload == NewAccount
       && t[d + 3].call.Post? && t[d + 3].call.url == t[d].answer.body.newOrder && t[d + 3].call.payload == NewOrder(names)
  }

  lemma OrderLists(t: Trace, o: nat)
    requires o < |t| && t[o].call.Post? && t[o].call.payload.NewOrder? && t[o].answer.body.Object? && t[o].answer.body.authorizations.Some?
    ensures var urls := t[o].answer.body.authorizations.value; forall k :: 0 <= k < |urls| ==> Listed(t, urls[k])
    ensures Ordered(t, t[o].answer.location)
  {
  }

  lemma FinalizedSince(t: Trace, o: nat, n: nat, url: string, names: seq<string>)
    requires o <= n && Finalized(t, n, url, names)
    ensures Finalized(t, o, url, names)
  {
  }

  lemma ListedBy(e: Event, o: nat, t: Trace)
    requires o < |t| && t[o] == e && e.call.Post? && e.call.payload.NewOrder?
    ensures Ordered(t, e.answer.location)
  {
  }

  lemma Thrown(t: Trace)
    requires t != [] && t[|t| - 1].answer.throws
    ensures Fault(t)
  {
    assert BadEvent(t[|t| - 1]);
  }

  lemma UnseenYet(t: Trace, record: Record)
    ensures Unseen(t, |t|, |t|, record)
  {
  }

  lemma UnseenStep(t: Trace, e: Event, a: nat, record: Record)
    requires a <= |t| && Unseen(t, a, |t|, record)
    requires e.call.Sleep? || (e.call == ResolveTxt(record.name) && record.value !in e.answer.values)
    ensures Unseen(t + [e], a, |t + [e]|, record)
  {
  }

  lemma WaitedInVain(t: Trace, a: nat, record: Record)
    requires a <= |t| && Published(t[..a]) == Some(record) && Spent(t) >= Spent(t[..a]) + 600_000
    requires Unseen(t, a, |t|, record)
    ensures Fault(t)
  {
    assert t[..|t|] == t;
    assert NeverSeen(t, a, |t|);
  }

  lemma PolledInVain(t: Trace, a: nat, url: string)
    requires a <= |t| && (Listed(t[..a], url) || Ordered(t[..a], url)) && Spent(t) >= Spent(t[..a]) + 600_000
    requires forall k :: a <= k < |t| ==>
               t[k].call.Sleep? || (t[k].call.Post? && t[k].call.url == url && t[k].call.payload == Nothing && t[k].answer.body.Object?
                                    && t[k].answer.body.status != "valid" && t[k].answer.body.status != "invalid")
    ensures Fault(t)
  {
    assert t[..|t|] == t;
    assert NeverDone(t, a, |t|, url);
  }

  /** A poll that ends badly. */
  lemma PolledBadly(t: Trace, url: string)
    requires t != [] && t[|t| - 1].call.Post? && t[|t| - 1].call.url == url && t[|t| - 1].call.payload == Nothing
    requires if Published(t[..|t| - 1]).Some? then Listed(t[..|t| - 1], url) else Ordered(t[..|t| - 1], url)
    ensures var body := t[|t| - 1].answer.body;
            && (!body.Object? || body.status == "invalid" ==> Fault(t))
            && (Ordered(t[..|t| - 1], url) && body.Object? && body.status == "valid" && body.certificate == "" ==> Fault(t))
  {
    hide Listed, Ordered, Published, OffersDns01;
    var k := |t| - 1;
    assert Published(t[..k]).Some? && Listed(t[..k], url) && (!t[k].answer.body.Object? || t[k].answer.body.status == "invalid") ==> BadAuthorization(t, k);
    assert Ordered(t[..k], url) && (!t[k].answer.body.Object? || t[k].answer.body.status == "invalid" || (t[k].answer.body.status == "valid" && t[k].answer.body.certificate == "")) ==> BadOrder(t, k);
  }

  /** A fetched authorization that the flow cannot go on with. */
  lemma FetchedBadly(t: Trace, url: string)
    requires t != [] && t[|t| - 1].call.Post? && t[|t| - 1].call.url == url && t[|t| - 1].call.payload == Nothing
    requires Listed(t[..|t| - 1], url) && Published(t[..|t| - 1]).None?
    ensures var body := t[|t| - 1].answer.body;
            && (!body.Object? ==> Fault(t))
            && (body.Object? && body.status != "valid" && (body.challenges.None? || FindDns01(body.challenges.value).None?) ==> Fault(t))
  {
    hide Listed, FindDns01, Published;
    var k := |t| - 1;
    var body := t[k].answer.body;
    if body.Object? && body.challenges.Some? {
      var _ := FindsFirst(body.challenges.value);
    }
    assert !body.Object? || (body.status != "valid" && !OffersDns01(body)) ==> BadAuthorization(t, k);
  }

  lemma NothingYet(setup: Setup)
    ensures Orderly([], None, None, setup)
  {
  }

  lemma PublishedIs(t: Trace, nonce: string, record: Option<Record>, setup: Setup)
    requires Orderly(t, Some(nonce), record, setup)
    ensures Published(t) == record
  {
  }

  lemma WeakerNonce(t: Trace, record: Option<Record>, setup: Setup)
    ensures forall nonce :: Orderly(t, nonce, record, setup) ==> Orderly(t, None, record, setup)
  {
  }

  lemma AllReportedLater(t: Trace, u: Trace, urls: seq<string>)
    requires t <= u && forall k :: 0 <= k < |urls| ==> ReportedValid(t, urls[k])
    ensures forall k :: 0 <= k < |urls| ==> ReportedValid(u, urls[k])
    ensures forall url <- urls :: ReportedValid(u, url)
  {
    forall k | 0 <= k < |urls|
      ensures ReportedValid(u, urls[k])
    {
      ReportedLater(t, u, urls[k]);
    }
  }

  lemma InOrder(t: Trace, setup: Setup)
    requires Orderly(t, None, None, setup)
    ensures Threaded(t) && Tidy(t) && Published(t) == None && Prompted(t, setup)
    ensures forall i :: 0 <= i < |t| ==> !t[i].call.Store?
  {
  }

  lemma StoreStep(t: Trace, e: Event, setup: Setup)
    requires Orderly(t, None, None, setup) && e.call.Store?
    ensures Threaded(t + [e]) && Tidy(t + [e]) && Prompted(t + [e], setup) && Published(t + [e]) == None && (t + [e])[..|t|] == t
  {
    Snoc(t, e);
  }

  // ---------- the promises, event by event ----------

  predicate NoHttpBetween(t: Trace, j: nat, i: nat)
    requires i <= |t|
  {
    forall k :: j < k < i ==> !t[k].call.Http()
  }

  lemma {:induction false} LatestResponse(t: Trace)
    requires LastNonce(t).Some?
    ensures exists j :: 0 <= j < |t| && t[j].call.Http() && !t[j].answer.throws && t[j].answer.nonce == LastNonce(t).value && NoHttpBetween(t, j, |t|)
  {
    var n := |t| - 1;
    if t[n].call.Http() {
      assert NoHttpBetween(t, n, |t|);
    } else {
      LatestResponse(t[..n]);
      var j :| 0 <= j < n && t[..n][j].call.Http() && !t[..n][j].answer.throws && t[..n][j].answer.nonce == LastNonce(t[..n]).value && NoHttpBetween(t[..n], j, n);
      assert forall k :: j < k < n ==> t[k] == t[..n][k];
      assert t[j] == t[..n][j];
      assert NoHttpBetween(t, j, |t|);
    }
  }

  lemma {:induction false} ThreadedAt(t: Trace, i: nat)
    requires Threaded(t) && i < |t| && t[i].call.Post?
    ensures LastNonce(t[..i]) == Some(t[i].call.nonce)
  {
    if i < |t| - 1 {
      ThreadedAt(t[..|t| - 1], i);
      assert t[..|t| - 1][..i] == t[..i];
    }
  }

  /** Section 6.5 of RFC 8555: every signed request carries the nonce of the response immediately before it. */
  lemma NonceOfPreviousResponse(t: Trace, i: nat)
    requires Threaded(t) && i < |t| && t[i].call.Post?
    ensures exists j :: 0 <= j < i && t[j].call.Http() && !t[j].answer.throws && t[j].answer.nonce == t[i].call.nonce && NoHttpBetween(t, j, i)
  {
    ThreadedAt(t, i);
    LatestResponse(t[..i]);
    var u := t[..i];
    var j :| 0 <= j < i && u[j].call.Http() && !u[j].answer.throws && u[j].answer.nonce == t[i].call.nonce && NoHttpBetween(u, j, i);
    assert u[j] == t[j] && forall k :: j < k < i ==> t[k] == u[k];
    assert NoHttpBetween(t, j, i);
  }

  predicate Dns(c: Call) { c.SetRecord? || c.DeleteRecord? }

  predicate NoDnsBetween(t: Trace, i: nat, j: nat)
    requires j <= |t|
  {
    forall k :: i < k < j ==> !Dns(t[k].call)
  }

  lemma {:induction false} StaysPublished(t: Trace, i: nat, j: nat)
    requires i < j <= |t| && t[i].call.SetRecord? && !t[i].answer.throws && NoDnsBetween(t, i, j)
    ensures Published(t[..j]) == Some(t[i].call.record)
    decreases j
  {
    var u := t[..j];
    assert u[..j - 1] == t[..j - 1];
    if j > i + 1 {
      assert !Dns(t[j - 1].call);
      StaysPublished(t, i, j - 1);
    }
  }

  lemma {:induction false} TidyAt(t: Trace, j: nat)
    requires Tidy(t) && j < |t|
    ensures t[j].call.SetRecord? ==> Published(t[..j]) == None
    ensures t[j].call.DeleteRecord? ==> Published(t[..j]) == Some(t[j].call.record)
  {
    if j < |t| - 1 {
      TidyAt(t[..|t| - 1], j);
      assert t[..|t| - 1][..j] == t[..j];
    }
  }

  /** Every published record is withdrawn by the next DNS call of the run, and there is one. */
  lemma CleanedUp(t: Trace, i: nat) returns (j: nat)
    requires Tidy(t) && Published(t) == None && i < |t| && t[i].call.SetRecord? && !t[i].answer.throws
    ensures i < j < |t| && t[j].call == DeleteRecord(t[i].call.record) && NoDnsBetween(t, i, j)
  {
    hide Tidy, Published;
    j := i + 1;
    while j < |t| && !Dns(t[j].call)
      invariant i < j <= |t| && NoDnsBetween(t, i, j)
    {
      j := j + 1;
    }
    StaysPublished(t, i, j);
    assert t[..|t|] == t;
    TidyAt(t, j);
  }

  lemma {:induction false} PublishedBy(t: Trace, r: Record)
    requires Tidy(t) && Published(t) == Some(r)
    ensures exists i :: 0 <= i < |t| && t[i].call == SetRecord(r) && !t[i].answer.throws && NoDnsBetween(t, i, |t|)
  {
    var n := |t| - 1;
    if t[n].call.SetRecord? {
      assert NoDnsBetween(t, n, |t|);
    } else {
      PublishedBy(t[..n], r);
      var i :| 0 <= i < n && t[..n][i].call == SetRecord(r) && !t[..n][i].answer.throws && NoDnsBetween(t[..n], i, n);
      assert t[i] == t[..n][i] && forall k :: i < k < n ==> t[k] == t[..n][k];
      assert NoDnsBetween(t, i, |t|);
    }
  }

  lemma {:induction false} TidyPrefix(t: Trace, j: nat)
    requires Tidy(t) && j <= |t|
    ensures Tidy(t[..j])
  {
    if j < |t| {
      TidyPrefix(t[..|t| - 1], j);
      assert t[..|t| - 1][..j] == t[..j];
    } else {
      assert t[..j] == t;
    }
  }

  /** Nothing else is ever withdrawn: the DNS call before a delete published that very record. */
  lemma DeletesMatch(t: Trace, j: nat)
    requires Tidy(t) && j < |t| && t[j].call.DeleteRecord?
    ensures exists i :: 0 <= i < j && t[i].call == SetRecord(t[j].call.record) && !t[i].answer.throws && NoDnsBetween(t, i, j)
  {
    TidyAt(t, j);
    TidyPrefix(t, j);
    var u, r := t[..j], t[j].call.record;
    PublishedBy(u, r);
    var i :| 0 <= i < j && u[i].call == SetRecord(r) && !u[i].answer.throws && NoDnsBetween(u, i, j);
    assert t[i] == u[i] && forall k :: i < k < j ==> t[k] == u[k];
    assert NoDnsBetween(t, i, j);
  }
}

/** Request correlation in the app-server client: ids, the pending map, one
    timer per request, and five ways a request can end. */
module RequestModel {
  import opened Basics
  import opened OrderedMap

  /** An id as it comes back on the wire. Only numbers are ever handed out. */
  datatype WireId = NullId | NumberId(n: int) | TextId(s: string)

  datatype Outcome =
    | Fulfilled(result: int)
    | Refused(error: int)
    | TimedOut
    | SendFailed
    | ClosedOut(code: Option<int>)

  /** What `transport.send` did: it returned, it threw, or before throwing it
      reported the transport closed or delivered the answer to this request. */
  datatype Sending =
    | Sent
    | Threw
    | ClosedAndThrew(code: Option<int>)
    | AnsweredAndThrew(error: bool, payload: int)

  datatype Client = Client(
    nextId: nat,
    pending: seq<(nat, string)>,
    armed: set<nat>,
    closed: bool,
    // history: the promises settled so far, in order
    settled: seq<(nat, Outcome)>)

  const Start := Client(1, [], {}, false, [])

  /** A promise takes its first settlement and ignores the rest. */
  function Settle(log: seq<(nat, Outcome)>, id: nat, o: Outcome): seq<(nat, Outcome)> {
    if Has(log, id) then log else log + [(id, o)]
  }

  function ClosedLog(pending: seq<(nat, string)>, code: Option<int>): seq<(nat, Outcome)> {
    seq(|pending|, i requires 0 <= i < |pending| => (pending[i].0, ClosedOut(code)))
  }

  /** Every pending request is rejected, oldest first. */
  function RejectAll(c: Client, code: Option<int>): Client {
    c.(pending := [], armed := {}, settled := c.settled + ClosedLog(c.pending, code))
  }

  function Close(c: Client, code: Option<int>): Client { RejectAll(c.(closed := true), code) }

  function Stop(c: Client): Client { if c.closed then c else Close(c, None) }

  function Forget(c: Client, id: nat): Client {
    c.(pending := Drop<nat, string>(c.pending, id), armed := c.armed - {id})
  }

  function End(c: Client, id: nat, o: Outcome): Client {
    Forget(c, id).(settled := Settle(c.settled, id, o))
  }

  function Open(c: Client, name: string): Client {
    c.(nextId := c.nextId + 1, pending := Put<nat, string>(c.pending, c.nextId, name), armed := c.armed + {c.nextId})
  }

  /** A closed client gives out no id. */
  function Request(c: Client, name: string, sending: Sending): (Client, Option<nat>) {
    if c.closed then (c, None)
    else
      var grown := Open(c, name);
      match sending
      case Sent => (grown, Some(c.nextId))
      case Threw => (End(grown, c.nextId, SendFailed), Some(c.nextId))
      case ClosedAndThrew(code) =>
        var shut := Close(grown, code);
        (shut.(settled := Settle(shut.settled, c.nextId, SendFailed)), Some(c.nextId))
      case AnsweredAndThrew(error, payload) =>
        var answered := End(grown, c.nextId, Reply(error, payload));
        (answered.(settled := Settle(answered.settled, c.nextId, SendFailed)), Some(c.nextId))
  }

  function Response(c: Client, id: WireId, o: Outcome): Client {
    if id.NumberId? && id.n >= 0 && Has(c.pending, id.n) then End(c, id.n, o) else c
  }

  /** A timer fires only while it is armed. */
  function Timeout(c: Client, id: nat): Client { if id in c.armed then End(c, id, TimedOut) else c }

  datatype Op =
    | OpRequest(name: string, sending: Sending)
    | OpResponse(id: WireId, error: bool, payload: int)
    | OpTimeout(timer: nat)
    | OpClose(code: Option<int>)
    | OpStop

  function Reply(error: bool, payload: int): Outcome { if error then Refused(payload) else Fulfilled(payload) }

  function Apply(c: Client, op: Op): Client {
    match op
    case OpRequest(name, sending) => Request(c, name, sending).0
    case OpResponse(id, error, payload) => Response(c, id, Reply(error, payload))
    case OpTimeout(id) => Timeout(c, id)
    case OpClose(code) => Close(c, code)
    case OpStop => Stop(c)
  }

  function Run(c: Client, ops: seq<Op>): Client {
    if ops == [] then c else Apply(Run(c, ops[..|ops| - 1]), ops[|ops| - 1])
  }

  // ---- invariant ------------------------------------------------------

  /** Handed-out ids split into pending and settled, each exactly once. */
  predicate Split(c: Client, id: nat) {
    && (1 <= id < c.nextId <==> Has(c.pending, id) || Has(c.settled, id))
    && !(Has(c.pending, id) && Has(c.settled, id))
    && (id in c.armed <==> Has(c.pending, id))
  }

  ghost predicate Inv(c: Client) {
    && 1 <= c.nextId
    && Distinct(c.pending) && Distinct(c.settled)
    && (forall id: nat :: Split(c, id))
    && (c.closed ==> c.pending == [])
  }

  lemma StartInv()
    ensures Inv(Start)
  {
    forall id: nat ensures Split(Start, id) {}
  }

  lemma HasSnoc<V>(m: seq<(nat, V)>, p: (nat, V), id: nat)
    ensures Has(m + [p], id) <==> Has(m, id) || p.0 == id
  {
    var w := m + [p];
    if i :| 0 <= i < |m| && m[i].0 == id { assert w[i].0 == id; }
    if p.0 == id { assert w[|m|].0 == id; }
    if i :| 0 <= i < |w| && w[i].0 == id {
      if i < |m| { assert m[i].0 == id; }
    }
  }

  lemma DistinctSnoc<V>(m: seq<(nat, V)>, p: (nat, V))
    requires Distinct(m) && !Has(m, p.0)
    ensures Distinct(m + [p])
  {
    var w := m + [p];
    forall i, j | 0 <= i < j < |w| ensures w[i].0 != w[j].0 {
      if j < |m| { assert w[i] == m[i] && w[j] == m[j]; } else { assert w[i] == m[i]; }
    }
  }

  lemma EndKeeps(c: Client, id: nat, o: Outcome)
    requires Inv(c) && Has(c.pending, id)
    ensures Inv(End(c, id, o)) && End(c, id, o).settled == c.settled + [(id, o)]
  {
    var d := End(c, id, o);
    assert Split(c, id);
    DistinctSnoc<Outcome>(c.settled, (id, o));
    DropKeys<nat, string>(c.pending, id, id);
    forall g: nat ensures Split(d, g) {
      assert Split(c, g);
      DropKeys<nat, string>(c.pending, id, g);
      HasSnoc<Outcome>(c.settled, (id, o), g);
    }
    assert c.pending != [];
  }

  lemma OpenKeeps(c: Client, name: string)
    requires Inv(c) && !c.closed
    ensures Inv(Open(c, name)) && Has(Open(c, name).pending, c.nextId)
  {
    var d := Open(c, name);
    PutKeys<nat, string>(c.pending, c.nextId, name, c.nextId);
    forall g: nat ensures Split(d, g) {
      assert Split(c, g);
      PutKeys<nat, string>(c.pending, c.nextId, name, g);
    }
  }

  lemma ClosedLogKeys(pending: seq<(nat, string)>, code: Option<int>, id: nat)
    ensures Has(ClosedLog(pending, code), id) <==> Has(pending, id)
  {
    var w := ClosedLog(pending, code);
    if i :| 0 <= i < |pending| && pending[i].0 == id { assert w[i].0 == id; }
    if i :| 0 <= i < |w| && w[i].0 == id { assert pending[i].0 == id; }
  }

  lemma HasConcat<V>(a: seq<(nat, V)>, b: seq<(nat, V)>, id: nat)
    ensures Has(a + b, id) <==> Has(a, id) || Has(b, id)
  {
    var w := a + b;
    if i :| 0 <= i < |a| && a[i].0 == id { assert w[i].0 == id; }
    if i :| 0 <= i < |b| && b[i].0 == id { assert w[|a| + i].0 == id; }
    if i :| 0 <= i < |w| && w[i].0 == id {
      if i < |a| { assert a[i].0 == id; } else { assert b[i - |a|].0 == id; }
    }
  }

  lemma CloseKeeps(c: Client, code: Option<int>)
    requires Inv(c)
    ensures Inv(Close(c, code))
  {
    var d, log := Close(c, code), ClosedLog(c.pending, code);
    forall g: nat ensures Split(d, g) {
      assert Split(c, g);
      HasConcat<Outcome>(c.settled, log, g);
      ClosedLogKeys(c.pending, code, g);
    }
    var w := d.settled;
    forall i, j | 0 <= i < j < |w| ensures w[i].0 != w[j].0 {
      if i < |c.settled| <= j {
        var id := w[i].0;
        assert Has(c.settled, id) by { assert c.settled[i].0 == id; }
        assert Split(c, id);
        assert w[j].0 == c.pending[j - |c.settled|].0;
      } else if |c.settled| <= i {
        assert w[i].0 == c.pending[i - |c.settled|].0 && w[j].0 == c.pending[j - |c.settled|].0;
      }
    }
  }

  lemma RequestKeeps(c: Client, name: string, sending: Sending)
    requires Inv(c)
    ensures Inv(Request(c, name, sending).0)
  {
    if !c.closed {
      OpenKeeps(c, name);
      var grown := Open(c, name);
      match sending
      case Sent =>
      case Threw => EndKeeps(grown, c.nextId, SendFailed);
      case ClosedAndThrew(code) =>
        CloseKeeps(grown, code);
        assert Split(Close(grown, code), c.nextId);
      case AnsweredAndThrew(error, payload) =>
        EndKeeps(grown, c.nextId, Reply(error, payload));
        assert Split(End(grown, c.nextId, Reply(error, payload)), c.nextId);
    }
  }

  lemma ApplyKeeps(c: Client, op: Op)
    requires Inv(c)
    ensures Inv(Apply(c, op))
  {
    match op
    case OpRequest(name, sending) => RequestKeeps(c, name, sending);
    case OpResponse(id, error, payload) =>
      if id.NumberId? && id.n >= 0 && Has(c.pending, id.n) { EndKeeps(c, id.n, Reply(error, payload)); }
    case OpTimeout(id) =>
      assert Split(c, id);
      if id in c.armed { EndKeeps(c, id, TimedOut); }
    case OpClose(code) => CloseKeeps(c, code);
    case OpStop => CloseKeeps(c, None);
  }

  lemma {:induction false} RunKeeps(c: Client, ops: seq<Op>)
    requires Inv(c)
    ensures Inv(Run(c, ops))
  {
    if ops != [] {
      RunKeeps(c, ops[..|ops| - 1]);
      ApplyKeeps(Run(c, ops[..|ops| - 1]), ops[|ops| - 1]);
    }
  }

  // ---- main results ---------------------------------------------------

  /** After any run, each id handed out is either pending with its timer armed,
      or settled once with its timer disarmed; a closed client has none pending. */
  lemma Conservation(ops: seq<Op>, id: nat)
    ensures var c := Run(Start, ops);
      && (1 <= id < c.nextId <==> Has(c.pending, id) != Has(c.settled, id))
      && (id in c.armed <==> Has(c.pending, id))
      && !(Has(c.pending, id) && Has(c.settled, id))
      && (forall i, j :: 0 <= i < j < |c.settled| ==> c.settled[i].0 != c.settled[j].0)
      && (c.closed ==> c.pending == [] && c.armed == {})
  {
    StartInv();
    RunKeeps(Start, ops);
    var c := Run(Start, ops);
    assert Split(c, id);
    if c.closed {
      forall g: nat ensures g !in c.armed { assert Split(c, g); }
    }
  }

  /** A settlement is never taken back, in any order of events. */
  lemma {:induction false} SettledForGood(c: Client, ops: seq<Op>)
    ensures c.settled <= Run(c, ops).settled && (c.closed ==> Run(c, ops).closed)
  {
    if ops != [] { SettledForGood(c, ops[..|ops| - 1]); }
  }

  /** A response settles the request that used its id and no other; a late,
      repeated or unknown one changes nothing. */
  lemma ResponseSettlesItsOwn(ops: seq<Op>, id: WireId, error: bool, payload: int)
    ensures var c := Run(Start, ops);
      var d := Apply(c, OpResponse(id, error, payload));
      if id.NumberId? && id.n >= 0 && Has(c.pending, id.n)
      then d.settled == c.settled + [(id.n as nat, if error then Refused(payload) else Fulfilled(payload))]
           && forall g: nat :: (Has(d.pending, g) <==> Has(c.pending, g) && g != id.n)
      else d == c
  {
    StartInv();
    RunKeeps(Start, ops);
    var c := Run(Start, ops);
    if id.NumberId? && id.n >= 0 && Has(c.pending, id.n) {
      EndKeeps(c, id.n, Reply(error, payload));
      forall g: nat { DropKeys<nat, string>(c.pending, id.n, g); }
    }
  }
}

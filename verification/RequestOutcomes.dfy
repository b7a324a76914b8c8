/** How each request of the client ends: what every call settles, and the cause
    behind every settlement of a run. */
module RequestOutcomes {
  import opened Basics
  import opened OrderedMap
  import opened RequestModel

  // ---- ids ------------------------------------------------------------

  predicate Closes(op: Op) { op.OpClose? || op.OpStop? || (op.OpRequest? && op.sending.ClosedAndThrew?) }

  predicate ClosedBy(ops: seq<Op>) { exists i :: 0 <= i < |ops| && Closes(ops[i]) }

  /** The requests made before the client closed. */
  function CountRequests(ops: seq<Op>): nat {
    if ops == [] then 0
    else
      var front := ops[..|ops| - 1];
      CountRequests(front) + if ops[|ops| - 1].OpRequest? && !ClosedBy(front) then 1 else 0
  }

  lemma StepCloses(c: Client, op: Op)
    ensures Apply(c, op).closed <==> c.closed || Closes(op)
    ensures Apply(c, op).nextId == c.nextId + if op.OpRequest? && !c.closed then 1 else 0
  {
  }

  lemma ClosedByMore(ops: seq<Op>)
    requires ops != []
    ensures ClosedBy(ops) <==> ClosedBy(ops[..|ops| - 1]) || Closes(ops[|ops| - 1])
  {
    var front := ops[..|ops| - 1];
    if i :| 0 <= i < |front| && Closes(front[i]) { assert Closes(ops[i]); }
    if i :| 0 <= i < |ops| && Closes(ops[i]) {
      if i < |front| { assert Closes(front[i]); }
    }
  }

  /** The client is closed exactly if some call closed it, and ids count the requests
      made up to then. */
  lemma {:induction false} IdsCountRequests(ops: seq<Op>)
    ensures var c := Run(Start, ops); (c.closed <==> ClosedBy(ops)) && c.nextId == 1 + CountRequests(ops)
  {
    hide Apply, Closes;
    if ops != [] {
      hide ClosedBy;
      IdsCountRequests(ops[..|ops| - 1]);
      ClosedByMore(ops);
      StepCloses(Run(Start, ops[..|ops| - 1]), ops[|ops| - 1]);
    }
  }

  // ---- what each call settles -----------------------------------------

  /** Every pending request of `c` is rejected in `d`, oldest first, as closed. */
  predicate RejectsPending(c: Client, d: Client, code: Option<int>) {
    && d.closed && d.pending == [] && d.armed == {}
    && c.settled <= d.settled && |d.settled| == |c.settled| + |c.pending|
    && forall i :: 0 <= i < |c.pending| ==> d.settled[|c.settled| + i] == (c.pending[i].0, ClosedOut(code))
  }

  /** What a request on an open client leaves behind, by the fate of its send. */
  predicate Sends(c: Client, d: Client, name: string, sending: Sending) {
    match sending
    case Sent => d.settled == c.settled && d.pending == c.pending + [(c.nextId, name)] && d.armed == c.armed + {c.nextId}
    case Threw => d.settled == c.settled + [(c.nextId, SendFailed)] && d.pending == c.pending && d.armed == c.armed
    case ClosedAndThrew(code) => RejectsPending(c.(pending := c.pending + [(c.nextId, name)]), d, code)
    case AnsweredAndThrew(error, payload) =>
      && d.settled == c.settled + [(c.nextId, if error then Refused(payload) else Fulfilled(payload))]
      && d.pending == c.pending && d.armed == c.armed
  }

  lemma OpenAppends(c: Client, name: string)
    requires Inv(c) && !c.closed
    ensures Open(c, name).pending == c.pending + [(c.nextId, name)] && c.nextId !in c.armed
    ensures Forget(Open(c, name), c.nextId) == c.(nextId := c.nextId + 1)
    ensures !Has(c.settled, c.nextId)
  {
    assert Split(c, c.nextId);
    PutFresh<nat, string>(c.pending, c.nextId, name);
    var p := c.pending + [(c.nextId, name)];
    DropLast(c.pending, c.nextId, name);
    assert c.armed + {c.nextId} - {c.nextId} == c.armed;
  }

  lemma {:induction false} DropLast(m: seq<(nat, string)>, id: nat, name: string)
    requires !Has(m, id)
    ensures Drop<nat, string>(m + [(id, name)], id) == m
  {
    if m != [] {
      assert m[0].0 != id;
      assert m == [m[0]] + m[1..];
      HasCons<nat, string>(m[0], m[1..], id);
      assert (m + [(id, name)])[1..] == m[1..] + [(id, name)];
      DropLast(m[1..], id, name);
    }
  }

  /** A request is refused exactly on a closed client, without a trace; on an open one
      it gets the next id and is pending or settled as its send went. */
  lemma RequestSettles(ops: seq<Op>, name: string, sending: Sending)
    ensures var c := Run(Start, ops);
      var (d, id) := Request(c, name, sending);
      && (c.closed ==> id == None && d == c)
      && (!c.closed ==> id == Some(c.nextId) && d.nextId == c.nextId + 1 && Sends(c, d, name, sending))
  {
    StartInv();
    RunKeeps(Start, ops);
    var c := Run(Start, ops);
    if !c.closed { OpenSends(c, name, sending); }
  }

  lemma OpenSends(c: Client, name: string, sending: Sending)
    requires Inv(c) && !c.closed
    ensures var (d, id) := Request(c, name, sending);
      id == Some(c.nextId) && d.nextId == c.nextId + 1 && Sends(c, d, name, sending)
  {
    OpenAppends(c, name);
    hide Inv, Drop, Put;
    match sending
    case Sent =>
    case Threw =>
    case ClosedAndThrew(code) =>
      assert Has(Close(Open(c, name), code).settled, c.nextId) by {
        var w := Close(Open(c, name), code).settled;
        assert w[|c.settled| + |c.pending|].0 == c.nextId;
      }
    case AnsweredAndThrew(error, payload) =>
      assert Has(c.settled + [(c.nextId, Reply(error, payload))], c.nextId) by {
        assert (c.settled + [(c.nextId, Reply(error, payload))])[|c.settled|].0 == c.nextId;
      }
  }

  /** A timeout ends its own pending request, a close every one, and nothing else ends any. */
  lemma EndingsSettle(ops: seq<Op>, id: nat, code: Option<int>)
    ensures var c := Run(Start, ops);
      && (if Has(c.pending, id) then
            && Apply(c, OpTimeout(id)).settled == c.settled + [(id, TimedOut)]
            && (forall g: nat :: Has(Apply(c, OpTimeout(id)).pending, g) <==> Has(c.pending, g) && g != id)
          else Apply(c, OpTimeout(id)) == c)
      && RejectsPending(c, Apply(c, OpClose(code)), code)
      && (if c.closed then Apply(c, OpStop) == c else RejectsPending(c, Apply(c, OpStop), None))
  {
    StartInv();
    RunKeeps(Start, ops);
    var c := Run(Start, ops);
    assert Split(c, id);
    if Has(c.pending, id) {
      EndKeeps(c, id, TimedOut);
      forall g: nat { DropKeys<nat, string>(c.pending, id, g); }
    }
  }

  // ---- over runs ------------------------------------------------------

  /** In state `c` the call `op` settles request `id` with `o`. */
  predicate Causes(c: Client, op: Op, id: nat, o: Outcome) {
    match op
    case OpRequest(_, sending) =>
      (match sending
       case Sent => false
       case Threw => id == c.nextId && o == SendFailed
       case ClosedAndThrew(code) => (Has(c.pending, id) || id == c.nextId) && o == ClosedOut(code)
       case AnsweredAndThrew(error, payload) => id == c.nextId && o == if error then Refused(payload) else Fulfilled(payload))
    case OpResponse(wire, error, payload) =>
      wire == NumberId(id) && Has(c.pending, id) && o == if error then Refused(payload) else Fulfilled(payload)
    case OpTimeout(timer) => timer == id && Has(c.pending, id) && o == TimedOut
    case OpClose(code) => Has(c.pending, id) && o == ClosedOut(code)
    case OpStop => Has(c.pending, id) && o == ClosedOut(None)
  }

  predicate SettledWith(c: Client, id: nat, o: Outcome) { (id, o) in c.settled }

  lemma RejectedAre(c: Client, d: Client, code: Option<int>, id: nat, o: Outcome)
    requires RejectsPending(c, d, code) && SettledWith(d, id, o)
    ensures SettledWith(c, id, o) || (Has(c.pending, id) && o == ClosedOut(code))
  {
    var i :| 0 <= i < |d.settled| && d.settled[i] == (id, o);
    if i < |c.settled| {
      assert c.settled[i] == (id, o);
    } else {
      assert c.pending[i - |c.settled|].0 == id;
    }
  }

  lemma StepSettles(c: Client, op: Op, id: nat, o: Outcome)
    requires Inv(c) && SettledWith(Apply(c, op), id, o)
    ensures SettledWith(c, id, o) || Causes(c, op, id, o)
  {
    var d := Apply(c, op);
    match op
    case OpRequest(name, sending) =>
      if !c.closed {
        OpenSends(c, name, sending);
        hide Inv, Request;
        if sending.ClosedAndThrew? {
          RejectedAre(c.(pending := c.pending + [(c.nextId, name)]), d, sending.code, id, o);
          HasSnoc<string>(c.pending, (c.nextId, name), id);
        }
      }
    case OpResponse(wire, error, payload) =>
      if wire.NumberId? && wire.n >= 0 && Has(c.pending, wire.n) { EndKeeps(c, wire.n, Reply(error, payload)); }
    case OpTimeout(timer) =>
      assert Split(c, timer);
      if timer in c.armed { EndKeeps(c, timer, TimedOut); }
    case OpClose(code) => RejectedAre(c, d, code, id, o);
    case OpStop => if !c.closed { RejectedAre(c, d, None, id, o); }
  }

  /** Every settlement of a run was caused by one call: an answer for this id, its own
      timer, its own failed send, or a close while it was pending, with that call's value. */
  lemma {:induction false} OutcomeHasCause(ops: seq<Op>, id: nat, o: Outcome)
    requires SettledWith(Run(Start, ops), id, o)
    ensures exists k :: 0 <= k < |ops| && Causes(Run(Start, ops[..k]), ops[k], id, o)
  {
    hide Apply, Causes;
    if ops != [] {
      var n := |ops| - 1;
      var front := ops[..n];
      StartInv();
      RunKeeps(Start, front);
      StepSettles(Run(Start, front), ops[n], id, o);
      if SettledWith(Run(Start, front), id, o) {
        OutcomeHasCause(front, id, o);
        var k :| 0 <= k < |front| && Causes(Run(Start, front[..k]), front[k], id, o);
        assert front[..k] == ops[..k] && front[k] == ops[k];
      }
    }
  }
}

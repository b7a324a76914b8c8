/** The correlation part of the app-server client as a mutable object. */
module RequestClient {
  import opened Basics
  import opened OrderedMap
  import opened RequestModel

  class AppServerClient {
    var nextId: nat
    var pending: seq<(nat, string)>
    /** The ids whose `setTimeout` is live. */
    var armed: set<nat>
    var closed: bool
    var settled: seq<(nat, Outcome)>

    ghost function Now(): Client
      reads this
    {
      Client(nextId, pending, armed, closed, settled)
    }

    ghost predicate Valid()
      reads this
    {
      Inv(Now())
    }

    constructor ()
      ensures Valid() && Now() == Start
    {
      nextId, pending, armed, closed, settled := 1, [], {}, false, [];
      new;
      StartInv();
    }

    /** `resolve` or `reject` of one request's promise. */
    method SettlePromise(id: nat, o: Outcome)
      modifies this`settled
      ensures settled == Settle(old(settled), id, o)
    {
      for i := 0 to |settled|
        invariant forall k :: 0 <= k < i ==> settled[k].0 != id
        invariant settled == old(settled)
      {
        if settled[i].0 == id { return; }
      }
      settled := settled + [(id, o)];
    }

    method IsPending(id: nat) returns (found: bool)
      ensures found <==> Has(pending, id)
    {
      for i := 0 to |pending|
        invariant forall k :: 0 <= k < i ==> pending[k].0 != id
      {
        if pending[i].0 == id { return true; }
      }
      return false;
    }

    /** Reject and forget, oldest first, with each timer cleared. */
    method RejectAllPending(code: Option<int>)
      requires Inv(Now().(closed := false))
      modifies this`pending, this`armed, this`settled
      ensures Now() == RejectAll(old(Now()), code)
    {
      ghost var c := Now().(closed := false);
      ghost var log := ClosedLog(c.pending, code);
      ghost var k := 0;
      assert c.pending[0..] == c.pending;
      forall id: nat ensures id in armed <==> Has(c.pending[0..], id) { assert Split(c, id); }
      while |pending| > 0
        invariant k <= |c.pending| && pending == c.pending[k..]
        invariant settled == c.settled + log[..k]
        invariant forall id: nat :: id in armed <==> Has(c.pending[k..], id)
        decreases |pending|
      {
        var id := pending[0].0;
        NotSettledYet(c, code, k);
        TailKeys(c.pending, k);
        armed := armed - {id};
        SettlePromise(id, ClosedOut(code));
        pending := pending[1..];
        assert log[..k + 1] == log[..k] + [(id, ClosedOut(code))];
        k := k + 1;
      }
      assert armed == {} by {
        forall g: nat ensures g !in armed { assert !Has(c.pending[k..], g); }
      }
      assert log[..k] == log;
    }

    /** The send threw: forget the entry if it is still there, and reject. */
    method CatchSendError(number: nat)
      modifies this`pending, this`armed, this`settled
      ensures Now() == (if Has(old(pending), number) then End(old(Now()), number, SendFailed)
                        else old(Now()).(settled := Settle(old(settled), number, SendFailed)))
    {
      var found := IsPending(number);
      if found {
        armed := armed - {number};
        pending := Drop<nat, string>(pending, number);
      }
      SettlePromise(number, SendFailed);
    }

    /** A request: an id, a timer, an entry, and then the send. No id once closed. */
    method SendRequest(name: string, sending: Sending) returns (id: Option<nat>)
      requires Valid()
      modifies this
      ensures (Now(), id) == Request(old(Now()), name, sending) && Valid()
    {
      RequestKeeps(Now(), name, sending);
      if closed { return None; }
      OpenKeeps(Now(), name);
      var number := nextId;
      nextId := nextId + 1;
      armed := armed + {number};
      pending := Put<nat, string>(pending, number, name);
      if sending.ClosedAndThrew? { HandleClose(sending.code); }
      DropKeys<nat, string>(pending, number, number);
      if sending.AnsweredAndThrew? { CompletePending(NumberId(number), sending.error, sending.payload); }
      if !sending.Sent? { CatchSendError(number); }
      return Some(number);
    }

    method CompletePending(id: WireId, error: bool, payload: int)
      requires Valid()
      modifies this`pending, this`armed, this`settled
      ensures Now() == Apply(old(Now()), OpResponse(id, error, payload)) && Valid()
    {
      ApplyKeeps(Now(), OpResponse(id, error, payload));
      if id == NullId { return; }
      if id.TextId? || id.n < 0 { return; }
      var found := IsPending(id.n);
      if !found { return; }
      armed := armed - {id.n};
      pending := Drop<nat, string>(pending, id.n);
      SettlePromise(id.n, if error then Refused(payload) else Fulfilled(payload));
    }

    /** A timer runs out; a cleared one never does. */
    method TimerFires(id: nat)
      requires Valid() && id in armed
      modifies this`pending, this`armed, this`settled
      ensures Now() == Apply(old(Now()), OpTimeout(id)) && Valid()
    {
      ApplyKeeps(Now(), OpTimeout(id));
      armed := armed - {id};
      pending := Drop<nat, string>(pending, id);
      SettlePromise(id, TimedOut);
    }

    method HandleClose(code: Option<int>)
      requires Valid()
      modifies this`closed, this`pending, this`armed, this`settled
      ensures Now() == Close(old(Now()), code) && Valid()
    {
      CloseKeeps(Now(), code);
      UnclosedInv(Now());
      closed := true;
      RejectAllPending(code);
    }

    method StopClient()
      requires Valid()
      modifies this`closed, this`pending, this`armed, this`settled
      ensures Now() == Stop(old(Now())) && Valid()
    {
      if closed { return; }
      HandleClose(None);
    }
  }

  lemma UnclosedInv(c: Client)
    requires Inv(c)
    ensures Inv(c.(closed := false))
  {
    forall id: nat ensures Split(c.(closed := false), id) { assert Split(c, id); }
  }

  lemma NotSettledYet(c: Client, code: Option<int>, k: nat)
    requires Inv(c) && k < |c.pending|
    ensures !Has(c.settled + ClosedLog(c.pending, code)[..k], c.pending[k].0)
  {
    var id, log := c.pending[k].0, ClosedLog(c.pending, code)[..k];
    assert Split(c, id) && Has(c.pending, id);
    HasConcat<Outcome>(c.settled, log, id);
    forall i | 0 <= i < |log| ensures log[i].0 != id { assert log[i].0 == c.pending[i].0; }
  }

  lemma TailKeys(m: seq<(nat, string)>, k: nat)
    requires Distinct(m) && k < |m|
    ensures forall id: nat :: Has(m[k + 1..], id) <==> Has(m[k..], id) && id != m[k].0
  {
    assert m[k..] == [m[k]] + m[k + 1..];
    assert Distinct(m[k..]) by {
      forall i, j | 0 <= i < j < |m[k..]| ensures m[k..][i].0 != m[k..][j].0 {
        assert m[k + i].0 != m[k + j].0;
      }
    }
    DistinctCons<nat, string>(m[k], m[k + 1..]);
    forall id: nat { HasCons<nat, string>(m[k], m[k + 1..], id); }
  }
}

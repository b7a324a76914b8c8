/** The stream as seen by its callers: what they put in is what the log holds, and
    a parked `next()` is served by the very step that brings an event. */
module NormalizerCalls {
  import opened Basics
  import opened OrderedMap
  import opened NormalizerModel
  import opened NormalizerQueue
  import opened NormalizerRuns
  import opened NormalizerDrops

  // ---- what comes in --------------------------------------------------

  /** The calls that leave a stream open. */
  predicate KeepsOpen(op: Op) { op.OpNotify? || op.OpNext? }

  predicate AllKeepOpen(ops: seq<Op>) { forall i :: 0 <= i < |ops| ==> KeepsOpen(ops[i]) }

  /** The notifications among the calls, in order. */
  function Notified(ops: seq<Op>): seq<Accepted> {
    if ops == [] then []
    else
      var op := ops[|ops| - 1];
      Notified(ops[..|ops| - 1]) + if op.OpNotify? then [Accepted(op.ev, op.cls)] else []
  }

  lemma {:induction false} OpenLog(softCap: nat, hardCap: nat, ops: seq<Op>)
    requires AllKeepOpen(ops)
    ensures var s := Run(Init(softCap, hardCap), ops); Open(s) && s.accepted == Notified(ops)
  {
    hide Enqueue, Drain;
    if ops != [] {
      var front := ops[..|ops| - 1];
      var s, op := Run(Init(softCap, hardCap), front), ops[|ops| - 1];
      OpenLog(softCap, hardCap, front);
      assert KeepsOpen(op);
      if op.OpNotify? {
        EnqueueFrame(s, op.ev, op.cls);
        DrainFrame(Enqueue(s, op.ev, op.cls));
      }
    }
  }

  lemma DrainFrame(s: State)
    ensures Drain(s).accepted == s.accepted && Open(Drain(s)) == Open(s)
  {
  }

  /** What the call that closes a stream adds to the log, given the log before it. */
  ghost predicate ClosesWith(last: Op, log: seq<Accepted>, added: seq<Accepted>) {
    match last
    case OpEndWith(evs) =>
      |added| == |evs| && forall i :: 0 <= i < |evs| ==> added[i] == Accepted(evs[i], Lifecycle)
    case OpTransportLost => FailsEachOpenTurn(added, log)
    case _ => added == []
  }

  /** The log of every run is the notifications up to the first call that closes the
      stream, then what that call adds; the calls after it add nothing. */
  lemma LogIsWhatCameIn(softCap: nat, hardCap: nat, ops: seq<Op>, last: Op, later: seq<Op>)
    requires 1 <= softCap && 1 <= hardCap && AllLegal(ops + [last])
    requires AllKeepOpen(ops) && !KeepsOpen(last)
    ensures Run(Init(softCap, hardCap), ops).accepted == Notified(ops)
    ensures var s := Run(Init(softCap, hardCap), ops + [last] + later);
      && !Open(s) && Notified(ops) <= s.accepted
      && ClosesWith(last, Notified(ops), s.accepted[|Notified(ops)|..])
  {
    hide Run, Inv, ClosesWith, EndTransportLost, EndOfStream, Cancel, EndWithSynthetic, Next, Notify;
    var s0 := Init(softCap, hardCap);
    OpenLog(softCap, hardCap, ops);
    InitInv(softCap, hardCap);
    AllLegalFront(ops, last);
    RunInv(s0, ops);
    RunSnoc(s0, ops, last);
    RunAppend(s0, ops + [last], later);
    ClosingAdds(Run(s0, ops), last);
    ClosedAcceptsNothing(Apply(Run(s0, ops), last), later);
  }

  lemma AllLegalFront(ops: seq<Op>, last: Op)
    requires AllLegal(ops + [last])
    ensures AllLegal(ops) && Legal(last)
  {
    forall i | 0 <= i < |ops| ensures Legal(ops[i]) { assert (ops + [last])[i] == ops[i]; }
    assert (ops + [last])[|ops|] == last;
  }

  lemma RunSnoc(s: State, ops: seq<Op>, last: Op)
    ensures Run(s, ops + [last]) == Apply(Run(s, ops), last)
  {
    assert (ops + [last])[..|ops|] == ops;
  }

  lemma ClosingAdds(s: State, last: Op)
    requires Inv(s) && Open(s) && Legal(last) && !KeepsOpen(last)
    ensures var t := Apply(s, last);
      !Open(t) && s.accepted <= t.accepted && ClosesWith(last, s.accepted, t.accepted[|s.accepted|..])
  {
    match last
    case OpEndWith(evs) =>
      EnqueueAllFrame(s, evs);
      DrainFrame(EnqueueAll(s, evs));
      assert Apply(s, last).accepted == s.accepted + AsLifecycle(evs);
    case OpTransportLost => TransportLossCloses(s, []);
    case _ =>
  }

  // ---- the turn table -------------------------------------------------

  /** The turn goes last, or, if its key is known, to the place that key has. */
  predicate PutsTurn(turns: seq<(string, Turn)>, after: seq<(string, Turn)>, t: Turn) {
    if Has(turns, KeyOf(t)) then
      |after| == |turns|
      && forall i :: 0 <= i < |turns| ==> after[i] == if turns[i].0 == KeyOf(t) then (KeyOf(t), t) else turns[i]
    else after == turns + [(KeyOf(t), t)]
  }

  /** On an open stream a start puts its turn into the table, each of the three
      terminal events takes it out, the others keep their order, and no other event
      touches the table. */
  lemma TableOrder(s: State, ev: Event, cls: EventClass)
    requires Inv(s) && Open(s)
    ensures var after := Notify(s, ev, cls).turns;
      && (ev.TurnStarted? ==> PutsTurn(s.turns, after, Turn(ev.threadId, ev.turnId)))
      && (ev.TurnCompleted? || ev.TurnFailed? || ev.TurnInterrupted? ==>
            after == Without<string, Turn>(s.turns, {TurnKey(ev.threadId, ev.turnId)}))
      && (ev.Overflow? || ev.Other? ==> after == s.turns)
  {
    EnqueueFrame(s, ev, cls);
    DrainKeepsTurns(Enqueue(s, ev, cls));
    assert KeysOk(s.turns);
    hide Inv, Enqueue, Drain;
    match ev
    case TurnStarted(t, u, _) =>
      if Has(s.turns, TurnKey(t, u)) {
        PutKnown(s.turns, TurnKey(t, u), Turn(t, u));
      } else {
        PutFresh(s.turns, TurnKey(t, u), Turn(t, u));
      }
    case TurnCompleted(t, u, _) => DropIsWithout(s.turns, TurnKey(t, u));
    case TurnFailed(t, u, _, _) => DropIsWithout(s.turns, TurnKey(t, u));
    case TurnInterrupted(t, u, _) => DropIsWithout(s.turns, TurnKey(t, u));
    case Overflow(_, _) =>
    case Other(_) =>
  }

  lemma DrainKeepsTurns(s: State)
    ensures Drain(s).turns == s.turns
  {
  }

  // ---- parked calls ---------------------------------------------------

  lemma EnqueueOnEmpty(s: State, ev: Event, cls: EventClass)
    requires s.queue == [] && s.deltaCount == 0 && 1 <= s.softCap && 1 <= s.hardCap
    ensures Enqueue(s, ev, cls).queue == [Entry(ev, cls, |s.accepted|)]
  {
  }

  /** An event that comes in while a call is parked settles the oldest parked call
      with it in the same step, and no other call. */
  lemma ParkedCallIsServed(softCap: nat, hardCap: nat, ops: seq<Op>, ev: Event, cls: EventClass)
    requires 1 <= softCap && 1 <= hardCap && AllLegal(ops) && !ev.Overflow?
    requires Run(Init(softCap, hardCap), ops).waiters != []
    ensures var s, t := Run(Init(softCap, hardCap), ops), Run(Init(softCap, hardCap), ops + [OpNotify(ev, cls)]);
      && s.waiters[0] == |s.settled| == |s.delivered|
      && t.settled == s.settled + [Settled(s.waiters[0], Yield(ev))]
      && t.waiters == s.waiters[1..] && t.queue == []
      && t.delivered == s.delivered + [Entry(ev, cls, |s.accepted|)]
  {
    var s := Run(Init(softCap, hardCap), ops);
    InitInv(softCap, hardCap);
    RunInv(Init(softCap, hardCap), ops);
    RunSnoc(Init(softCap, hardCap), ops, OpNotify(ev, cls));
    hide Run, Refines, TableOk, Enqueue, TrackTurn;
    EnqueueOnEmpty(s, ev, cls);
    EnqueueFrame(s, ev, cls);
    ServeOne(Enqueue(s, ev, cls));
  }

  lemma ServeOne(s: State)
    requires |s.queue| == 1 && s.waiters != []
    ensures var t := Drain(s);
      && t.settled == s.settled + [Settled(s.waiters[0], Yield(s.queue[0].ev))]
      && t.waiters == s.waiters[1..] && t.queue == [] && t.delivered == s.delivered + [s.queue[0]]
  {
    assert s.queue[..1] == [s.queue[0]] && s.waiters[..1] == [s.waiters[0]];
  }

  /** What a batch of events is in the queue of a stream that held none. */
  function Batch(evs: seq<Event>, base: nat): seq<Entry> {
    seq(|evs|, i requires 0 <= i < |evs| => Entry(evs[i], Lifecycle, base + i))
  }

  lemma EnqueueBelowCap(s: State, ev: Event)
    requires |s.queue| < s.hardCap
    ensures Enqueue(s, ev, Lifecycle).queue == s.queue + [Entry(ev, Lifecycle, |s.accepted|)]
  {
    hide TrackTurn;
  }

  lemma OneMoreInBatch(evs: seq<Event>, base: nat)
    requires evs != []
    ensures var n := |evs| - 1; Batch(evs, base) == Batch(evs[..n], base) + [Entry(evs[n], Lifecycle, base + n)]
  {
  }

  lemma {:induction false} EnqueueAllOnEmpty(s: State, evs: seq<Event>)
    requires s.queue == [] && |evs| <= s.hardCap
    ensures EnqueueAll(s, evs).queue == Batch(evs, |s.accepted|)
  {
    hide Enqueue, Batch, AsLifecycle;
    if evs == [] {
      NoBatch(|s.accepted|);
    } else {
      var front := evs[..|evs| - 1];
      EnqueueAllOnEmpty(s, front);
      EnqueueAllFrame(s, front);
      BatchLength(front, |s.accepted|);
      EnqueueBelowCap(EnqueueAll(s, front), evs[|evs| - 1]);
      OneMoreInBatch(evs, |s.accepted|);
    }
  }

  lemma NoBatch(base: nat)
    ensures Batch([], base) == []
  {
  }

  lemma BatchLength(evs: seq<Event>, base: nat)
    ensures |Batch(evs, base)| == |evs| == |AsLifecycle(evs)|
  {
  }

  /** A batch that ends the stream, the failures of a transport loss among them,
      serves the parked calls in order, an event each; the rest are done. */
  lemma BatchServesParked(s: State, evs: seq<Event>)
    requires Inv(s) && Open(s) && s.waiters != [] && |evs| <= s.hardCap
    requires forall i :: 0 <= i < |evs| ==> !evs[i].Overflow?
    ensures var t := EndWithSynthetic(s, evs);
      && t.waiters == [] && |t.settled| == |s.settled| + |s.waiters| && s.settled <= t.settled
      && (forall i :: 0 <= i < |s.waiters| ==>
            t.settled[|s.settled| + i] == Settled(s.waiters[i], if i < |evs| then Yield(evs[i]) else Done))
      && t.queue == Batch(evs, |s.accepted|)[Min(|evs|, |s.waiters|)..]
  {
    hide EnqueueAll, EndOfStream, Drain, AsLifecycle, Shape, Refines, TableOk, CallsOk;
    var u := EnqueueAll(s, evs);
    EnqueueAllOnEmpty(s, evs);
    EnqueueAllFrame(s, evs);
    ServeAll(u);
  }

  lemma ServeAll(u: State)
    requires Open(u) && u.waiters != []
    ensures var t := EndOfStream(Drain(u));
      && t.waiters == [] && |t.settled| == |u.settled| + |u.waiters| && u.settled <= t.settled
      && (forall i :: 0 <= i < |u.waiters| ==>
            t.settled[|u.settled| + i] == Settled(u.waiters[i], if i < |u.queue| then Yield(u.queue[i].ev) else Done))
      && t.queue == u.queue[Min(|u.queue|, |u.waiters|)..]
  {
    hide CountDelta;
    var d, t, n := Drain(u), EndOfStream(Drain(u)), |u.settled|;
    assert d.settled == u.settled + Handed(u.waiters[..Min(|u.queue|, |u.waiters|)], u.queue[..Min(|u.queue|, |u.waiters|)]);
    assert t.settled == d.settled + Finished(d.waiters);
    forall i | 0 <= i < |u.waiters|
      ensures t.settled[n + i] == Settled(u.waiters[i], if i < |u.queue| then Yield(u.queue[i].ev) else Done)
    {
      if i < |u.queue| { assert t.settled[n + i] == d.settled[n + i]; } else { assert d.waiters[i - |u.queue|] == u.waiters[i]; }
    }
  }

  // ---- what is dropped ------------------------------------------------

  /** An enqueue drops a delta exactly when it brings one while the soft cap is
      full, and the hard cap takes a real event exactly when one stands in its way. */
  lemma DropsExactly(s: State, ev: Event, cls: EventClass)
    requires Shape(s) && Refines(s) && !ev.Overflow?
    ensures var t := Enqueue(s, ev, cls);
      && t.droppedDelta == s.droppedDelta + (if cls.Delta? && CountDelta(s.queue) >= s.softCap then 1 else 0)
      && t.droppedLifecycle >= s.droppedLifecycle
      && (t.droppedLifecycle > s.droppedLifecycle <==> RealFalls(s, cls))
  {
    hide Shape, Refines, MakeRoom, RealFalls, TrackTurn, Shed, HasReal, Removed, CountDelta;
    var u := s.(turns := TrackTurn(s.turns, ev));
    var r := MakeRoom(u, cls);
    var p := Push(r, ev, cls);
    assert Shape(u) && Refines(u) by { TurnsAside(s, u); }
    RoomDrops(u, cls);
    FallingAfterRoom(u, cls);
    TurnsDoNotReport(s, u, cls);
    RemovedIsFalling(r, p);
    ShedDrops(p);
  }

  lemma TurnsAside(s: State, t: State)
    requires Shape(s) && Refines(s) && t == s.(turns := t.turns)
    ensures Shape(t) && Refines(t)
  {
    assert Slots(t) == Slots(s);
    hide Reals, CountDelta;
  }

  lemma RoomDrops(s: State, cls: EventClass)
    requires Shape(s)
    ensures var t := MakeRoom(s, cls);
      && t.droppedDelta == s.droppedDelta + (if cls.Delta? && CountDelta(s.queue) >= s.softCap then 1 else 0)
      && t.hardCap == s.hardCap && 1 <= s.hardCap && t.droppedLifecycle == s.droppedLifecycle && |t.queue| == |s.queue|
  {
    if cls.Delta? && s.deltaCount >= s.softCap { VictimExists(s); }
  }

  lemma ShedDrops(p: State)
    ensures var t := Shed(p);
      && t.droppedDelta == p.droppedDelta && t.droppedLifecycle >= p.droppedLifecycle
      && (t.droppedLifecycle > p.droppedLifecycle <==> HasReal(Removed(p)))
  {
    if |p.queue| > p.hardCap { RealsEmptyIff(Removed(p)); }
  }
}

/** What holds after every run of the normalizer. */
module NormalizerRuns {
  import opened Basics
  import opened OrderedMap
  import opened NormalizerModel
  import opened NormalizerQueue

  // ---- the table of open turns ----------------------------------------

  /** Distinct keys, each the key of the turn stored under it. */
  predicate KeysOk(turns: seq<(string, Turn)>) {
    Distinct(turns) && forall i :: 0 <= i < |turns| ==> turns[i].0 == KeyOf(turns[i].1)
  }

  /** Some start of the turn has no terminal event after it. */
  ghost predicate OpenTurn(log: seq<Accepted>, key: string) {
    exists i :: 0 <= i < |log| && Starts(log[i].ev, key) && NoEndAfter(log, i, key)
  }

  predicate NoEndAfter(log: seq<Accepted>, i: int, key: string)
    requires 0 <= i < |log|
  {
    forall j :: i < j < |log| ==> !Ends(log[j].ev, key)
  }

  ghost predicate TableOk(turns: seq<(string, Turn)>, log: seq<Accepted>) {
    KeysOk(turns) && forall key :: Has(turns, key) <==> OpenTurn(log, key)
  }

  lemma OpenTurnStep(log: seq<Accepted>, e: Accepted, key: string)
    ensures OpenTurn(log + [e], key) <==> Starts(e.ev, key) || (!Ends(e.ev, key) && OpenTurn(log, key))
  {
    var w := log + [e];
    if Starts(e.ev, key) {
      assert NoEndAfter(w, |log|, key);
    }
    if i :| 0 <= i < |log| && Starts(log[i].ev, key) && NoEndAfter(log, i, key) && !Ends(e.ev, key) {
      assert w[i] == log[i] && NoEndAfter(w, i, key);
    }
    if i :| 0 <= i < |w| && Starts(w[i].ev, key) && NoEndAfter(w, i, key) {
      if i < |log| {
        assert w[|log|] == e;
        forall j | i < j < |log| ensures !Ends(log[j].ev, key) { assert w[j] == log[j]; }
        assert NoEndAfter(log, i, key);
      }
    }
  }

  lemma PutKeepsKeys(turns: seq<(string, Turn)>, t: Turn, key: string)
    requires KeysOk(turns)
    ensures KeysOk(Put(turns, KeyOf(t), t))
    ensures Has(Put(turns, KeyOf(t), t), key) <==> Has(turns, key) || key == KeyOf(t)
  {
    PutKeys(turns, KeyOf(t), t, key);
    PutMembers(turns, KeyOf(t), t);
    var r := Put(turns, KeyOf(t), t);
    forall i | 0 <= i < |r| ensures r[i].0 == KeyOf(r[i].1) { assert r[i] in r; }
  }

  lemma DropKeepsKeys(turns: seq<(string, Turn)>, gone: string, key: string)
    requires KeysOk(turns)
    ensures KeysOk(Drop(turns, gone))
    ensures Has(Drop(turns, gone), key) <==> Has(turns, key) && key != gone
  {
    DropKeys(turns, gone, key);
    DropMembers(turns, gone);
    var r := Drop(turns, gone);
    forall i | 0 <= i < |r| ensures r[i].0 == KeyOf(r[i].1) { assert r[i] in r; }
  }

  lemma TrackOneKey(turns: seq<(string, Turn)>, log: seq<Accepted>, e: Accepted, key: string)
    requires KeysOk(turns) && (Has(turns, key) <==> OpenTurn(log, key))
    ensures KeysOk(TrackTurn(turns, e.ev))
    ensures Has(TrackTurn(turns, e.ev), key) <==> OpenTurn(log + [e], key)
  {
    OpenTurnStep(log, e, key);
    match e.ev
    case TurnStarted(t, u, _) => PutKeepsKeys(turns, Turn(t, u), key);
    case TurnCompleted(t, u, _) => DropKeepsKeys(turns, TurnKey(t, u), key);
    case TurnFailed(t, u, _, _) => DropKeepsKeys(turns, TurnKey(t, u), key);
    case TurnInterrupted(t, u, _) => DropKeepsKeys(turns, TurnKey(t, u), key);
    case Overflow(_, _) =>
    case Other(_) =>
  }

  lemma TrackKeepsTable(turns: seq<(string, Turn)>, log: seq<Accepted>, e: Accepted)
    requires TableOk(turns, log)
    ensures TableOk(TrackTurn(turns, e.ev), log + [e])
  {
    TrackOneKey(turns, log, e, "");
    forall key ensures Has(TrackTurn(turns, e.ev), key) <==> OpenTurn(log + [e], key) {
      TrackOneKey(turns, log, e, key);
    }
  }

  predicate NulFree(s: string) { '\0' !in s }

  lemma NulSeparates(a: string, b: string)
    requires NulFree(a)
    ensures TurnKey(a, b)[|a|] == '\0' && forall i :: 0 <= i < |a| ==> TurnKey(a, b)[i] != '\0'
    ensures TurnKey(a, b)[..|a|] == a && TurnKey(a, b)[|a| + 1..] == b
  {
    forall i | 0 <= i < |a| ensures TurnKey(a, b)[i] != '\0' { assert a[i] in a; }
  }

  /** The table key tells turns apart as long as thread ids contain no NUL. */
  lemma TurnKeyInjective(a: string, b: string, c: string, d: string)
    requires NulFree(a) && NulFree(c)
    ensures TurnKey(a, b) == TurnKey(c, d) <==> a == c && b == d
  {
    NulSeparates(a, b);
    NulSeparates(c, d);
    if TurnKey(a, b) == TurnKey(c, d) {
      assert |a| == |c|;
    }
  }

  /** `a` followed by a NUL begins `c`. */
  predicate NulExtends(a: string, c: string) { a + ['\0'] <= c }

  /** Two different threads can share a table key, for some turns of theirs, if
      and only if one id continues the other behind a NUL. */
  lemma TurnKeyCollision(a: string, c: string)
    requires a != c
    ensures (exists b, d :: TurnKey(a, b) == TurnKey(c, d)) <==> NulExtends(a, c) || NulExtends(c, a)
  {
    if NulExtends(a, c) { Collide(a, c, ""); }
    if NulExtends(c, a) {
      Collide(c, a, "");
      assert TurnKey(a, "") == TurnKey(c, a[|c| + 1..] + ['\0']);
    }
    if b, d :| TurnKey(a, b) == TurnKey(c, d) {
      if |a| <= |c| { CollisionExtends(a, b, c, d); } else { CollisionExtends(c, d, a, b); }
    }
  }

  /** Turns of these two threads never share a key. */
  predicate KeysApart(a: string, c: string) { a == c || (!NulExtends(a, c) && !NulExtends(c, a)) }

  lemma TurnKeyApart(a: string, b: string, c: string, d: string)
    requires KeysApart(a, c)
    ensures TurnKey(a, b) == TurnKey(c, d) <==> a == c && b == d
  {
    if a == c {
      assert TurnKey(a, b)[|a| + 1..] == b && TurnKey(c, d)[|a| + 1..] == d;
    } else {
      TurnKeyCollision(a, c);
    }
  }

  lemma ExtensionHasNul(a: string, c: string)
    requires NulExtends(a, c)
    ensures '\0' in c
  {
    assert (a + ['\0'])[|a|] == c[|a|];
  }

  lemma NulFreeApart(a: string, c: string)
    requires NulFree(a) && NulFree(c)
    ensures KeysApart(a, c)
  {
    if NulExtends(a, c) { ExtensionHasNul(a, c); }
    if NulExtends(c, a) { ExtensionHasNul(c, a); }
  }

  lemma Collide(a: string, c: string, d: string)
    requires NulExtends(a, c)
    ensures TurnKey(a, c[|a| + 1..] + ['\0'] + d) == TurnKey(c, d)
  {
    assert c == a + ['\0'] + c[|a| + 1..];
  }

  lemma CollisionExtends(a: string, b: string, c: string, d: string)
    requires TurnKey(a, b) == TurnKey(c, d) && |a| <= |c| && a != c
    ensures NulExtends(a, c)
  {
    var k := TurnKey(a, b);
    assert k[..|a|] == a && k[..|c|] == c && k[|a|] == '\0';
    if |a| == |c| { assert false; }
    assert c[..|a|] == k[..|c|][..|a|] == a;
    assert c[|a|] == k[|a|];
  }

  // ---- delivery -------------------------------------------------------

  /** Calls settle in call order; the settled ones got the delivered events
      first and then nothing but `Done`. */
  predicate CallsOk(s: State) {
    && |s.settled| + |s.waiters| == s.calls
    && |s.delivered| <= |s.settled|
    && (forall i :: 0 <= i < |s.settled| ==> s.settled[i].call == i)
    && (forall i :: 0 <= i < |s.waiters| ==> s.waiters[i] == |s.settled| + i)
    && (forall i :: 0 <= i < |s.delivered| ==> s.settled[i].result == Yield(s.delivered[i].ev))
    && (forall i :: |s.delivered| <= i < |s.settled| ==> s.settled[i].result == Done)
    && (|s.settled| > |s.delivered| ==> s.queue == [] && !Open(s))
    && (s.waiters != [] ==> Open(s))
    && (s.cancelled ==> s.queue == [])
  }

  predicate Idle(s: State) { s.waiters != [] ==> s.queue == [] }

  /** The invariant while a batch of events is being enqueued. */
  ghost predicate Busy(s: State) {
    Shape(s) && Refines(s) && TableOk(s.turns, s.accepted) && CallsOk(s)
  }

  ghost predicate Inv(s: State) { Busy(s) && Idle(s) }

  lemma InitInv(softCap: nat, hardCap: nat)
    requires 1 <= softCap && 1 <= hardCap
    ensures Inv(Init(softCap, hardCap))
  {
    hide TableOk, Shape, Refines, CallsOk;
    EmptyTable();
    EmptyShape(softCap, hardCap);
    EmptyRefines(softCap, hardCap);
    NoCalls(softCap, hardCap);
  }

  lemma EmptyShape(softCap: nat, hardCap: nat)
    requires 1 <= softCap && 1 <= hardCap
    ensures Shape(Init(softCap, hardCap))
  {
  }

  lemma EmptyRefines(softCap: nat, hardCap: nat)
    ensures Refines(Init(softCap, hardCap))
  {
    assert Slots(Init(softCap, hardCap)) == [];
  }

  lemma NoCalls(softCap: nat, hardCap: nat)
    ensures CallsOk(Init(softCap, hardCap))
  {
  }

  lemma EmptyTable()
    ensures TableOk([], [])
  {
    forall key ensures !Has<string, Turn>([], key) && !OpenTurn([], key) {}
  }

  lemma EnqueueFrame(s: State, ev: Event, cls: EventClass)
    ensures var t := Enqueue(s, ev, cls);
      && t.softCap == s.softCap && t.hardCap == s.hardCap
      && t.waiters == s.waiters && t.cancelled == s.cancelled && t.ended == s.ended
      && t.calls == s.calls && t.settled == s.settled && t.delivered == s.delivered
      && t.turns == TrackTurn(s.turns, ev)
      && t.accepted == s.accepted + [Accepted(ev, cls)]
  {
    hide Reals, CountDelta, FirstDelta, TrackTurn;
  }

  lemma OpenCalls(s: State, t: State)
    requires CallsOk(s) && Open(s) && Open(t)
    requires t.waiters == s.waiters && t.calls == s.calls && t.settled == s.settled && t.delivered == s.delivered
    ensures CallsOk(t)
  {
  }

  lemma EnqueueBusy(s: State, ev: Event, cls: EventClass)
    requires Busy(s) && Open(s) && !ev.Overflow?
    ensures Busy(Enqueue(s, ev, cls)) && Open(Enqueue(s, ev, cls))
  {
    var t := Enqueue(s, ev, cls);
    EnqueueFrame(s, ev, cls);
    assert Shape(t) by { EnqueueShape(s, ev, cls); }
    assert Refines(t) by { EnqueueRefines(s, ev, cls); }
    assert TableOk(t.turns, t.accepted) by { TrackKeepsTable(s.turns, s.accepted, Accepted(ev, cls)); }
    assert CallsOk(t) by { OpenCalls(s, t); }
  }

  lemma {:induction false} EnqueueAllBusy(s: State, evs: seq<Event>)
    requires Busy(s) && Open(s)
    requires forall i :: 0 <= i < |evs| ==> !evs[i].Overflow?
    ensures Busy(EnqueueAll(s, evs)) && Open(EnqueueAll(s, evs))
  {
    if evs != [] {
      EnqueueAllBusy(s, evs[..|evs| - 1]);
      EnqueueBusy(EnqueueAll(s, evs[..|evs| - 1]), evs[|evs| - 1], Lifecycle);
    }
  }

  lemma OrderedDrop(q: seq<Entry>, n: nat)
    requires Ordered(q) && n <= |q|
    ensures Ordered(q[n..])
  {
    assert forall i :: 0 <= i < |q[n..]| ==> q[n..][i] == q[i + n];
  }

  lemma DequeueShape(s: State, n: nat, t: State)
    requires Shape(s) && n <= |s.queue|
    requires t.queue == s.queue[n..] && t.deltaCount == s.deltaCount - CountDelta(s.queue[..n])
    requires t.softCap == s.softCap && t.hardCap == s.hardCap
    ensures Shape(t)
  {
    assert s.queue == s.queue[..n] + s.queue[n..];
    CountDeltaConcat(s.queue[..n], s.queue[n..]);
    OrderedDrop(s.queue, n);
  }

  lemma SameSlots(s: State, t: State)
    requires Refines(s) && Slots(t) == Slots(s) && t.accepted == s.accepted && t.shed == s.shed
    requires t.droppedDelta == s.droppedDelta && t.droppedLifecycle == s.droppedLifecycle && t.cancelled == s.cancelled
    ensures Refines(t)
  {
  }

  lemma DrainCalls(s: State)
    requires CallsOk(s) && Open(s)
    ensures CallsOk(Drain(s)) && Idle(Drain(s))
  {
    var n := Min(|s.queue|, |s.waiters|);
    var t := Drain(s);
    var k := |s.settled|;
    assert k == |s.delivered|;
    forall i | 0 <= i < |t.settled| ensures t.settled[i] == Settled(i, Yield(t.delivered[i].ev)) {
      if i < k {
        assert t.settled[i] == s.settled[i] && t.delivered[i] == s.delivered[i];
      } else {
        assert t.settled[i] == Handed(s.waiters[..n], s.queue[..n])[i - k];
        assert s.waiters[i - k] == i;
      }
    }
  }

  lemma DrainShape(s: State)
    requires Shape(s)
    ensures Shape(Drain(s))
  {
    DequeueShape(s, Min(|s.queue|, |s.waiters|), Drain(s));
  }

  lemma DrainKeepsSlots(s: State)
    ensures Slots(Drain(s)) == Slots(s)
  {
    var n := Min(|s.queue|, |s.waiters|);
    assert s.queue == s.queue[..n] + s.queue[n..];
  }

  lemma DrainInv(s: State)
    requires Busy(s) && Open(s)
    ensures Inv(Drain(s)) && Open(Drain(s)) && Slots(Drain(s)) == Slots(s)
  {
    DrainCalls(s);
    DrainShape(s);
    DrainKeepsSlots(s);
    hide Shape, Refines, CallsOk, TableOk, Idle, Slots;
    SameSlots(s, Drain(s));
  }

  lemma NextCalls(s: State)
    requires CallsOk(s) && Idle(s)
    ensures CallsOk(Next(s)) && Idle(Next(s))
  {
  }

  lemma NextInv(s: State)
    requires Inv(s)
    ensures Inv(Next(s)) && Slots(Next(s)) == Slots(s)
  {
    NextCalls(s);
    NextShape(s);
    NextKeepsSlots(s);
    hide Shape, Refines, CallsOk, TableOk, Idle, Slots;
    SameSlots(s, Next(s));
  }

  lemma NextShape(s: State)
    requires Shape(s)
    ensures Shape(Next(s))
  {
    if |s.queue| > 0 {
      var e := s.queue[0];
      assert s.queue[..1] == [e] && [e][..0] == [];
      assert CountDelta([e]) == if e.cls.Delta? then 1 else 0;
      DequeueShape(s, 1, Next(s));
    }
  }

  lemma NextKeepsSlots(s: State)
    ensures Slots(Next(s)) == Slots(s)
  {
    if |s.queue| > 0 { assert s.queue == [s.queue[0]] + s.queue[1..]; }
  }

  lemma EndOfStreamInv(s: State)
    requires Inv(s)
    ensures Inv(EndOfStream(s)) && Slots(EndOfStream(s)) == Slots(s)
  {
    assert Slots(EndOfStream(s)) == Slots(s);
    SameSlots(s, EndOfStream(s));
  }

  lemma PrefixRefines(s: State, t: State)
    requires Refines(s) && t.delivered == s.delivered && t.queue == [] && t.cancelled
    requires t.accepted == s.accepted && t.droppedDelta == s.droppedDelta && t.droppedLifecycle == s.droppedLifecycle
    ensures Refines(t)
  {
    assert Slots(t) == s.delivered;
    ChainSplit(s.delivered, s.queue);
    forall i | 0 <= i < |s.delivered|
      ensures SlotOk(s.delivered[i], s.accepted) && CountOk(s.delivered[i], s.droppedDelta, s.droppedLifecycle)
    {
      assert s.delivered[i] == Slots(s)[i];
    }
  }

  lemma CancelInv(s: State)
    requires Inv(s)
    ensures Inv(Cancel(s))
  {
    if !s.cancelled { PrefixRefines(s, Cancel(s)); }
  }

  lemma EndWithInv(s: State, evs: seq<Event>)
    requires Inv(s)
    requires forall i :: 0 <= i < |evs| ==> !evs[i].Overflow?
    ensures Inv(EndWithSynthetic(s, evs))
  {
    if Open(s) {
      EnqueueAllBusy(s, evs);
      DrainInv(EnqueueAll(s, evs));
      EndOfStreamInv(Drain(EnqueueAll(s, evs)));
    }
  }

  lemma ApplyInv(s: State, op: Op)
    requires Inv(s) && Legal(op)
    ensures Inv(Apply(s, op))
  {
    match op
    case OpNotify(ev, cls) =>
      if Open(s) {
        EnqueueBusy(s, ev, cls);
        DrainInv(Enqueue(s, ev, cls));
      }
    case OpNext => NextInv(s);
    case OpReturn => CancelInv(s);
    case OpEnd => EndOfStreamInv(s);
    case OpEndWith(evs) => EndWithInv(s, evs);
    case OpTransportLost => EndWithInv(s, LostTurns(s.turns));
  }

  lemma {:induction false} RunInv(s: State, ops: seq<Op>)
    requires Inv(s) && AllLegal(ops)
    ensures Inv(Run(s, ops))
  {
    if ops != [] {
      RunInv(s, ops[..|ops| - 1]);
      ApplyInv(Run(s, ops[..|ops| - 1]), ops[|ops| - 1]);
    }
  }

  // ---- main results ---------------------------------------------------

  /** FIFO refinement of the unbounded log, over every run. */
  lemma FifoRefinement(softCap: nat, hardCap: nat, ops: seq<Op>)
    requires 1 <= softCap && 1 <= hardCap && AllLegal(ops)
    ensures var s := Run(Init(softCap, hardCap), ops);
      var out := s.delivered + s.queue;
      && (!s.cancelled && s.shed == 0 ==>
          |out| == |s.accepted|
          && forall i :: 0 <= i < |out| ==>
               Accepted(out[i].ev, out[i].cls) == s.accepted[i]
               || (s.accepted[i].cls.Delta? && DeltaMarker(out[i])))
      && IsSubsequence(Contents(Reals(out)), s.accepted)
  {
    InitInv(softCap, hardCap);
    RunInv(Init(softCap, hardCap), ops);
    var s := Run(Init(softCap, hardCap), ops);
    var out := Slots(s);
    forall i | 0 <= i < |out|
      ensures SlotOk(out[i], s.accepted)
    {
    }
    RealsEmbed(out, s.accepted);
  }

  function Contents(q: seq<Entry>): seq<Accepted> {
    seq(|q|, i requires 0 <= i < |q| => Accepted(q[i].ev, q[i].cls))
  }

  lemma {:induction false} RealsMembers(q: seq<Entry>)
    requires Chain(q)
    ensures Chain(Reals(q))
    ensures forall e :: e in Reals(q) ==> e in q && !e.ev.Overflow?
  {
    if q != [] {
      var p, z := q[..|q| - 1], q[|q| - 1];
      assert q == p + [z];
      ChainSplit(p, [z]);
      RealsMembers(p);
      if !z.ev.Overflow? {
        forall i | 0 <= i < |Reals(p)| ensures PairOk(Reals(p)[i], z) {
          assert Reals(p)[i] in Reals(p);
          var k :| 0 <= k < |p| && p[k] == Reals(p)[i];
          assert PairOk(p[k], [z][0]);
        }
        ChainJoin(Reals(p), [z]);
      }
    }
  }

  lemma RealsEmbed(q: seq<Entry>, log: seq<Accepted>)
    requires Chain(q) && forall i :: 0 <= i < |q| ==> SlotOk(q[i], log)
    ensures IsSubsequence(Contents(Reals(q)), log)
  {
    RealsMembers(q);
    var r := Reals(q);
    var at := seq(|r|, i requires 0 <= i < |r| => r[i].origin);
    forall i | 0 <= i < |r| ensures 0 <= at[i] < |log| && log[at[i]] == Contents(r)[i] {
      assert r[i] in q;
      var k :| 0 <= k < |q| && q[k] == r[i];
      assert SlotOk(q[k], log);
    }
    forall i, j | 0 <= i < j < |r| ensures at[i] < at[j] {
      assert PairOk(r[i], r[j]);
    }
    EmbeddingIsSubsequence(Contents(r), log, at);
  }

  /** Shape of the queue in every reachable state. */
  lemma QueueShape(softCap: nat, hardCap: nat, ops: seq<Op>)
    requires 1 <= softCap && 1 <= hardCap && AllLegal(ops)
    ensures var s := Run(Init(softCap, hardCap), ops);
      && s.softCap == softCap && s.hardCap == hardCap
      && s.deltaCount == CountDelta(s.queue) <= softCap
      && (s.deltaCount >= softCap ==> FirstDelta(s.queue) < |s.queue|)
      && |s.queue| <= hardCap + 1
      && (|s.queue| == hardCap + 1 ==> TotalMarker(s.queue[0]))
      && (forall i :: 0 < i < |s.queue| ==> !TotalMarker(s.queue[i]))
      && (forall i, j :: 0 <= i < |s.queue| && 0 <= j < |s.queue| && DeltaMarker(s.queue[i]) && s.queue[j].cls.Delta? ==> i < j)
  {
    hide Run, Refines, TableOk, CallsOk, AllLegal;
    InitInv(softCap, hardCap);
    RunInv(Init(softCap, hardCap), ops);
    CapsFixed(Init(softCap, hardCap), ops);
    var s := Run(Init(softCap, hardCap), ops);
    if s.deltaCount >= softCap { VictimExists(s); }
  }

  lemma {:induction false} CapsFixed(s: State, ops: seq<Op>)
    ensures Run(s, ops).softCap == s.softCap && Run(s, ops).hardCap == s.hardCap
  {
    if ops != [] {
      var t := Run(s, ops[..|ops| - 1]);
      CapsFixed(s, ops[..|ops| - 1]);
      match ops[|ops| - 1]
      case OpEndWith(evs) => EnqueueAllFrame(t, evs);
      case OpTransportLost => EnqueueAllFrame(t, LostTurns(t.turns));
      case _ =>
    }
  }

  /** Markers of one class, delivered ones first, carry strictly rising counts. */
  lemma MarkerCountsRise(softCap: nat, hardCap: nat, ops: seq<Op>)
    requires 1 <= softCap && 1 <= hardCap && AllLegal(ops)
    ensures var s := Run(Init(softCap, hardCap), ops);
      var out := s.delivered + s.queue;
      forall i, j :: 0 <= i < j < |out| && out[i].ev.Overflow? && out[j].ev.Overflow? ==>
        (out[i].ev.class_ == out[j].ev.class_ ==> out[i].ev.droppedCount < out[j].ev.droppedCount)
  {
    InitInv(softCap, hardCap);
    RunInv(Init(softCap, hardCap), ops);
    var s := Run(Init(softCap, hardCap), ops);
    var out := Slots(s);
    forall i, j | 0 <= i < j < |out| ensures PairOk(out[i], out[j]) {}
  }

  /** Every accepted event is delivered, queued, or counted exactly once as dropped. */
  lemma Conservation(softCap: nat, hardCap: nat, ops: seq<Op>)
    requires 1 <= softCap && 1 <= hardCap && AllLegal(ops)
    ensures var s := Run(Init(softCap, hardCap), ops);
      !s.cancelled ==>
        |s.accepted| == |Reals(s.delivered)| + |Reals(s.queue)| + s.droppedDelta + s.droppedLifecycle
  {
    InitInv(softCap, hardCap);
    RunInv(Init(softCap, hardCap), ops);
    var s := Run(Init(softCap, hardCap), ops);
    RealsConcat(s.delivered, s.queue);
  }

  function CountNext(ops: seq<Op>): nat {
    if ops == [] then 0 else CountNext(ops[..|ops| - 1]) + if ops[|ops| - 1].OpNext? then 1 else 0
  }

  lemma StepCalls(s: State, op: Op)
    ensures Apply(s, op).calls == s.calls + if op.OpNext? then 1 else 0
  {
    hide Enqueue, EnqueueAll, TrackTurn, Lost, CountDelta;
    match op
    case OpNotify(ev, cls) => EnqueueFrame(s, ev, cls);
    case OpEndWith(evs) => EnqueueAllFrame(s, evs);
    case OpTransportLost => EnqueueAllFrame(s, LostTurns(s.turns));
    case _ =>
  }

  lemma {:induction false} CallsCount(s: State, ops: seq<Op>)
    ensures Run(s, ops).calls == s.calls + CountNext(ops)
  {
    hide Apply;
    if ops != [] {
      CallsCount(s, ops[..|ops| - 1]);
      StepCalls(Run(s, ops[..|ops| - 1]), ops[|ops| - 1]);
    }
  }

  /** Every `next()` call of a run, by number, is settled or parked: the j-th one
      got the j-th delivered event if there is one and `Done` otherwise, and the
      calls after the settled ones are parked in their order, on an open stream
      with an empty buffer. */
  lemma DeliveryInCallOrder(softCap: nat, hardCap: nat, ops: seq<Op>)
    requires 1 <= softCap && 1 <= hardCap && AllLegal(ops)
    ensures var s := Run(Init(softCap, hardCap), ops);
      && |s.settled| + |s.waiters| == CountNext(ops)
      && (forall j :: 0 <= j < |s.settled| ==>
            s.settled[j] == Settled(j, if j < |s.delivered| then Yield(s.delivered[j].ev) else Done))
      && (forall j :: 0 <= j < |s.waiters| ==> s.waiters[j] == |s.settled| + j)
      && |s.delivered| <= |s.settled|
      && (s.waiters != [] ==> s.queue == [] && Open(s))
      && (|s.settled| > |s.delivered| ==> s.queue == [] && !Open(s))
  {
    InitInv(softCap, hardCap);
    RunInv(Init(softCap, hardCap), ops);
    CallsCount(Init(softCap, hardCap), ops);
  }

  /** After the source ended, `n` more calls drain the buffer in order and then all get `Done`. */
  lemma {:induction false} EndDrains(s: State, n: nat)
    requires s.ended && !s.cancelled && s.waiters == []
    ensures var t := Run(s, seq(n, _ => OpNext));
      && t.delivered == s.delivered + s.queue[..Min(n, |s.queue|)]
      && t.queue == s.queue[Min(n, |s.queue|)..]
      && t.waiters == [] && t.ended && !t.cancelled && t.calls == s.calls + n
      && t.settled == s.settled + Answers(s, n)
  {
    hide Run, Next;
    NextCallsRun(s, n);
    if n > 0 {
      EndDrains(s, n - 1);
      DrainStep(s, Run(s, seq(n - 1, _ => OpNext)), n - 1);
      OneMoreAnswer(s, n);
    }
  }

  lemma NextCallsRun(s: State, n: nat)
    ensures Run(s, seq(n, _ => OpNext)) == if n == 0 then s else Next(Run(s, seq(n - 1, _ => OpNext)))
  {
    hide Next, Notify, EndWithSynthetic, EndTransportLost, EndOfStream, Cancel;
    if n > 0 {
      var ops := seq(n, _ => OpNext);
      assert ops[..n - 1] == seq(n - 1, _ => OpNext) && ops[n - 1] == OpNext;
    }
  }

  lemma DrainStep(s: State, u: State, k: nat)
    requires u.ended && !u.cancelled && u.waiters == [] && u.calls == s.calls + k
    requires u.queue == s.queue[Min(k, |s.queue|)..]
    ensures var t := Next(u);
      && t.delivered == u.delivered + s.queue[Min(k, |s.queue|)..Min(k + 1, |s.queue|)]
      && t.queue == s.queue[Min(k + 1, |s.queue|)..]
      && t.waiters == [] && t.ended && !t.cancelled && t.calls == s.calls + k + 1
      && t.settled == u.settled + [Answer(s, k)]
  {
  }

  /** What call number `s.calls + i` gets once the source has ended in state `s`. */
  function Answer(s: State, i: nat): Settled {
    Settled(s.calls + i, if i < |s.queue| then Yield(s.queue[i].ev) else Done)
  }

  lemma OneMoreAnswer(s: State, n: nat)
    requires n > 0
    ensures Answers(s, n) == Answers(s, n - 1) + [Answer(s, n - 1)]
  {
  }

  function Answers(s: State, n: nat): seq<Settled> { seq(n, i requires 0 <= i < n => Answer(s, i)) }

  // ---- transport loss -------------------------------------------------

  function AsLifecycle(evs: seq<Event>): seq<Accepted> {
    seq(|evs|, i requires 0 <= i < |evs| => Accepted(evs[i], Lifecycle))
  }

  lemma {:induction false} EnqueueAllFrame(s: State, evs: seq<Event>)
    ensures var t := EnqueueAll(s, evs);
      && t.softCap == s.softCap && t.hardCap == s.hardCap
      && t.waiters == s.waiters && t.cancelled == s.cancelled && t.ended == s.ended
      && t.calls == s.calls && t.settled == s.settled && t.delivered == s.delivered
      && t.accepted == s.accepted + AsLifecycle(evs)
  {
    if evs != [] {
      var front := evs[..|evs| - 1];
      EnqueueAllFrame(s, front);
      EnqueueFrame(EnqueueAll(s, front), evs[|evs| - 1], Lifecycle);
      assert AsLifecycle(evs) == AsLifecycle(front) + [Accepted(evs[|evs| - 1], Lifecycle)];
    }
  }

  lemma LostLeavesRest(t: (string, Turn), rest: seq<(string, Turn)>)
    requires t.0 == KeyOf(t.1)
    ensures TrackTurn([t] + rest, Lost(t.1)) == rest
  {
  }

  /** Failing the first n open turns leaves the others in the table. */
  lemma {:induction false} LostTurnsLeave(s: State, n: nat)
    requires n <= |s.turns| && KeysOk(s.turns)
    ensures EnqueueAll(s, LostTurns(s.turns)[..n]).turns == s.turns[n..]
  {
    hide TrackTurn, Enqueue, Lost;
    var evs := LostTurns(s.turns)[..n];
    if n > 0 {
      LostTurnsLeave(s, n - 1);
      var front, last := LostTurns(s.turns)[..n - 1], s.turns[n - 1];
      assert evs[..n - 1] == front && evs[n - 1] == Lost(last.1);
      assert s.turns[n - 1..] == [last] + s.turns[n..];
      LostLeavesRest(last, s.turns[n..]);
      EnqueueFrame(EnqueueAll(s, front), Lost(last.1), Lifecycle);
    }
  }

  /** A closed stream accepts nothing, whatever is called on it. */
  lemma {:induction false} ClosedAcceptsNothing(s: State, ops: seq<Op>)
    requires !Open(s)
    ensures !Open(Run(s, ops)) && Run(s, ops).accepted == s.accepted && Run(s, ops).turns == s.turns
  {
    if ops != [] { ClosedAcceptsNothing(s, ops[..|ops| - 1]); }
  }

  lemma LossReduces(s: State)
    requires Inv(s) && Open(s)
    ensures var t, mid := EndTransportLost(s), EnqueueAll(s, LostTurns(s.turns));
      && Busy(mid) && Inv(t) && t.ended
      && t.accepted == mid.accepted && t.turns == mid.turns && Slots(t) == Slots(mid)
  {
    var evs := LostTurns(s.turns);
    EnqueueAllBusy(s, evs);
    DrainInv(EnqueueAll(s, evs));
    EndOfStreamInv(Drain(EnqueueAll(s, evs)));
  }

  /** A failure made up for a lost transport. */
  predicate IsFailure(e: Accepted) {
    e.cls.Lifecycle? && e.ev.TurnFailed? && e.ev.transportLost && e.ev.raw.Synthetic?
  }

  function FailedKey(e: Accepted): string
    requires IsFailure(e)
  {
    TurnKey(e.ev.threadId, e.ev.turnId)
  }

  /** Failures under these keys, one each. */
  predicate FailsKeys(failures: seq<Accepted>, keys: seq<string>) {
    |failures| == |keys| && forall i :: 0 <= i < |keys| ==> IsFailure(failures[i]) && FailedKey(failures[i]) == keys[i]
  }

  predicate NoRepeats(keys: seq<string>) { forall i, j :: 0 <= i < j < |keys| ==> keys[i] != keys[j] }

  /** One failure for each turn open in `log`, and none twice. */
  ghost predicate FailsEachOpenTurn(failures: seq<Accepted>, log: seq<Accepted>) {
    exists keys :: FailsKeys(failures, keys) && NoRepeats(keys) && forall key :: key in keys <==> OpenTurn(log, key)
  }

  function Keys(turns: seq<(string, Turn)>): seq<string> {
    seq(|turns|, i requires 0 <= i < |turns| => turns[i].0)
  }

  lemma LostTurnsFail(turns: seq<(string, Turn)>)
    requires KeysOk(turns)
    ensures FailsKeys(AsLifecycle(LostTurns(turns)), Keys(turns)) && NoRepeats(Keys(turns))
  {
  }

  lemma KeysAreOpen(turns: seq<(string, Turn)>, log: seq<Accepted>)
    requires TableOk(turns, log)
    ensures forall key :: key in Keys(turns) <==> OpenTurn(log, key)
  {
    forall key ensures key in Keys(turns) <==> Has(turns, key) {
      if Has(turns, key) {
        var i :| 0 <= i < |turns| && turns[i].0 == key;
        assert Keys(turns)[i] == key;
      }
    }
  }

  /** Losing the transport on an open stream fails each open turn exactly once, in
      table order, empties the table and closes the stream for good. */
  lemma TransportLossCloses(s: State, later: seq<Op>)
    requires Inv(s) && Open(s)
    ensures var t, n := EndTransportLost(s), |s.accepted|;
      && t.ended && t.turns == []
      && s.accepted <= t.accepted && |t.accepted| == n + |s.turns|
      && FailsKeys(t.accepted[n..], Keys(s.turns))
      && FailsEachOpenTurn(t.accepted[n..], s.accepted)
      && (forall key :: !OpenTurn(t.accepted, key))
      && Run(t, later).accepted == t.accepted
  {
    hide Shape, Refines, CallsOk, Slots, EndTransportLost, EnqueueAll, AsLifecycle, LostTurns, OpenTurn, FailsKeys, Keys;
    var evs := LostTurns(s.turns);
    LossReduces(s);
    assert evs[..|s.turns|] == evs by { OnePerTurn(s.turns); }
    LostTurnsLeave(s, |s.turns|);
    EnqueueAllFrame(s, evs);
    LostTurnsFail(s.turns);
    KeysAreOpen(s.turns, s.accepted);
    var t := EndTransportLost(s);
    assert t.accepted[|s.accepted|..] == AsLifecycle(evs);
    assert |AsLifecycle(evs)| == |s.turns| by { OneFailurePerTurn(s.turns); }
    assert TableOk(t.turns, t.accepted);
    forall key ensures !OpenTurn(t.accepted, key) {
      assert !Has(t.turns, key);
    }
    ClosedAcceptsNothing(t, later);
  }

  lemma OneFailurePerTurn(turns: seq<(string, Turn)>)
    ensures |AsLifecycle(LostTurns(turns))| == |turns|
  {
  }

  /** The slot of accepted event number `i`, as it was accepted. */
  function SlotOf(log: seq<Accepted>, i: nat): Entry
    requires i < |log|
  {
    Entry(log[i].ev, log[i].cls, i)
  }

  /** The last `n` entries of `q` are the last `n` accepted events. */
  predicate Newest(q: seq<Entry>, log: seq<Accepted>, n: nat) {
    && n <= |q| && n <= |log|
    && forall i :: |q| - n <= i < |q| ==> q[i] == SlotOf(log, i - |q| + |log|)
  }

  lemma NewestSuffix(q: seq<Entry>, log: seq<Accepted>, n: nat, r: seq<Entry>, m: nat)
    requires Newest(q, log, n) && n <= m <= |q| && m <= |r|
    requires r[|r| - m..] == q[|q| - m..]
    ensures Newest(r, log, n)
  {
    forall i | |r| - n <= i < |r| ensures r[i] == SlotOf(log, i - |r| + |log|) {
      var j := i - |r| + m;
      assert r[i] == r[|r| - m..][j] == q[|q| - m..][j] == q[i - |r| + |q|];
    }
  }

  lemma NewestPush(q: seq<Entry>, log: seq<Accepted>, n: nat, e: Accepted)
    requires Newest(q, log, n)
    ensures Newest(q + [Entry(e.ev, e.cls, |log|)], log + [e], n + 1)
  {
    var r := q + [Entry(e.ev, e.cls, |log|)];
    forall i | |r| - (n + 1) <= i < |r| ensures r[i] == SlotOf(log + [e], i - |r| + |log| + 1) {
      if i < |q| { assert r[i] == q[i]; }
    }
  }

  /** The hard cap never touches the newest entries. */
  lemma ShedTail(p: State)
    requires |p.queue| > p.hardCap
    ensures var r := Shed(p).queue;
      |r| >= p.hardCap && r[|r| - p.hardCap..] == p.queue[|p.queue| - p.hardCap..]
  {
    hide Reals, CountDelta;
  }

  lemma ShedNewest(p: State, n: nat)
    requires Newest(p.queue, p.accepted, n) && n <= p.hardCap
    ensures Newest(Shed(p).queue, p.accepted, n)
  {
    if |p.queue| > p.hardCap {
      ShedTail(p);
      hide Newest, Shed, Reals, CountDelta;
      NewestSuffix(p.queue, p.accepted, n, Shed(p).queue, p.hardCap);
    }
  }

  lemma EnqueueNewest(s: State, ev: Event, n: nat)
    requires Newest(s.queue, s.accepted, n) && n < s.hardCap
    ensures var t := Enqueue(s, ev, Lifecycle); Newest(t.queue, t.accepted, n + 1)
  {
    EnqueueFrame(s, ev, Lifecycle);
    NewestPush(s.queue, s.accepted, n, Accepted(ev, Lifecycle));
    ShedNewest(Push(s.(turns := TrackTurn(s.turns, ev)), ev, Lifecycle), n + 1);
  }

  lemma {:induction false} EnqueueAllNewest(s: State, evs: seq<Event>)
    requires |evs| <= s.hardCap
    ensures var t := EnqueueAll(s, evs); Newest(t.queue, t.accepted, |evs|)
  {
    if evs != [] {
      var front := evs[..|evs| - 1];
      EnqueueAllNewest(s, front);
      EnqueueAllFrame(s, front);
      EnqueueNewest(EnqueueAll(s, front), evs[|evs| - 1], |evs| - 1);
    }
  }

  /** `out` ends with one failure per turn of `turns`, in their order, as the
      events accepted from position `base` on. */
  predicate EndsWithLost(out: seq<Entry>, turns: seq<(string, Turn)>, base: nat) {
    && |turns| <= |out|
    && forall i :: |out| - |turns| <= i < |out| ==>
         out[i] == Entry(Lost(turns[i - |out| + |turns|].1), Lifecycle, base + i - |out| + |turns|)
  }

  /** Is every synthetic failure handed out or buffered, after all that came before? */
  predicate AllLostKept(s: State) {
    EndsWithLost(Slots(EndTransportLost(s)), s.turns, |s.accepted|)
  }

  lemma NewestLost(before: seq<Entry>, q: seq<Entry>, log: seq<Accepted>, turns: seq<(string, Turn)>)
    requires Newest(q, log + AsLifecycle(LostTurns(turns)), |turns|)
    ensures EndsWithLost(before + q, turns, |log|)
  {
    var out, all, n := before + q, log + AsLifecycle(LostTurns(turns)), |turns|;
    forall i | |out| - n <= i < |out|
      ensures out[i] == Entry(Lost(turns[i - |out| + n].1), Lifecycle, |log| + i - |out| + n)
    {
      var j := i - |before|;
      assert out[i] == q[j] == SlotOf(all, j - |q| + |all|);
      assert all[j - |q| + |all|] == AsLifecycle(LostTurns(turns))[j - |q| + n];
    }
  }

  lemma TooManyLost(before: seq<Entry>, q: seq<Entry>, turns: seq<(string, Turn)>, log: seq<Accepted>, hardCap: nat)
    requires |turns| > hardCap && |q| <= hardCap + 1 && (|q| == hardCap + 1 ==> TotalMarker(q[0]))
    requires forall i :: 0 <= i < |before| ==> SlotOk(before[i], log)
    ensures !EndsWithLost(before + q, turns, |log|)
  {
    var out, n := before + q, |turns|;
    if n <= |out| {
      var i := |out| - n;
      if |q| < n {
        assert out[i] == before[i];
        assert SlotOk(before[i], log);
      } else {
        assert out[i] == q[0];
      }
    }
  }

  /** No synthetic failure is dropped if and only if the open turns number at most the hard cap. */
  lemma LostTurnsSurvive(s: State)
    requires Inv(s) && Open(s)
    ensures AllLostKept(s) <==> |s.turns| <= s.hardCap
  {
    var mid := EnqueueAll(s, LostTurns(s.turns));
    LossReduces(s);
    EnqueueAllFrame(s, LostTurns(s.turns));
    assert |mid.queue| <= mid.hardCap + 1 && (|mid.queue| == mid.hardCap + 1 ==> TotalMarker(mid.queue[0]));
    DeliveredOk(s);
    hide Inv, Busy, EnqueueAll, EndTransportLost, EndsWithLost, SlotOk, TotalMarker, LostTurns;
    if |s.turns| <= s.hardCap {
      assert |LostTurns(s.turns)| == |s.turns| by { OnePerTurn(s.turns); }
      EnqueueAllNewest(s, LostTurns(s.turns));
      NewestLost(mid.delivered, mid.queue, s.accepted, s.turns);
    } else {
      TooManyLost(mid.delivered, mid.queue, s.turns, s.accepted, s.hardCap);
    }
  }

  lemma OnePerTurn(turns: seq<(string, Turn)>)
    ensures |LostTurns(turns)| == |turns|
  {
  }

  lemma DeliveredOk(s: State)
    requires Inv(s)
    ensures forall i :: 0 <= i < |s.delivered| ==> SlotOk(s.delivered[i], s.accepted)
  {
    forall i | 0 <= i < |s.delivered| ensures SlotOk(s.delivered[i], s.accepted) {
      assert s.delivered[i] == Slots(s)[i];
    }
  }

  function Opening(n: nat): Op { OpNotify(TurnStarted(Digits(n), "", Wire(n)), Lifecycle) }

  /** The first `n` of a list of different turns starting. */
  function OpeningTurns(n: nat): seq<Op> {
    if n == 0 then [] else OpeningTurns(n - 1) + [Opening(n - 1)]
  }

  /** So many turns open, under the keys of the turns started. */
  predicate OpenedTo(s: State, n: nat) {
    Open(s) && |s.turns| == n && forall i :: 0 <= i < n ==> s.turns[i].0 == TurnKey(Digits(i), "")
  }

  lemma OneMoreOpen(s: State, n: nat)
    requires OpenedTo(s, n)
    ensures OpenedTo(Apply(s, Opening(n)), n + 1)
  {
    hide TurnKey, Digits, Notify;
    NotifyTracks(s, TurnStarted(Digits(n), "", Wire(n)));
    forall i | 0 <= i < n ensures s.turns[i].0 != TurnKey(Digits(n), "") { NewKey(i, n); }
    PutFresh(s.turns, TurnKey(Digits(n), ""), Turn(Digits(n), ""));
  }

  lemma {:induction false} StartsOpenTurns(softCap: nat, hardCap: nat, n: nat)
    ensures AllLegal(OpeningTurns(n)) && OpenedTo(Run(Init(softCap, hardCap), OpeningTurns(n)), n)
  {
    hide Apply, OpenedTo;
    if n == 0 {
      assert OpenedTo(Init(softCap, hardCap), 0) by { NoneOpened(softCap, hardCap); }
    } else {
      StartsOpenTurns(softCap, hardCap, n - 1);
      var front := OpeningTurns(n - 1);
      assert (front + [Opening(n - 1)])[..|front|] == front;
      OneMoreOpen(Run(Init(softCap, hardCap), front), n - 1);
    }
  }

  lemma NoneOpened(softCap: nat, hardCap: nat)
    ensures OpenedTo(Init(softCap, hardCap), 0)
  {
  }

  lemma NotifyTracks(s: State, ev: Event)
    requires Open(s)
    ensures var t := Notify(s, ev, Lifecycle); Open(t) && t.turns == TrackTurn(s.turns, ev)
  {
    EnqueueFrame(s, ev, Lifecycle);
    hide Enqueue, TrackTurn;
  }

  lemma NewKey(i: nat, n: nat)
    requires i != n
    ensures TurnKey(Digits(i), "") != TurnKey(Digits(n), "")
  {
    DigitsTell(i, n);
    var a, b := TurnKey(Digits(i), ""), TurnKey(Digits(n), "");
    assert a[..|a| - 1] == Digits(i) && b[..|b| - 1] == Digits(n);
  }

  /** Whatever the caps, some run opens more turns than survive: its transport
      loss drops a synthetic failure. */
  lemma LostTurnsCanBeDropped(softCap: nat, hardCap: nat)
    requires 1 <= softCap && 1 <= hardCap
    ensures exists ops :: AllLegal(ops) && Open(Run(Init(softCap, hardCap), ops)) && !AllLostKept(Run(Init(softCap, hardCap), ops))
  {
    hide Run, AllLostKept;
    var s0, ops := Init(softCap, hardCap), OpeningTurns(hardCap + 1);
    StartsOpenTurns(softCap, hardCap, hardCap + 1);
    InitInv(softCap, hardCap);
    RunInv(s0, ops);
    CapsFixed(s0, ops);
    LostTurnsSurvive(Run(s0, ops));
  }

  // ---- histories only grow --------------------------------------------

  predicate Grows(s: State, t: State) {
    s.accepted <= t.accepted && s.delivered <= t.delivered && s.settled <= t.settled
  }

  lemma StepGrows(s: State, op: Op)
    ensures Grows(s, Apply(s, op))
  {
    hide Enqueue, EnqueueAll, TrackTurn, Lost, CountDelta;
    match op
    case OpNotify(ev, cls) => EnqueueFrame(s, ev, cls);
    case OpEndWith(evs) => EnqueueAllFrame(s, evs);
    case OpTransportLost => EnqueueAllFrame(s, LostTurns(s.turns));
    case _ =>
  }

  lemma {:induction false} RunAppend(s: State, first: seq<Op>, later: seq<Op>)
    ensures Run(s, first + later) == Run(Run(s, first), later)
  {
    if later == [] {
      assert first + later == first;
    } else {
      assert (first + later)[..|first + later| - 1] == first + later[..|later| - 1];
      RunAppend(s, first, later[..|later| - 1]);
    }
  }

  /** What a run accepted, delivered and settled stays a prefix of what every
      continuation of it does: nothing is taken back or overtaken. */
  lemma {:induction false} HistoryGrows(s: State, first: seq<Op>, later: seq<Op>)
    ensures Grows(Run(s, first), Run(s, first + later))
  {
    RunAppend(s, first, later);
    if later != [] {
      var front := later[..|later| - 1];
      HistoryGrows(s, first, front);
      RunAppend(s, first, front);
      StepGrows(Run(Run(s, first), front), later[|later| - 1]);
    }
  }

  // ---- a marker need not survive --------------------------------------

  /** A round of the hard cap leaves a lifecycle marker in the queue if and only
      if a real event was among the entries it removed. */
  lemma RoundLeavesMarker(s: State)
    requires Ordered(s.queue) && |s.queue| > s.hardCap
    ensures (exists i :: 0 <= i < |Shed(s).queue| && TotalMarker(Shed(s).queue[i]))
      <==> (exists j :: 0 <= j < |s.queue| - s.hardCap && !s.queue[j].ev.Overflow?)
  {
    var k := |s.queue| - s.hardCap;
    var lost := s.queue[..k];
    RealsEmptyIff(lost);
    assert forall j :: 0 <= j < k ==> lost[j] == s.queue[j];
    if Reals(lost) == [] {
      forall i | 0 <= i < |Shed(s).queue| ensures !TotalMarker(Shed(s).queue[i]) {
        assert Shed(s).queue[i] == s.queue[i + k];
      }
    } else {
      assert TotalMarker(Shed(s).queue[0]);
    }
  }

  lemma {:induction false} RealsEmptyIff(q: seq<Entry>)
    ensures Reals(q) == [] <==> forall i :: 0 <= i < |q| ==> q[i].ev.Overflow?
  {
    if q != [] {
      RealsEmptyIff(q[..|q| - 1]);
      assert forall i :: 0 <= i < |q| - 1 ==> q[..|q| - 1][i] == q[i];
    }
  }

  lemma SecondDelta(s: State, a: Event, b: Event)
    requires a.Other? && b.Other?
    requires s == Init(1, 1).(queue := [Entry(a, Delta, 0)], accepted := [Accepted(a, Delta)], deltaCount := 1)
    ensures Enqueue(s, b, Delta).queue == [Entry(b, Delta, 1)] && Enqueue(s, b, Delta).droppedDelta == 1
  {
    var e := MakeRoom(s, Delta);
    assert e.queue == [Entry(Overflow(1, Delta), Lifecycle, 0)];
    var p := Push(e, b, Delta);
    assert p.queue == [Entry(Overflow(1, Delta), Lifecycle, 0), Entry(b, Delta, 1)];
    assert p.queue[..1] == [p.queue[0]];
    RealsOfMarker(p.queue[0]);
    assert p.queue[1..] == [Entry(b, Delta, 1)];
  }

  /** Two deltas under caps of one: the first is lost and no marker is left to say so. */
  lemma DropWithoutMarker(a: Event, b: Event)
    requires a.Other? && b.Other?
    ensures var s := Run(Init(1, 1), [OpNotify(a, Delta), OpNotify(b, Delta)]);
      s.droppedDelta == 1 && s.delivered == [] && s.queue == [Entry(b, Delta, 1)]
  {
    var ops := [OpNotify(a, Delta), OpNotify(b, Delta)];
    var s0 := Init(1, 1);
    assert ops[..1] == [OpNotify(a, Delta)] && ops[..1][..0] == [];
    var s1 := Enqueue(s0, a, Delta);
    assert Run(s0, ops[..1]) == Notify(s0, a, Delta);
    assert s1.queue == [Entry(a, Delta, 0)] && s1.accepted == [Accepted(a, Delta)];
    NobodyWaits(s1);
    SecondDelta(s1, a, b);
    EnqueueFrame(s1, b, Delta);
    NobodyWaits(Enqueue(s1, b, Delta));
  }

  lemma NobodyWaits(s: State)
    requires s.waiters == []
    ensures Drain(s) == s
  {
    assert s.queue[..0] == [] && s.waiters[..0] == [];
    assert s.delivered + [] == s.delivered && s.settled + Handed([], []) == s.settled;
  }

}

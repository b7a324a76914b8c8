/** The event normalizer as the mutable object it is: one queue, one list of
    parked callers, a table of open turns and a few counters. Each method is
    tied to its function in `NormalizerModel`. */
module Normalizer {
  import opened Basics
  import opened OrderedMap
  import opened NormalizerModel
  import opened NormalizerQueue
  import opened NormalizerRuns

  class EventNormalizer {
    const deltaSoftCap: nat
    const totalHardCap: nat
    var queue: seq<Entry>
    /** Parked `next()` calls, by call number. */
    var waiters: seq<nat>
    var cancelled: bool
    var endOfStream: bool
    var pendingTurns: seq<(string, Turn)>
    var deltaCount: int
    var droppedDeltaCount: nat
    var droppedLifecycleCount: nat
    var calls: nat
    /** The promises resolved so far, in order. */
    var settled: seq<Settled>
    /** History: the log of accepted events. Only slot origins are read off it. */
    var accepted: seq<Accepted>
    ghost var delivered: seq<Entry>
    ghost var shed: nat

    ghost function Now(): State
      reads this
    {
      State(deltaSoftCap, totalHardCap, queue, waiters, cancelled, endOfStream, pendingTurns, deltaCount,
            droppedDeltaCount, droppedLifecycleCount, calls, settled, accepted, delivered, shed)
    }

    ghost predicate Valid()
      reads this
    {
      Inv(Now())
    }

    constructor (softOption: NumberOption, hardOption: NumberOption)
      ensures Valid()
      ensures Now() == Init(SanitizeCap(softOption, DEFAULT_DELTA_SOFT_CAP), SanitizeCap(hardOption, DEFAULT_TOTAL_HARD_CAP))
    {
      deltaSoftCap := SanitizeCap(softOption, DEFAULT_DELTA_SOFT_CAP);
      totalHardCap := SanitizeCap(hardOption, DEFAULT_TOTAL_HARD_CAP);
      queue, waiters, cancelled, endOfStream, pendingTurns := [], [], false, false, [];
      deltaCount, droppedDeltaCount, droppedLifecycleCount, calls, settled := 0, 0, 0, 0, [];
      accepted, delivered, shed := [], [], 0;
      new;
      InitInv(deltaSoftCap, totalHardCap);
    }

    method TrackTurnState(ev: Event)
      modifies this`pendingTurns
      ensures pendingTurns == TrackTurn(old(pendingTurns), ev)
    {
      match ev {
        case TurnStarted(t, u, _) => SetTurn(Turn(t, u));
        case TurnCompleted(t, u, _) => DeleteTurn(TurnKey(t, u));
        case TurnFailed(t, u, _, _) => DeleteTurn(TurnKey(t, u));
        case TurnInterrupted(t, u, _) => DeleteTurn(TurnKey(t, u));
        case Overflow(_, _) =>
        case Other(_) =>
      }
    }

    method SetTurn(t: Turn)
      modifies this`pendingTurns
      ensures pendingTurns == Put(old(pendingTurns), KeyOf(t), t)
    {
      pendingTurns := Put(pendingTurns, KeyOf(t), t);
    }

    method DeleteTurn(key: string)
      modifies this`pendingTurns
      ensures pendingTurns == Drop(old(pendingTurns), key)
    {
      pendingTurns := Drop(pendingTurns, key);
    }

    /** The walk for the oldest delta, spliced into a marker where it stood. */
    method EvictOldestDelta()
      modifies this`queue, this`deltaCount, this`droppedDeltaCount
      ensures Now() == Evict(old(Now()))
    {
      var i := 0;
      while i < |queue|
        invariant 0 <= i <= |queue|
        invariant forall k :: 0 <= k < i ==> queue[k].cls.Lifecycle?
        invariant Now() == old(Now())
      {
        if queue[i].cls.Delta? {
          assert FirstDelta(queue) == i by { FirstDeltaIs(queue, i); }
          droppedDeltaCount := droppedDeltaCount + 1;
          queue := queue[i := Entry(Overflow(droppedDeltaCount, Delta), Lifecycle, queue[i].origin)];
          deltaCount := deltaCount - 1;
          return;
        }
        i := i + 1;
      }
    }

    /** The hard cap: shift until under it, then report the real entries lost. */
    method EnforceHardCap()
      modifies this`queue, this`deltaCount, this`droppedLifecycleCount, this`shed
      ensures Now() == Shed(old(Now()))
    {
      hide Reals, CountDelta;
      if |queue| > totalHardCap {
        assert Reals(queue[..0]) == [] && CountDelta(queue[..0]) == 0 by { NoneFallen(queue); }
        var droppedThisRound := 0;
        ghost var before := queue;
        ghost var k := 0;
        while |queue| > totalHardCap
          invariant 0 <= k <= |before| - totalHardCap
          invariant queue == before[k..]
          invariant droppedThisRound == |Reals(before[..k])|
          invariant deltaCount == old(deltaCount) - CountDelta(before[..k])
          invariant droppedLifecycleCount == old(droppedLifecycleCount) && shed == old(shed) + k
          decreases |queue|
        {
          var oldest := queue[0];
          queue := queue[1..];
          if oldest.cls.Delta? { deltaCount := deltaCount - 1; }
          if !oldest.ev.Overflow? { droppedThisRound := droppedThisRound + 1; }
          OneMoreFallen(before, k);
          shed := shed + 1;
          k := k + 1;
        }
        if droppedThisRound > 0 {
          droppedLifecycleCount := droppedLifecycleCount + droppedThisRound;
          queue := [Entry(Overflow(droppedLifecycleCount, Lifecycle), Lifecycle, -1)] + queue;
        }
      }
    }

    method EnqueueEvent(ev: Event, cls: EventClass)
      modifies this
      ensures Now() == Enqueue(old(Now()), ev, cls)
    {
      TrackTurnState(ev);
      ghost var tracked := Now();
      if cls.Delta? && deltaCount >= deltaSoftCap {
        EvictOldestDelta();
      }
      assert Now() == MakeRoom(tracked, cls);
      PushEntry(ev, cls);
      EnforceHardCap();
    }

    method PushEntry(ev: Event, cls: EventClass)
      modifies this`queue, this`accepted, this`deltaCount
      ensures Now() == Push(old(Now()), ev, cls)
    {
      queue := queue + [Entry(ev, cls, |accepted|)];
      accepted := accepted + [Accepted(ev, cls)];
      if cls.Delta? { deltaCount := deltaCount + 1; }
    }

    method Dequeue() returns (entry: Option<Entry>)
      modifies this`queue, this`deltaCount
      ensures old(queue) == [] ==> entry == None && Now() == old(Now())
      ensures old(queue) != [] ==>
        && entry == Some(old(queue)[0])
        && Now() == old(Now()).(queue := old(queue)[1..],
                                deltaCount := old(deltaCount) - (if old(queue)[0].cls.Delta? then 1 else 0))
    {
      if |queue| == 0 { return None; }
      entry := Some(queue[0]);
      queue := queue[1..];
      if entry.value.cls.Delta? { deltaCount := deltaCount - 1; }
    }

    /** Hands buffered events to parked callers until one of the two runs out. */
    method DrainQueue()
      modifies this`queue, this`waiters, this`deltaCount, this`settled, this`delivered
      ensures Now() == Drain(old(Now()))
    {
      hide Reals, CountDelta, Handed;
      ghost var q, w := queue, waiters;
      assert CountDelta(q[..0]) == 0 by { NoneFallen(q); }
      assert Handed(w[..0], q[..0]) == [] by { NoneHanded(w, q); }
      ghost var k := 0;
      while |queue| > 0 && |waiters| > 0
        invariant 0 <= k <= |q| && k <= |w|
        invariant queue == q[k..] && waiters == w[k..]
        invariant deltaCount == old(deltaCount) - CountDelta(q[..k])
        invariant settled == old(settled) + Handed(w[..k], q[..k])
        invariant delivered == old(delivered) + q[..k]
        decreases |queue|
      {
        var waiter := waiters[0];
        waiters := waiters[1..];
        var entry := Dequeue();
        OneMoreFallen(q, k);
        OneMoreHanded(w, q, k);
        settled := settled + [Settled(waiter, Yield(entry.value.ev))];
        delivered := delivered + [entry.value];
        k := k + 1;
      }
      assert k == Min(|q|, |w|);
    }

    /** Resolves every parked call with `Done`, in order. */
    method ReleaseWaiters()
      modifies this`waiters, this`settled
      ensures waiters == [] && settled == old(settled) + Finished(old(waiters))
    {
      var parked := waiters;
      waiters := [];
      var i := 0;
      while i < |parked|
        invariant 0 <= i <= |parked|
        invariant waiters == []
        invariant settled == old(settled) + Finished(parked)[..i]
      {
        settled := settled + [Settled(parked[i], Done)];
        i := i + 1;
      }
    }

    method OnNotification(ev: Event, cls: EventClass)
      requires Valid() && !ev.Overflow?
      modifies this
      ensures Now() == Notify(old(Now()), ev, cls) && Valid()
    {
      ApplyInv(Now(), OpNotify(ev, cls));
      if cancelled || endOfStream { return; }
      EnqueueEvent(ev, cls);
      DrainQueue();
    }

    method End()
      modifies this`endOfStream, this`waiters, this`settled
      ensures Now() == EndOfStream(old(Now()))
      ensures old(Valid()) ==> Valid()
    {
      if Inv(Now()) { EndOfStreamInv(Now()); }
      if cancelled || endOfStream { return; }
      endOfStream := true;
      if |queue| == 0 { ReleaseWaiters(); }
    }

    method EndWith(events: seq<Event>)
      requires Valid() && Legal(OpEndWith(events))
      modifies this
      ensures Now() == EndWithSynthetic(old(Now()), events) && Valid()
    {
      hide Inv, Enqueue, Drain, EndOfStream;
      ApplyInv(Now(), OpEndWith(events));
      if cancelled || endOfStream { return; }
      var i := 0;
      while i < |events|
        invariant 0 <= i <= |events|
        invariant Now() == EnqueueAll(old(Now()), events[..i])
      {
        EnqueueEvent(events[i], Lifecycle);
        assert events[..i + 1][..i] == events[..i];
        i := i + 1;
      }
      assert events[..i] == events;
      DrainQueue();
      End();
    }

    method EndWithTransportLost()
      requires Valid()
      modifies this
      ensures Now() == EndTransportLost(old(Now())) && Valid()
    {
      if cancelled || endOfStream { return; }
      var events := LostTurns(pendingTurns);
      EndWith(events);
    }

    /** The iterator's `next()`: a ticket, settled now or parked. */
    method NextCall() returns (call: nat)
      requires Valid()
      modifies this
      ensures call == old(calls)
      ensures Now() == Next(old(Now())) && Valid()
    {
      hide Inv;
      NextInv(Now());
      call := calls;
      calls := calls + 1;
      var entry := Dequeue();
      if entry.Some? {
        settled := settled + [Settled(call, Yield(entry.value.ev))];
        delivered := delivered + [entry.value];
        return;
      }
      if cancelled || endOfStream {
        settled := settled + [Settled(call, Done)];
        return;
      }
      waiters := waiters + [call];
    }

    /** The iterator's `return()`. */
    method CancelConsumer()
      requires Valid()
      modifies this
      ensures Now() == Cancel(old(Now())) && Valid()
    {
      hide Inv, Finished;
      CancelInv(Now());
      if cancelled { return; }
      cancelled := true;
      queue := [];
      deltaCount := 0;
      ReleaseWaiters();
    }
  }

  lemma NoneFallen(q: seq<Entry>)
    ensures Reals(q[..0]) == [] && CountDelta(q[..0]) == 0
  {
  }

  lemma OneMoreFallen(q: seq<Entry>, k: nat)
    requires k < |q|
    ensures q[..k + 1] == q[..k] + [q[k]]
    ensures CountDelta(q[..k + 1]) == CountDelta(q[..k]) + if q[k].cls.Delta? then 1 else 0
    ensures |Reals(q[..k + 1])| == |Reals(q[..k])| + if q[k].ev.Overflow? then 0 else 1
  {
    assert q[..k + 1][..k] == q[..k];
  }

  lemma NoneHanded(w: seq<nat>, q: seq<Entry>)
    ensures Handed(w[..0], q[..0]) == []
  {
  }

  lemma OneMoreHanded(w: seq<nat>, q: seq<Entry>, k: nat)
    requires k < |q| && k < |w|
    ensures Handed(w[..k + 1], q[..k + 1]) == Handed(w[..k], q[..k]) + [Settled(w[k], Yield(q[k].ev))]
  {
  }

  lemma {:induction false} FirstDeltaIs(q: seq<Entry>, i: nat)
    requires i < |q| && q[i].cls.Delta?
    requires forall k :: 0 <= k < i ==> q[k].cls.Lifecycle?
    ensures FirstDelta(q) == i
  {
    if i > 0 { FirstDeltaIs(q[1..], i - 1); }
  }
}

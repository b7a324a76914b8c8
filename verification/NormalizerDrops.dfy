/** Does the consumer learn of every drop? Each of the two counters is reported
    while a marker of its class with that very count has been delivered or waits
    in the queue. Eviction and the hard cap put such markers in; the hard cap and
    a cancellation can take them out again. */
module NormalizerDrops {
  import opened Basics
  import opened NormalizerModel
  import opened NormalizerQueue
  import opened NormalizerRuns

  // ---- reporting ------------------------------------------------------

  predicate Names(e: Entry, class_: EventClass, count: nat) { e.ev == Overflow(count, class_) }

  predicate Named(slots: seq<Entry>, class_: EventClass, count: nat) {
    exists i :: 0 <= i < |slots| && Names(slots[i], class_, count)
  }

  predicate DeltaReported(s: State) { s.droppedDelta > 0 ==> Named(Slots(s), Delta, s.droppedDelta) }

  predicate TotalReported(s: State) { s.droppedLifecycle > 0 ==> Named(Slots(s), Lifecycle, s.droppedLifecycle) }

  predicate Reported(s: State) { DeltaReported(s) && TotalReported(s) }

  lemma NamedConcat(a: seq<Entry>, b: seq<Entry>, class_: EventClass, count: nat)
    ensures Named(a + b, class_, count) <==> Named(a, class_, count) || Named(b, class_, count)
  {
    var w := a + b;
    if i :| 0 <= i < |a| && Names(a[i], class_, count) { assert Names(w[i], class_, count); }
    if i :| 0 <= i < |b| && Names(b[i], class_, count) { assert Names(w[|a| + i], class_, count); }
    if i :| 0 <= i < |w| && Names(w[i], class_, count) {
      if i < |a| { assert Names(a[i], class_, count); } else { assert Names(b[i - |a|], class_, count); }
    }
  }

  /** A count occurs once per class. */
  lemma NamedOnce(a: seq<Entry>, b: seq<Entry>, class_: EventClass, count: nat)
    requires Chain(a + b)
    ensures !(Named(a, class_, count) && Named(b, class_, count))
  {
    ChainSplit(a, b);
    forall i, j | 0 <= i < |a| && 0 <= j < |b| ensures !(Names(a[i], class_, count) && Names(b[j], class_, count)) {
      assert PairOk(a[i], b[j]);
    }
  }

  // ---- the hard cap ---------------------------------------------------

  /** The entries a round of the hard cap takes from the front. */
  function Removed(p: State): seq<Entry> {
    if |p.queue| > p.hardCap then p.queue[..|p.queue| - p.hardCap] else []
  }

  predicate HasReal(q: seq<Entry>) { exists i :: 0 <= i < |q| && !q[i].ev.Overflow? }

  /** Taking a stretch out of the slots loses exactly the counts named in it. */
  lemma NamedAfterCut(a: seq<Entry>, lost: seq<Entry>, kept: seq<Entry>, class_: EventClass, count: nat)
    requires Chain(a + lost + kept)
    ensures Named(a + kept, class_, count) <==> Named(a + lost + kept, class_, count) && !Named(lost, class_, count)
  {
    NamedConcat(a + lost, kept, class_, count);
    NamedConcat(a, lost, class_, count);
    NamedConcat(a, kept, class_, count);
    NamedOnce(a + lost, kept, class_, count);
    ChainSplit(a + lost, kept);
    NamedOnce(a, lost, class_, count);
  }

  lemma NamedWithMarker(a: seq<Entry>, m: Entry, kept: seq<Entry>, class_: EventClass, count: nat)
    ensures Named(a + [m] + kept, class_, count) <==> Named(a + kept, class_, count) || Names(m, class_, count)
  {
    NamedConcat(a + [m], kept, class_, count);
    NamedConcat(a, [m], class_, count);
    NamedConcat(a, kept, class_, count);
    assert Names([m][0], class_, count) <==> Names(m, class_, count);
  }

  /** What a round of the hard cap does to the reports: it forgets the count of
      deltas if the marker naming it is removed, and renews the total count if a
      real event is removed. */
  lemma ShedReports(p: State)
    requires Ordered(p.queue) && Refines(p)
    ensures var lost := Removed(p);
      && (DeltaReported(Shed(p)) <==>
            DeltaReported(p) && (p.droppedDelta > 0 ==> !Named(lost, Delta, p.droppedDelta)))
      && (TotalReported(Shed(p)) <==>
            HasReal(lost)
            || (TotalReported(p) && (p.droppedLifecycle > 0 ==> !Named(lost, Lifecycle, p.droppedLifecycle))))
  {
    if |p.queue| > p.hardCap {
      var k := |p.queue| - p.hardCap;
      var m := Entry(Overflow(p.droppedLifecycle + |Reals(p.queue[..k])|, Lifecycle), Lifecycle, -1);
      ShedSlots(p, k, m);
      RealsEmptyIff(p.queue[..k]);
      assert Chain(Slots(p));
      assert HasReal(p.queue[..k]) <==> Reals(p.queue[..k]) != [];
      hide Shed, Slots, Refines, Ordered, Reals, Named, Chain, HasReal, DeltaReported, TotalReported;
      CutReports(p, Shed(p), p.delivered, p.queue[..k], p.queue[k..], m);
    }
  }

  /** The reports before and after a stretch of the slots gave way to a marker, or to nothing. */
  lemma CutReports(p: State, t: State, a: seq<Entry>, lost: seq<Entry>, kept: seq<Entry>, m: Entry)
    requires Slots(p) == a + lost + kept && Chain(a + lost + kept)
    requires Slots(t) == if HasReal(lost) then a + [m] + kept else a + kept
    requires m.ev == Overflow(t.droppedLifecycle, Lifecycle) && t.droppedDelta == p.droppedDelta
    requires if HasReal(lost) then t.droppedLifecycle > 0 else t.droppedLifecycle == p.droppedLifecycle
    ensures DeltaReported(t) <==> DeltaReported(p) && (p.droppedDelta > 0 ==> !Named(lost, Delta, p.droppedDelta))
    ensures TotalReported(t) <==>
      HasReal(lost) || (TotalReported(p) && (p.droppedLifecycle > 0 ==> !Named(lost, Lifecycle, p.droppedLifecycle)))
  {
    hide Slots, Named, Chain, HasReal;
    NamedAfterCut(a, lost, kept, Delta, p.droppedDelta);
    NamedAfterCut(a, lost, kept, Lifecycle, p.droppedLifecycle);
    NamedWithMarker(a, m, kept, Delta, p.droppedDelta);
    NamedWithMarker(a, m, kept, Lifecycle, t.droppedLifecycle);
  }

  // ---- eviction and push ----------------------------------------------

  predicate Evicts(s: State, cls: EventClass) { cls.Delta? && s.deltaCount >= s.softCap }

  /** An evicted delta is always reported by its own marker, at the victim's place only. */
  lemma EvictReports(s: State)
    requires Ordered(s.queue) && Refines(s) && FirstDelta(s.queue) < |s.queue|
    ensures var t, i := Evict(s), FirstDelta(s.queue);
      && Names(t.queue[i], Delta, t.droppedDelta)
      && (forall j :: 0 <= j < |t.queue| && j != i ==> t.queue[j] == s.queue[j] && !Names(t.queue[j], Delta, t.droppedDelta))
      && DeltaReported(t) && (TotalReported(t) <==> TotalReported(s))
  {
    var t, i := Evict(s), FirstDelta(s.queue);
    var m := t.queue[i];
    AfterFirstDelta(s.queue);
    SplitBehind(s.delivered, s.queue, i, m);
    forall j | 0 <= j < |t.queue| && j != i ensures !Names(t.queue[j], Delta, t.droppedDelta) {
      assert s.queue[j] == Slots(s)[|s.delivered| + j];
      assert CountOk(Slots(s)[|s.delivered| + j], s.droppedDelta, s.droppedLifecycle);
    }
    var a, b := s.delivered + s.queue[..i], s.queue[i + 1..];
    NamedWithMarker(a, m, b, Delta, t.droppedDelta);
    NamedWithMarker(a, m, b, Lifecycle, s.droppedLifecycle);
    NamedWithMarker(a, s.queue[i], b, Lifecycle, s.droppedLifecycle);
  }

  lemma PushReports(s: State, ev: Event, cls: EventClass)
    requires !ev.Overflow?
    ensures var t := Push(s, ev, cls);
      (DeltaReported(t) <==> DeltaReported(s)) && (TotalReported(t) <==> TotalReported(s))
  {
    var e := Entry(ev, cls, |s.accepted|);
    assert Slots(Push(s, ev, cls)) == Slots(s) + [e];
    NamedConcat(Slots(s), [e], Delta, s.droppedDelta);
    NamedConcat(Slots(s), [e], Lifecycle, s.droppedLifecycle);
    assert !Named([e], Delta, s.droppedDelta) && !Named([e], Lifecycle, s.droppedLifecycle);
  }

  // ---- one enqueue ----------------------------------------------------

  /** How many entries an enqueue makes the hard cap remove. */
  function Falling(s: State): (k: nat)
    ensures k <= |s.queue|
  {
    Min(Max(|s.queue| + 1 - s.hardCap, 0), |s.queue|)
  }

  /** The enqueue leaves the count of dropped deltas reported: the victim of an
      eviction stands behind what falls, or else no marker naming the count falls. */
  predicate SparesDelta(s: State, cls: EventClass) {
    if Evicts(s, cls) then Falling(s) <= FirstDelta(s.queue)
    else s.droppedDelta > 0 ==> !Named(s.queue[..Falling(s)], Delta, s.droppedDelta)
  }

  /** A real event falls that was not just turned into a marker. */
  predicate RealFalls(s: State, cls: EventClass) {
    exists j :: 0 <= j < Falling(s) && !s.queue[j].ev.Overflow? && !(Evicts(s, cls) && j == FirstDelta(s.queue))
  }

  /** The enqueue leaves the total count reported: it is renewed, or no marker naming it falls. */
  predicate SparesTotal(s: State, cls: EventClass) {
    RealFalls(s, cls) || (s.droppedLifecycle > 0 ==> !Named(s.queue[..Falling(s)], Lifecycle, s.droppedLifecycle))
  }

  predicate Spares(s: State, cls: EventClass) {
    SparesDelta(s, cls) && SparesTotal(s, cls)
  }

  /** The victim among the first `k` entries after the eviction: it is the only one that changed. */
  lemma FallingAfterEviction(s: State, k: nat)
    requires Shape(s) && Refines(s) && FirstDelta(s.queue) < |s.queue| && k <= |s.queue|
    ensures var t, i := Evict(s), FirstDelta(s.queue);
      && |t.queue| == |s.queue|
      && (HasReal(t.queue[..k]) <==> exists j :: 0 <= j < k && !s.queue[j].ev.Overflow? && j != i)
      && (Named(t.queue[..k], Delta, t.droppedDelta) <==> i < k)
      && (Named(t.queue[..k], Lifecycle, s.droppedLifecycle) <==> Named(s.queue[..k], Lifecycle, s.droppedLifecycle))
  {
    var t, i := Evict(s), FirstDelta(s.queue);
    EvictReports(s);
    AfterFirstDelta(s.queue);
    assert t.queue[i].ev.Overflow?;
    assert forall j :: 0 <= j < |s.queue| && j != i ==> t.queue[j] == s.queue[j];
    hide Evict, Shape, Refines, FirstDelta;
    var before, after := s.queue[..k], t.queue[..k];
    assert forall j :: 0 <= j < k ==> before[j] == s.queue[j] && after[j] == t.queue[j];
    if i < k { assert Names(after[i], Delta, t.droppedDelta); }
    assert forall j :: 0 <= j < k ==>
      (Names(after[j], Lifecycle, s.droppedLifecycle) <==> Names(before[j], Lifecycle, s.droppedLifecycle));
    if j :| 0 <= j < k && !s.queue[j].ev.Overflow? && j != i { assert !after[j].ev.Overflow?; }
  }

  lemma FallingUnchanged(s: State, k: nat)
    requires k <= |s.queue|
    ensures HasReal(s.queue[..k]) <==> exists j :: 0 <= j < k && !s.queue[j].ev.Overflow?
  {
    var q := s.queue[..k];
    if j :| 0 <= j < k && !s.queue[j].ev.Overflow? { assert !q[j].ev.Overflow?; }
  }

  /** What falls, read off the queue before the eviction. */
  lemma FallingAfterRoom(s: State, cls: EventClass)
    requires Shape(s) && Refines(s)
    ensures var t, k := MakeRoom(s, cls), Falling(s);
      && |t.queue| == |s.queue| && k <= |t.queue|
      && (HasReal(t.queue[..k]) <==> RealFalls(s, cls))
      && (Evicts(s, cls) ==> (Named(t.queue[..k], Delta, t.droppedDelta) <==> FirstDelta(s.queue) < k))
      && (Named(t.queue[..k], Lifecycle, s.droppedLifecycle) <==> Named(s.queue[..k], Lifecycle, s.droppedLifecycle))
  {
    if Evicts(s, cls) {
      VictimExists(s);
      hide Shape, Refines, HasReal, Named;
      FallingAfterEviction(s, Falling(s));
    } else {
      FallingUnchanged(s, Falling(s));
    }
  }

  lemma RoomReports(s: State, cls: EventClass)
    requires Shape(s) && Refines(s)
    ensures var t := MakeRoom(s, cls);
      && t.hardCap == s.hardCap && t.droppedLifecycle == s.droppedLifecycle && |t.queue| == |s.queue|
      && (!Evicts(s, cls) ==> t == s)
      && (DeltaReported(t) <==> Evicts(s, cls) || DeltaReported(s))
      && (TotalReported(t) <==> TotalReported(s))
      && (Evicts(s, cls) ==> t.droppedDelta > 0)
  {
    if Evicts(s, cls) {
      VictimExists(s);
      EvictReports(s);
    }
  }

  /** What is removed after the push is what falls. */
  lemma RemovedIsFalling(r: State, p: State)
    requires 1 <= p.hardCap == r.hardCap && |p.queue| == |r.queue| + 1 && p.queue[..|r.queue|] == r.queue
    ensures Removed(p) == r.queue[..Falling(r)]
  {
  }

  /** Exactly when an enqueue leaves its drops reported: the deltas, if their
      marker is spared and they were reported or are reported anew; the total, if
      a real event falls, or it was reported and its marker is spared. */
  lemma EnqueueReports(s: State, ev: Event, cls: EventClass)
    requires Shape(s) && Refines(s) && !ev.Overflow?
    ensures var t := Enqueue(s, ev, cls);
      && (DeltaReported(t) <==> SparesDelta(s, cls) && (Evicts(s, cls) || DeltaReported(s)))
      && (TotalReported(t) <==> SparesTotal(s, cls) && (RealFalls(s, cls) || TotalReported(s)))
  {
    var s' := s.(turns := TrackTurn(s.turns, ev));
    PushAndShedReport(s', ev, cls);
    TurnsDoNotReport(s, s', cls);
    hide *;
    assert Enqueue(s, ev, cls) == Shed(Push(MakeRoom(s', cls), ev, cls)) by { EnqueueIs(s, ev, cls); }
  }

  lemma EnqueueIs(s: State, ev: Event, cls: EventClass)
    ensures Enqueue(s, ev, cls) == Shed(Push(MakeRoom(s.(turns := TrackTurn(s.turns, ev)), cls), ev, cls))
  {
  }

  lemma TurnsDoNotReport(s: State, t: State, cls: EventClass)
    requires t == s.(turns := t.turns)
    ensures Evicts(t, cls) == Evicts(s, cls) && RealFalls(t, cls) == RealFalls(s, cls)
    ensures SparesDelta(t, cls) == SparesDelta(s, cls) && SparesTotal(t, cls) == SparesTotal(s, cls)
    ensures DeltaReported(t) == DeltaReported(s) && TotalReported(t) == TotalReported(s)
  {
    hide FirstDelta, Named;
    assert forall j :: 0 <= j < Falling(s) ==>
      (!t.queue[j].ev.Overflow? && !(Evicts(t, cls) && j == FirstDelta(t.queue))
       <==> !s.queue[j].ev.Overflow? && !(Evicts(s, cls) && j == FirstDelta(s.queue)));
  }

  lemma PushAndShedReport(s: State, ev: Event, cls: EventClass)
    requires Shape(s) && Refines(s) && !ev.Overflow?
    ensures var t := Shed(Push(MakeRoom(s, cls), ev, cls));
      && (DeltaReported(t) <==> SparesDelta(s, cls) && (Evicts(s, cls) || DeltaReported(s)))
      && (TotalReported(t) <==> SparesTotal(s, cls) && (RealFalls(s, cls) || TotalReported(s)))
  {
    RoomReports(s, cls);
    FallingAfterRoom(s, cls);
    MakeRoomShape(s, cls);
    MakeRoomRefines(s, cls);
    var r := MakeRoom(s, cls);
    var p := Push(r, ev, cls);
    PushReports(r, ev, cls);
    PushRefines(r, ev, cls);
    PushShape(r, ev, cls);
    RemovedIsFalling(r, p);
    ShedReports(p);
    hide Shed, Refines, Ordered, MakeRoom, Named, HasReal, RealFalls, DeltaReported, TotalReported, CountsOk, Bounded;
  }

  // ---- whole runs -----------------------------------------------------

  lemma SameReports(s: State, t: State)
    requires Slots(t) == Slots(s) && t.droppedDelta == s.droppedDelta && t.droppedLifecycle == s.droppedLifecycle
    ensures Reported(t) <==> Reported(s)
  {
  }

  /** A cancellation leaves the drops reported: the markers naming them were handed out. */
  predicate CancelSpares(s: State) {
    && (s.droppedDelta > 0 ==> !Named(s.queue, Delta, s.droppedDelta))
    && (s.droppedLifecycle > 0 ==> !Named(s.queue, Lifecycle, s.droppedLifecycle))
  }

  lemma CancelReports(s: State)
    requires Refines(s) && !s.cancelled
    ensures Reported(Cancel(s)) <==> Reported(s) && CancelSpares(s)
  {
    assert Slots(Cancel(s)) == s.delivered;
    NamedConcat(s.delivered, s.queue, Delta, s.droppedDelta);
    NamedConcat(s.delivered, s.queue, Lifecycle, s.droppedLifecycle);
    NamedOnce(s.delivered, s.queue, Delta, s.droppedDelta);
    NamedOnce(s.delivered, s.queue, Lifecycle, s.droppedLifecycle);
  }

  predicate BatchSpares(s: State, evs: seq<Event>) {
    evs == [] || (BatchSpares(s, evs[..|evs| - 1]) && Spares(EnqueueAll(s, evs[..|evs| - 1]), Lifecycle))
  }

  predicate BatchReported(s: State, evs: seq<Event>) {
    evs == [] || (BatchReported(s, evs[..|evs| - 1]) && Reported(EnqueueAll(s, evs)))
  }

  lemma {:induction false} BatchReports(s: State, evs: seq<Event>)
    requires Busy(s) && Open(s) && Reported(s)
    requires forall i :: 0 <= i < |evs| ==> !evs[i].Overflow?
    ensures BatchReported(s, evs) <==> BatchSpares(s, evs)
    ensures BatchReported(s, evs) ==> Reported(EnqueueAll(s, evs))
  {
    hide Spares, Reported, Enqueue, Shape, Refines, TableOk, CallsOk;
    if evs != [] {
      var front := evs[..|evs| - 1];
      BatchReports(s, front);
      EnqueueAllBusy(s, front);
      if BatchReported(s, front) {
        StillReported(EnqueueAll(s, front), evs[|evs| - 1], Lifecycle);
      }
    }
  }

  lemma StillReported(s: State, ev: Event, cls: EventClass)
    requires Shape(s) && Refines(s) && !ev.Overflow? && Reported(s)
    ensures Reported(Enqueue(s, ev, cls)) <==> Spares(s, cls)
  {
    EnqueueReports(s, ev, cls);
    hide Enqueue, DeltaReported, TotalReported, SparesDelta, SparesTotal, RealFalls;
  }

  /** Does this operation leave every drop reported? Read off the state before it. */
  predicate OpSpares(s: State, op: Op) {
    match op
    case OpNotify(_, cls) => Open(s) ==> Spares(s, cls)
    case OpEndWith(evs) => Open(s) ==> BatchSpares(s, evs)
    case OpTransportLost => Open(s) ==> BatchSpares(s, LostTurns(s.turns))
    case OpReturn => !s.cancelled ==> CancelSpares(s)
    case OpNext => true
    case OpEnd => true
  }

  /** The drops are reported after the operation and between the enqueues of a batch. */
  predicate OpReported(s: State, op: Op) {
    && Reported(Apply(s, op))
    && (op.OpEndWith? && Open(s) ==> BatchReported(s, op.evs))
    && (op.OpTransportLost? && Open(s) ==> BatchReported(s, LostTurns(s.turns)))
  }

  lemma OpReports(s: State, op: Op)
    requires Inv(s) && Legal(op) && Reported(s)
    ensures OpReported(s, op) <==> OpSpares(s, op)
  {
    hide Spares, Reported, Enqueue, Shape, Refines, TableOk, CallsOk, Slots, Drain;
    match op
    case OpNotify(ev, cls) =>
      if Open(s) {
        EnqueueBusy(s, ev, cls);
        DrainSlots(Enqueue(s, ev, cls));
        StillReported(s, ev, cls);
      }
    case OpNext => NextSlots(s);
    case OpReturn => if !s.cancelled { CancelReports(s); }
    case OpEnd => EndSlots(s);
    case OpEndWith(evs) => if Open(s) { BatchEnd(s, evs); }
    case OpTransportLost => if Open(s) { BatchEnd(s, LostTurns(s.turns)); }
  }

  lemma DrainSlots(s: State)
    requires Busy(s) && Open(s)
    ensures Reported(Drain(s)) <==> Reported(s)
  {
    DrainInv(s);
    SameReports(s, Drain(s));
  }

  lemma NextSlots(s: State)
    requires Inv(s)
    ensures Reported(Next(s)) <==> Reported(s)
  {
    NextInv(s);
    SameReports(s, Next(s));
  }

  lemma EndSlots(s: State)
    ensures Reported(EndOfStream(s)) <==> Reported(s)
  {
    SameReports(s, EndOfStream(s));
  }

  lemma BatchEnd(s: State, evs: seq<Event>)
    requires Inv(s) && Open(s) && Reported(s)
    requires forall i :: 0 <= i < |evs| ==> !evs[i].Overflow?
    ensures BatchReported(s, evs) <==> BatchSpares(s, evs)
    ensures BatchReported(s, evs) ==> Reported(EndWithSynthetic(s, evs))
  {
    hide Reported, EnqueueAll, Drain, EndOfStream;
    BatchReports(s, evs);
    EnqueueAllBusy(s, evs);
    DrainSlots(EnqueueAll(s, evs));
    EndSlots(Drain(EnqueueAll(s, evs)));
  }

  predicate RunSpares(s: State, ops: seq<Op>) {
    ops == [] || (RunSpares(s, ops[..|ops| - 1]) && OpSpares(Run(s, ops[..|ops| - 1]), ops[|ops| - 1]))
  }

  predicate AlwaysReported(s: State, ops: seq<Op>) {
    if ops == [] then Reported(s)
    else AlwaysReported(s, ops[..|ops| - 1]) && OpReported(Run(s, ops[..|ops| - 1]), ops[|ops| - 1])
  }

  /** Every drop of a run is reported at every moment if and only if each operation
      spares the markers: no eviction's victim and no current marker falls to the
      hard cap without being renewed, and none is still queued at a cancellation. */
  lemma DropsReportedIff(softCap: nat, hardCap: nat, ops: seq<Op>)
    requires 1 <= softCap && 1 <= hardCap && AllLegal(ops)
    ensures AlwaysReported(Init(softCap, hardCap), ops) <==> RunSpares(Init(softCap, hardCap), ops)
  {
    InitInv(softCap, hardCap);
    RunReports(Init(softCap, hardCap), ops);
  }

  lemma {:induction false} RunReports(s: State, ops: seq<Op>)
    requires Inv(s) && Reported(s) && AllLegal(ops)
    ensures AlwaysReported(s, ops) <==> RunSpares(s, ops)
    ensures AlwaysReported(s, ops) ==> Reported(Run(s, ops))
  {
    hide Reported, OpSpares, Apply, Inv;
    if ops != [] {
      var front := ops[..|ops| - 1];
      RunReports(s, front);
      RunInv(s, front);
      if AlwaysReported(s, front) { OpReports(Run(s, front), ops[|ops| - 1]); }
    }
  }
}

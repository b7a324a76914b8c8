/** What every enqueue keeps: the shape of the queue and its relation to the
    log of accepted events. */
module NormalizerQueue {
  import opened Basics
  import opened NormalizerModel

  // ---- counting facts -------------------------------------------------

  lemma {:induction false} CountDeltaConcat(a: seq<Entry>, b: seq<Entry>)
    ensures CountDelta(a + b) == CountDelta(a) + CountDelta(b)
  {
    if b == [] {
      assert a + b == a;
    } else {
      assert (a + b)[..|a + b| - 1] == a + b[..|b| - 1];
      CountDeltaConcat(a, b[..|b| - 1]);
    }
  }

  lemma {:induction false} RealsConcat(a: seq<Entry>, b: seq<Entry>)
    ensures Reals(a + b) == Reals(a) + Reals(b)
  {
    if b == [] {
      assert a + b == a;
    } else {
      assert (a + b)[..|a + b| - 1] == a + b[..|b| - 1];
      RealsConcat(a, b[..|b| - 1]);
    }
  }

  lemma {:induction false} NoDeltaCount(q: seq<Entry>)
    requires forall i :: 0 <= i < |q| ==> q[i].cls.Lifecycle?
    ensures CountDelta(q) == 0
  {
    if q != [] { NoDeltaCount(q[..|q| - 1]); }
  }

  lemma SplitAt(q: seq<Entry>, i: nat, m: Entry)
    requires i < |q|
    ensures q == q[..i] + [q[i]] + q[i + 1..]
    ensures q[i := m] == q[..i] + [m] + q[i + 1..]
  {
  }

  lemma CountsOfReplace(q: seq<Entry>, i: nat, m: Entry)
    requires i < |q| && q[i].cls.Delta? && !q[i].ev.Overflow? && m.cls.Lifecycle? && m.ev.Overflow?
    ensures CountDelta(q[i := m]) == CountDelta(q) - 1
    ensures |Reals(q[i := m])| == |Reals(q)| - 1
  {
    SplitAt(q, i, m);
    CountDeltaConcat(q[..i] + [q[i]], q[i + 1..]);
    CountDeltaConcat(q[..i], [q[i]]);
    CountDeltaConcat(q[..i] + [m], q[i + 1..]);
    CountDeltaConcat(q[..i], [m]);
    RealsConcat(q[..i] + [q[i]], q[i + 1..]);
    RealsConcat(q[..i], [q[i]]);
    RealsConcat(q[..i] + [m], q[i + 1..]);
    RealsConcat(q[..i], [m]);
    assert CountDelta([m]) == 0 && CountDelta([q[i]]) == 1 by {
      assert [m][..0] == [] && [q[i]][..0] == [];
    }
    assert |Reals([m])| == 0 && |Reals([q[i]])| == 1 by {
      assert [m][..0] == [] && [q[i]][..0] == [];
    }
  }

  // ---- shape of the queue ---------------------------------------------

  predicate DeltaMarker(e: Entry) { e.ev.Overflow? && e.ev.class_.Delta? }

  predicate TotalMarker(e: Entry) { e.ev.Overflow? && e.ev.class_.Lifecycle? }

  /** Markers count as lifecycle entries, a lifecycle marker sits at the head
      only, and every delta marker comes before every delta. */
  predicate Ordered(q: seq<Entry>) {
    && (forall i :: 0 <= i < |q| && q[i].ev.Overflow? ==> q[i].cls.Lifecycle?)
    && (forall i :: 0 < i < |q| ==> !TotalMarker(q[i]))
    && (forall i, j :: 0 <= i < j < |q| && q[i].cls.Delta? ==> !DeltaMarker(q[j]))
  }

  predicate CountsOk(s: State) {
    1 <= s.softCap && 1 <= s.hardCap && s.deltaCount == CountDelta(s.queue) <= s.softCap
  }

  /** `slack` entries above the hard cap are possible only under a lifecycle marker. */
  predicate Bounded(s: State, slack: nat) {
    && |s.queue| <= s.hardCap + slack
    && (|s.queue| == s.hardCap + slack && s.queue != [] ==> TotalMarker(s.queue[0]))
  }

  predicate Shape(s: State) { CountsOk(s) && Ordered(s.queue) && Bounded(s, 1) }

  /** At the soft cap the victim scan always finds a delta. */
  lemma VictimExists(s: State)
    requires CountsOk(s) && s.deltaCount >= s.softCap
    ensures FirstDelta(s.queue) < |s.queue|
  {
    if FirstDelta(s.queue) == |s.queue| { NoDeltaCount(s.queue); }
  }

  lemma MakeRoomShape(s: State, cls: EventClass)
    requires Shape(s)
    ensures var t := MakeRoom(s, cls);
      Shape(t) && |t.queue| == |s.queue| && (cls.Delta? ==> t.deltaCount < t.softCap)
  {
    if cls.Delta? && s.deltaCount >= s.softCap {
      VictimExists(s);
      hide Reals, CountDelta;
      var i := FirstDelta(s.queue);
      CountsOfReplace(s.queue, i, Entry(Overflow(s.droppedDelta + 1, Delta), Lifecycle, s.queue[i].origin));
    }
  }

  lemma PushShape(s: State, ev: Event, cls: EventClass)
    requires Shape(s) && !ev.Overflow? && (cls.Delta? ==> s.deltaCount < s.softCap)
    ensures var t := Push(s, ev, cls); CountsOk(t) && Ordered(t.queue) && Bounded(t, 2)
  {
    var e := Entry(ev, cls, |s.accepted|);
    CountDeltaConcat(s.queue, [e]);
    assert [e][..0] == [];
  }

  lemma OrderedSuffix(q: seq<Entry>, k: nat, m: Entry)
    requires Ordered(q) && 1 <= k <= |q| && TotalMarker(m) && m.cls.Lifecycle?
    ensures Ordered(q[k..]) && Ordered([m] + q[k..])
    ensures forall i :: 0 <= i < |q[k..]| ==> !TotalMarker(q[k..][i])
  {
    var t := [m] + q[k..];
    assert forall i :: 0 <= i < |q[k..]| ==> q[k..][i] == q[i + k];
    assert forall i :: 0 < i < |t| ==> t[i] == q[i - 1 + k];
  }

  lemma CountSuffix(q: seq<Entry>, k: nat, m: Entry)
    requires k <= |q| && m.cls.Lifecycle?
    ensures CountDelta(q[k..]) == CountDelta([m] + q[k..]) == CountDelta(q) - CountDelta(q[..k])
  {
    assert q == q[..k] + q[k..];
    CountDeltaConcat(q[..k], q[k..]);
    CountDeltaConcat([m], q[k..]);
    assert [m][..0] == [];
  }

  lemma ShedShape(s: State)
    requires CountsOk(s) && Ordered(s.queue) && Bounded(s, 2)
    ensures Shape(Shed(s))
  {
    if |s.queue| > s.hardCap {
      var k := |s.queue| - s.hardCap;
      var m := Entry(Overflow(s.droppedLifecycle + |Reals(s.queue[..k])|, Lifecycle), Lifecycle, -1);
      CountSuffix(s.queue, k, m);
      OrderedSuffix(s.queue, k, m);
      hide Ordered, CountDelta, Reals;
    }
  }

  lemma EnqueueShape(s: State, ev: Event, cls: EventClass)
    requires Shape(s) && !ev.Overflow?
    ensures Shape(Enqueue(s, ev, cls))
  {
    var t := s.(turns := TrackTurn(s.turns, ev));
    MakeRoomShape(t, cls);
    PushShape(MakeRoom(t, cls), ev, cls);
    ShedShape(Push(MakeRoom(t, cls), ev, cls));
  }

  // ---- the queue against the log --------------------------------------

  /** Everything handed out or still queued, in order. */
  function Slots(s: State): seq<Entry> { s.delivered + s.queue }

  /** A slot holds the accepted event it stands for, or a delta marker if that
      event was a delta; a lifecycle marker stands for no single event. */
  predicate SlotOk(e: Entry, log: seq<Accepted>) {
    if e.origin == -1 then TotalMarker(e) && e.cls.Lifecycle?
    else
      && 0 <= e.origin < |log|
      && !TotalMarker(e)
      && !log[e.origin].ev.Overflow?
      && (Accepted(e.ev, e.cls) == log[e.origin]
          || (log[e.origin].cls.Delta? && DeltaMarker(e) && e.cls.Lifecycle?))
  }

  /** Of two slots in order: log positions rise, and so do the counts of
      markers of one class. */
  predicate PairOk(x: Entry, y: Entry) {
    && (0 <= x.origin && 0 <= y.origin ==> x.origin < y.origin)
    && (x.ev.Overflow? && y.ev.Overflow? && x.ev.class_ == y.ev.class_ ==>
        x.ev.droppedCount < y.ev.droppedCount)
  }

  predicate Chain(slots: seq<Entry>) {
    forall i, j :: 0 <= i < j < |slots| ==> PairOk(slots[i], slots[j])
  }

  predicate Cross(a: seq<Entry>, b: seq<Entry>) {
    forall i, j :: 0 <= i < |a| && 0 <= j < |b| ==> PairOk(a[i], b[j])
  }

  /** No marker counts more than its class has dropped so far. */
  predicate CountOk(e: Entry, droppedDelta: nat, droppedLifecycle: nat) {
    e.ev.Overflow? ==> e.ev.droppedCount <= if e.ev.class_.Delta? then droppedDelta else droppedLifecycle
  }

  predicate LogOk(slots: seq<Entry>, log: seq<Accepted>, dd: nat, dl: nat) {
    forall i :: 0 <= i < |slots| ==> SlotOk(slots[i], log) && CountOk(slots[i], dd, dl)
  }

  /** Until the hard cap fires, slot i stands for accepted event i. */
  predicate Aligned(slots: seq<Entry>, log: seq<Accepted>) {
    |slots| == |log| && forall i :: 0 <= i < |slots| ==> slots[i].origin == i
  }

  predicate Conserved(s: State) {
    |s.accepted| == |Reals(Slots(s))| + s.droppedDelta + s.droppedLifecycle
  }

  predicate Refines(s: State) {
    && LogOk(Slots(s), s.accepted, s.droppedDelta, s.droppedLifecycle)
    && Chain(Slots(s))
    && (!s.cancelled ==> Conserved(s))
    && (!s.cancelled && s.shed == 0 ==> Aligned(Slots(s), s.accepted))
  }

  lemma ChainSplit(a: seq<Entry>, b: seq<Entry>)
    requires Chain(a + b)
    ensures Chain(a) && Chain(b) && Cross(a, b)
  {
    var w := a + b;
    assert forall i :: 0 <= i < |a| ==> w[i] == a[i];
    assert forall i :: 0 <= i < |b| ==> w[|a| + i] == b[i];
    forall i, j | 0 <= i < |a| && 0 <= j < |b| ensures PairOk(a[i], b[j]) {
      assert PairOk(w[i], w[|a| + j]);
    }
    forall i, j | 0 <= i < j < |b| ensures PairOk(b[i], b[j]) {
      assert PairOk(w[|a| + i], w[|a| + j]);
    }
  }

  lemma ChainJoin(a: seq<Entry>, b: seq<Entry>)
    requires Chain(a) && Chain(b) && Cross(a, b)
    ensures Chain(a + b)
  {
    var w := a + b;
    forall i, j | 0 <= i < j < |w| ensures PairOk(w[i], w[j]) {
      if j < |a| {
        assert PairOk(a[i], a[j]);
      } else if i < |a| {
        assert PairOk(a[i], b[j - |a|]);
      } else {
        assert PairOk(b[i - |a|], b[j - |a|]);
      }
    }
  }

  /** One stretch of a chain gives way to a single entry. */
  lemma ChainReplace(a: seq<Entry>, mid: seq<Entry>, b: seq<Entry>, m: Entry)
    requires Chain(a + mid + b)
    requires Cross(a, [m]) && Cross([m], b)
    ensures Chain(a + [m] + b) && Chain(a + b)
  {
    ChainSplit(a + mid, b);
    ChainSplit(a, mid);
    assert Cross(a, b) by {
      forall i, j | 0 <= i < |a| && 0 <= j < |b| ensures PairOk(a[i], b[j]) {
        assert PairOk((a + mid)[i], b[j]);
      }
    }
    ChainJoin(a, b);
    ChainJoin(a, [m]);
    assert Cross(a + [m], b) by {
      forall i, j | 0 <= i < |a + [m]| && 0 <= j < |b| ensures PairOk((a + [m])[i], b[j]) {
        if i < |a| { assert PairOk(a[i], b[j]); } else { assert PairOk([m][0], b[j]); }
      }
    }
    ChainJoin(a + [m], b);
  }

  lemma AfterFirstDelta(q: seq<Entry>)
    requires Ordered(q) && FirstDelta(q) < |q|
    ensures var i, b := FirstDelta(q), q[FirstDelta(q) + 1..];
      q[i].cls.Delta? && !q[i].ev.Overflow? && forall j :: 0 <= j < |b| ==> !DeltaMarker(b[j])
  {
  }

  lemma SplitBehind(front: seq<Entry>, q: seq<Entry>, i: nat, m: Entry)
    requires i < |q|
    ensures front + q == front + q[..i] + [q[i]] + q[i + 1..]
    ensures front + q[i := m] == front + q[..i] + [m] + q[i + 1..]
  {
  }

  /** Evicting one delta. */
  lemma EvictRefines(s: State)
    requires Shape(s) && Refines(s) && FirstDelta(s.queue) < |s.queue|
    ensures Refines(Evict(s))
  {
    var i := FirstDelta(s.queue);
    var v := s.queue[i];
    var m := Entry(Overflow(s.droppedDelta + 1, Delta), Lifecycle, v.origin);
    var t := Evict(s);
    var a, b := s.delivered + s.queue[..i], s.queue[i + 1..];
    AfterFirstDelta(s.queue);
    SplitBehind(s.delivered, s.queue, i, m);
    hide Refines, Ordered, CountsOk, Bounded, FirstDelta;
    ReplaceRefines(s, t, a, v, b, m);
  }

  lemma ReplaceRefines(s: State, t: State, a: seq<Entry>, v: Entry, b: seq<Entry>, m: Entry)
    requires Refines(s) && Slots(s) == a + [v] + b && Slots(t) == a + [m] + b
    requires v.cls.Delta? && !v.ev.Overflow? && m == Entry(Overflow(s.droppedDelta + 1, Delta), Lifecycle, v.origin)
    requires forall j :: 0 <= j < |b| ==> !DeltaMarker(b[j])
    requires t.accepted == s.accepted && t.droppedDelta == s.droppedDelta + 1
    requires t.droppedLifecycle == s.droppedLifecycle && t.shed == s.shed && t.cancelled == s.cancelled
    ensures Refines(t)
  {
    var old_, new_ := Slots(s), Slots(t);
    assert old_[|a|] == v && new_ == old_[|a| := m];
    CountsOfReplace(old_, |a|, m);
    assert SlotOk(old_[|a|], s.accepted);
    forall i | 0 <= i < |new_|
      ensures SlotOk(new_[i], t.accepted) && CountOk(new_[i], t.droppedDelta, t.droppedLifecycle)
    {
      assert SlotOk(old_[i], s.accepted) && CountOk(old_[i], s.droppedDelta, s.droppedLifecycle);
    }
    assert Cross(a, [m]) by {
      forall i | 0 <= i < |a| ensures PairOk(a[i], m) {
        assert a[i] == old_[i] && PairOk(old_[i], old_[|a|]);
        assert CountOk(old_[i], s.droppedDelta, s.droppedLifecycle);
      }
    }
    assert Cross([m], b) by {
      forall j | 0 <= j < |b| ensures PairOk(m, b[j]) {
        assert b[j] == old_[|a| + 1 + j] && PairOk(old_[|a|], old_[|a| + 1 + j]);
      }
    }
    ChainReplace(a, [v], b, m);
  }

  lemma MakeRoomRefines(s: State, cls: EventClass)
    requires Shape(s) && Refines(s)
    ensures Refines(MakeRoom(s, cls))
  {
    if cls.Delta? && s.deltaCount >= s.softCap {
      VictimExists(s);
      EvictRefines(s);
    }
  }

  lemma PushRefines(s: State, ev: Event, cls: EventClass)
    requires Refines(s) && !ev.Overflow?
    ensures Refines(Push(s, ev, cls))
  {
    var t := Push(s, ev, cls);
    var e := Entry(ev, cls, |s.accepted|);
    var old_ := Slots(s);
    assert Slots(t) == old_ + [e];
    RealsConcat(old_, [e]);
    assert [e][..0] == [];
    assert |Reals([e])| == 1;
    forall i | 0 <= i < |old_ + [e]|
      ensures SlotOk((old_ + [e])[i], t.accepted) && CountOk((old_ + [e])[i], t.droppedDelta, t.droppedLifecycle)
    {
      if i < |old_| {
        assert SlotOk(old_[i], s.accepted) && CountOk(old_[i], s.droppedDelta, s.droppedLifecycle);
      }
    }
    assert Cross(old_, [e]) by {
      forall i | 0 <= i < |old_| ensures PairOk(old_[i], e) {
        assert SlotOk(old_[i], s.accepted);
      }
    }
    ChainJoin(old_, [e]);
  }

  lemma CutLog(a: seq<Entry>, mid: seq<Entry>, b: seq<Entry>, m: Entry, log: seq<Accepted>, dd: nat, dl: nat, dl': nat)
    requires LogOk(a + mid + b, log, dd, dl) && dl <= dl'
    requires m == Entry(Overflow(dl', Lifecycle), Lifecycle, -1)
    ensures LogOk(a + b, log, dd, dl') && LogOk(a + [m] + b, log, dd, dl')
  {
    var w := a + mid + b;
    forall i | 0 <= i < |a| ensures SlotOk(a[i], log) && CountOk(a[i], dd, dl') {
      assert SlotOk(w[i], log) && CountOk(w[i], dd, dl);
    }
    forall j | 0 <= j < |b| ensures SlotOk(b[j], log) && CountOk(b[j], dd, dl') {
      assert b[j] == w[|a| + |mid| + j];
      assert SlotOk(w[|a| + |mid| + j], log) && CountOk(w[|a| + |mid| + j], dd, dl);
    }
  }

  lemma CutChain(a: seq<Entry>, lost: seq<Entry>, kept: seq<Entry>, m: Entry, log: seq<Accepted>, dd: nat, dl: nat)
    requires Chain(a + lost + kept) && LogOk(a + lost + kept, log, dd, dl)
    requires forall j :: 0 <= j < |kept| ==> !TotalMarker(kept[j])
    requires TotalMarker(m) && m.origin == -1
    ensures Chain(a + kept)
    ensures m.ev.droppedCount > dl ==> Chain(a + [m] + kept)
  {
    var w := a + lost + kept;
    var m' := m.(ev := Overflow(dl + 1 + m.ev.droppedCount, Lifecycle));
    var c := if m.ev.droppedCount > dl then m else m';
    forall i | 0 <= i < |a| ensures PairOk(a[i], c) {
      assert a[i] == w[i];
      assert CountOk(w[i], dd, dl);
    }
    assert Cross(a, [c]);
    assert Cross([c], kept);
    ChainReplace(a, lost, kept, c);
  }

  /** The stretch `lost` leaves the slots; `m` takes its place if it held a real event. */
  lemma CutRefines(s: State, t: State, a: seq<Entry>, lost: seq<Entry>, kept: seq<Entry>, m: Entry)
    requires Refines(s) && Slots(s) == a + lost + kept
    requires forall j :: 0 <= j < |kept| ==> !TotalMarker(kept[j])
    requires t.droppedLifecycle == s.droppedLifecycle + |Reals(lost)|
    requires t.droppedDelta == s.droppedDelta && t.accepted == s.accepted && t.cancelled == s.cancelled
    requires t.shed > 0
    requires m == Entry(Overflow(t.droppedLifecycle, Lifecycle), Lifecycle, -1)
    requires Slots(t) == if Reals(lost) == [] then a + kept else a + [m] + kept
    ensures Refines(t)
  {
    CutLog(a, lost, kept, m, s.accepted, s.droppedDelta, s.droppedLifecycle, t.droppedLifecycle);
    CutReals(a, lost, kept, m);
    CutChain(a, lost, kept, m, s.accepted, s.droppedDelta, s.droppedLifecycle);
  }

  /** A round of the hard cap in terms of the slots: `lost` goes, and `m` comes if it held a real event. */
  lemma ShedSlots(s: State, k: nat, m: Entry)
    requires |s.queue| > s.hardCap && k == |s.queue| - s.hardCap
    requires m == Entry(Overflow(s.droppedLifecycle + |Reals(s.queue[..k])|, Lifecycle), Lifecycle, -1)
    ensures var a, lost, kept, t := s.delivered, s.queue[..k], s.queue[k..], Shed(s);
      && Slots(s) == a + lost + kept
      && Slots(t) == (if Reals(lost) == [] then a + kept else a + [m] + kept)
      && t.droppedDelta == s.droppedDelta && t.droppedLifecycle == s.droppedLifecycle + |Reals(lost)|
      && t.accepted == s.accepted && t.cancelled == s.cancelled && t.shed > 0
  {
    assert s.queue == s.queue[..k] + s.queue[k..];
    assert s.delivered + ([m] + s.queue[k..]) == s.delivered + [m] + s.queue[k..];
  }

  lemma ShedRefines(s: State)
    requires Ordered(s.queue) && Refines(s)
    ensures Refines(Shed(s))
  {
    if |s.queue| > s.hardCap {
      var k := |s.queue| - s.hardCap;
      var m := Entry(Overflow(s.droppedLifecycle + |Reals(s.queue[..k])|, Lifecycle), Lifecycle, -1);
      OrderedSuffix(s.queue, k, m);
      ShedSlots(s, k, m);
      hide Shed, Slots, Refines, Ordered, Reals;
      CutRefines(s, Shed(s), s.delivered, s.queue[..k], s.queue[k..], m);
    }
  }

  lemma RealsOfMarker(m: Entry)
    requires m.ev.Overflow?
    ensures Reals([m]) == []
  {
    assert [m][..0] == [];
  }

  lemma CutReals(a: seq<Entry>, lost: seq<Entry>, kept: seq<Entry>, m: Entry)
    requires m.ev.Overflow?
    ensures |Reals(a + lost + kept)| == |Reals(a + kept)| + |Reals(lost)|
    ensures Reals(a + [m] + kept) == Reals(a + kept)
  {
    RealsConcat(a + lost, kept);
    RealsConcat(a, lost);
    RealsConcat(a, kept);
    RealsConcat(a + [m], kept);
    RealsConcat(a, [m]);
    RealsOfMarker(m);
    assert Reals(a) + [] == Reals(a);
  }

  lemma EnqueueRefines(s: State, ev: Event, cls: EventClass)
    requires Shape(s) && Refines(s) && !ev.Overflow?
    ensures Refines(Enqueue(s, ev, cls))
  {
    var t := s.(turns := TrackTurn(s.turns, ev));
    MakeRoomShape(t, cls);
    MakeRoomRefines(t, cls);
    PushRefines(MakeRoom(t, cls), ev, cls);
    PushShape(MakeRoom(t, cls), ev, cls);
    ShedRefines(Push(MakeRoom(t, cls), ev, cls));
  }
}

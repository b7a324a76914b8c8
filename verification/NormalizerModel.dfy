/** The event normalizer as a state and one function per operation.

    The state holds what the TypeScript object holds, plus a history that no
    operation reads: the log of accepted events, the events handed to the
    consumer, the settled `next()` calls, and for every queue slot the log
    position it stands for (`origin`, -1 for a hard-cap marker). */
module NormalizerModel {
  import opened Basics
  import opened OrderedMap

  datatype EventClass = Lifecycle | Delta

  datatype Raw = Wire(payload: nat) | Synthetic

  /** The arms of the rich event that the normalizer tells apart; `Other`
      stands for the remaining ones. */
  datatype Event =
    | TurnStarted(threadId: string, turnId: string, raw: Raw)
    | TurnCompleted(threadId: string, turnId: string, raw: Raw)
    | TurnFailed(threadId: string, turnId: string, transportLost: bool, raw: Raw)
    | TurnInterrupted(threadId: string, turnId: string, raw: Raw)
    | Overflow(droppedCount: nat, class_: EventClass)
    | Other(payload: nat)

  datatype Entry = Entry(ev: Event, cls: EventClass, origin: int)

  datatype Accepted = Accepted(ev: Event, cls: EventClass)

  datatype Turn = Turn(threadId: string, turnId: string)

  datatype IterResult = Yield(ev: Event) | Done

  /** A `next()` call, identified by its position among all calls, and its result. */
  datatype Settled = Settled(call: nat, result: IterResult)

  datatype State = State(
    softCap: nat,
    hardCap: nat,
    queue: seq<Entry>,
    waiters: seq<nat>,
    cancelled: bool,
    ended: bool,
    turns: seq<(string, Turn)>,
    deltaCount: int,
    droppedDelta: nat,
    droppedLifecycle: nat,
    calls: nat,
    settled: seq<Settled>,
    // history
    accepted: seq<Accepted>,
    delivered: seq<Entry>,
    shed: nat)

  // ---- caps -----------------------------------------------------------

  const MAX_SAFE_INTEGER := 9007199254740991
  const DEFAULT_DELTA_SOFT_CAP := 4096
  const DEFAULT_TOTAL_HARD_CAP := 16384

  function SanitizeCap(v: NumberOption, fallback: nat): (r: nat)
    requires 1 <= fallback <= MAX_SAFE_INTEGER
    ensures 1 <= r <= MAX_SAFE_INTEGER
    ensures v.Whole? && 1 <= v.n <= MAX_SAFE_INTEGER ==> r == v.n
    ensures r == fallback || v == Whole(r)
  {
    match v
    case Absent => fallback
    case NotWhole => fallback
    case Whole(n) => if n < 1 then fallback else if n > MAX_SAFE_INTEGER then fallback else n
  }

  function Init(softCap: nat, hardCap: nat): State {
    State(softCap, hardCap, [], [], false, false, [], 0, 0, 0, 0, [], [], [], 0)
  }

  // ---- counting -------------------------------------------------------

  function CountDelta(q: seq<Entry>): nat {
    if q == [] then 0 else CountDelta(q[..|q| - 1]) + if q[|q| - 1].cls.Delta? then 1 else 0
  }

  /** The entries that are not overflow markers. */
  function Reals(q: seq<Entry>): seq<Entry> {
    if q == [] then []
    else Reals(q[..|q| - 1]) + if q[|q| - 1].ev.Overflow? then [] else [q[|q| - 1]]
  }

  /** Position of the oldest delta entry, or the length when there is none. */
  function FirstDelta(q: seq<Entry>): (i: nat)
    ensures i <= |q|
    ensures forall k :: 0 <= k < i ==> q[k].cls.Lifecycle?
    ensures i < |q| ==> q[i].cls.Delta?
  {
    if q == [] then 0 else if q[0].cls.Delta? then 0 else 1 + FirstDelta(q[1..])
  }

  // ---- the table of open turns ----------------------------------------

  function TurnKey(threadId: string, turnId: string): string {
    threadId + ['\0'] + turnId
  }

  function KeyOf(t: Turn): string { TurnKey(t.threadId, t.turnId) }

  predicate Starts(ev: Event, key: string) {
    ev.TurnStarted? && TurnKey(ev.threadId, ev.turnId) == key
  }

  predicate Ends(ev: Event, key: string) {
    (ev.TurnCompleted? || ev.TurnFailed? || ev.TurnInterrupted?) && TurnKey(ev.threadId, ev.turnId) == key
  }

  function TrackTurn(turns: seq<(string, Turn)>, ev: Event): seq<(string, Turn)> {
    match ev
    case TurnStarted(t, u, _) => Put(turns, TurnKey(t, u), Turn(t, u))
    case TurnCompleted(t, u, _) => Drop(turns, TurnKey(t, u))
    case TurnFailed(t, u, _, _) => Drop(turns, TurnKey(t, u))
    case TurnInterrupted(t, u, _) => Drop(turns, TurnKey(t, u))
    case Overflow(_, _) => turns
    case Other(_) => turns
  }

  // ---- enqueue --------------------------------------------------------

  /** Walk-and-drop: the oldest delta becomes an overflow marker in place. */
  function Evict(s: State): State {
    var i := FirstDelta(s.queue);
    if i == |s.queue| then s
    else
      var marker := Entry(Overflow(s.droppedDelta + 1, Delta), Lifecycle, s.queue[i].origin);
      s.(queue := s.queue[i := marker], droppedDelta := s.droppedDelta + 1, deltaCount := s.deltaCount - 1)
  }

  function Push(s: State, ev: Event, cls: EventClass): State {
    s.(queue := s.queue + [Entry(ev, cls, |s.accepted|)],
       accepted := s.accepted + [Accepted(ev, cls)],
       deltaCount := s.deltaCount + if cls.Delta? then 1 else 0)
  }

  /** Hard cap: the oldest entries go, and one marker reports the real ones among them. */
  function Shed(s: State): State {
    if |s.queue| <= s.hardCap then s
    else
      var k := |s.queue| - s.hardCap;
      var lost := s.queue[..k];
      var count := |Reals(lost)|;
      var t := s.(queue := s.queue[k..], deltaCount := s.deltaCount - CountDelta(lost), shed := s.shed + k);
      if count == 0 then t
      else
        var marker := Entry(Overflow(s.droppedLifecycle + count, Lifecycle), Lifecycle, -1);
        t.(queue := [marker] + t.queue, droppedLifecycle := s.droppedLifecycle + count)
  }

  function MakeRoom(s: State, cls: EventClass): State {
    if cls.Delta? && s.deltaCount >= s.softCap then Evict(s) else s
  }

  function Enqueue(s: State, ev: Event, cls: EventClass): State {
    Shed(Push(MakeRoom(s.(turns := TrackTurn(s.turns, ev)), cls), ev, cls))
  }

  function EnqueueAll(s: State, evs: seq<Event>): State {
    if evs == [] then s else Enqueue(EnqueueAll(s, evs[..|evs| - 1]), evs[|evs| - 1], Lifecycle)
  }

  // ---- delivery -------------------------------------------------------

  function Handed(waiters: seq<nat>, q: seq<Entry>): seq<Settled>
    requires |waiters| == |q|
  {
    seq(|q|, i requires 0 <= i < |q| => Settled(waiters[i], Yield(q[i].ev)))
  }

  function Finished(waiters: seq<nat>): seq<Settled> {
    seq(|waiters|, i requires 0 <= i < |waiters| => Settled(waiters[i], Done))
  }

  function Drain(s: State): State {
    var n := Min(|s.queue|, |s.waiters|);
    s.(queue := s.queue[n..],
       waiters := s.waiters[n..],
       deltaCount := s.deltaCount - CountDelta(s.queue[..n]),
       settled := s.settled + Handed(s.waiters[..n], s.queue[..n]),
       delivered := s.delivered + s.queue[..n])
  }

  function Next(s: State): State {
    var c := s.(calls := s.calls + 1);
    if |s.queue| > 0 then
      c.(queue := s.queue[1..],
         deltaCount := s.deltaCount - (if s.queue[0].cls.Delta? then 1 else 0),
         settled := s.settled + [Settled(s.calls, Yield(s.queue[0].ev))],
         delivered := s.delivered + [s.queue[0]])
    else if s.cancelled || s.ended then
      c.(settled := s.settled + [Settled(s.calls, Done)])
    else
      c.(waiters := s.waiters + [s.calls])
  }

  // ---- the public operations ------------------------------------------

  predicate Open(s: State) { !s.cancelled && !s.ended }

  function Notify(s: State, ev: Event, cls: EventClass): State {
    if !Open(s) then s else Drain(Enqueue(s, ev, cls))
  }

  function EndOfStream(s: State): State {
    if !Open(s) then s
    else if s.queue == [] then
      s.(ended := true, waiters := [], settled := s.settled + Finished(s.waiters))
    else s.(ended := true)
  }

  function EndWithSynthetic(s: State, evs: seq<Event>): State {
    if !Open(s) then s else EndOfStream(Drain(EnqueueAll(s, evs)))
  }

  function Lost(t: Turn): Event { TurnFailed(t.threadId, t.turnId, true, Synthetic) }

  function LostTurns(turns: seq<(string, Turn)>): seq<Event> {
    seq(|turns|, i requires 0 <= i < |turns| => Lost(turns[i].1))
  }

  function EndTransportLost(s: State): State {
    if !Open(s) then s else EndWithSynthetic(s, LostTurns(s.turns))
  }

  function Cancel(s: State): State {
    if s.cancelled then s
    else s.(cancelled := true, queue := [], deltaCount := 0, waiters := [],
            settled := s.settled + Finished(s.waiters))
  }

  datatype Op =
    | OpNotify(ev: Event, cls: EventClass)
    | OpNext
    | OpReturn
    | OpEnd
    | OpEndWith(evs: seq<Event>)
    | OpTransportLost

  function Apply(s: State, op: Op): State {
    match op
    case OpNotify(ev, cls) => Notify(s, ev, cls)
    case OpNext => Next(s)
    case OpReturn => Cancel(s)
    case OpEnd => EndOfStream(s)
    case OpEndWith(evs) => EndWithSynthetic(s, evs)
    case OpTransportLost => EndTransportLost(s)
  }

  /** Callers hand in events, never overflow markers: those are the normalizer's own. */
  predicate Legal(op: Op) {
    match op
    case OpNotify(ev, _) => !ev.Overflow?
    case OpEndWith(evs) => forall i :: 0 <= i < |evs| ==> !evs[i].Overflow?
    case _ => true
  }

  predicate AllLegal(ops: seq<Op>) { forall i :: 0 <= i < |ops| ==> Legal(ops[i]) }

  function Run(s: State, ops: seq<Op>): State {
    if ops == [] then s else Apply(Run(s, ops[..|ops| - 1]), ops[|ops| - 1])
  }
}

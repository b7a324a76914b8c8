/** The supervisor: a transport close fails what the broker still holds, closes the
    runtime's event stream, and schedules a respawn or gives up. The recovery state
    comes first, then the system of recovery, broker and stream together. */
module SupervisorModel {
  import opened Basics
  import B = BrokerModel
  import BI = BrokerInvariant
  import BR = BrokerRuns
  import BE = BrokerEffects
  import N = NormalizerModel
  import NR = NormalizerRuns
  import OrderedMap

  const MAX_CONSECUTIVE_FAILURES := 5

  function Shift(k: nat): nat { if k == 0 then 1 else 2 * Shift(k - 1) }

  /** 500 ms doubled per failure, the exponent capped at four. */
  function Backoff(failures: nat): nat
    requires failures >= 1
  {
    500 * Shift(Min(failures - 1, 4))
  }

  /** The recovery state, and the delays scheduled so far. `timer` is the handle the
      supervisor holds, `live` the number of scheduled respawns: a second close can
      overwrite the handle of a timer that still runs. */
  datatype Recovery = Recovery(halted: bool, closing: bool, failures: nat, timer: Option<nat>, live: nat, delays: seq<nat>)

  datatype Event = Closed | TimerFired | Spawned | SpawnFailed | Stopped

  predicate Handles(r: Recovery) { !r.halted && !r.closing }

  /** One more failure: halt, or schedule a respawn. */
  function CountFailure(r: Recovery): Recovery {
    var f := r.failures + 1;
    if f >= MAX_CONSECUTIVE_FAILURES then r.(failures := f, halted := true)
    else r.(failures := f, timer := Some(Backoff(f)), live := r.live + 1, delays := r.delays + [Backoff(f)])
  }

  function OnClose(r: Recovery): Recovery { if Handles(r) then CountFailure(r.(closing := true)) else r }

  /** A halt cancels the timer whose handle is held. */
  function Halt(r: Recovery): Recovery {
    r.(halted := true, timer := None, live := if r.timer.Some? && r.live > 0 then r.live - 1 else r.live)
  }

  function OnEvent(r: Recovery, e: Event): Recovery {
    match e
    case Closed => OnClose(r)
    case TimerFired =>
      if r.live == 0 then r
      else if r.halted then r.(timer := None, live := r.live - 1)
      else r.(timer := None, live := r.live - 1, closing := false)
    case Spawned => r.(closing := false, failures := 0)
    case SpawnFailed => Halt(r)
    case Stopped => Halt(r)
  }

  function Recover(r: Recovery, events: seq<Event>): Recovery {
    if events == [] then r else OnEvent(Recover(r, events[..|events| - 1]), events[|events| - 1])
  }

  const Fresh := Recovery(false, false, 0, None, 0, [])

  /** A halt, once reached, stays. */
  lemma {:induction false} HaltedForGood(r: Recovery, events: seq<Event>)
    requires r.halted
    ensures Recover(r, events).halted && Recover(r, events).delays == r.delays
  {
    if events != [] { HaltedForGood(r, events[..|events| - 1]); }
  }

  predicate BoundsOk(r: Recovery) {
    && r.failures <= MAX_CONSECUTIVE_FAILURES
    && (r.failures == MAX_CONSECUTIVE_FAILURES ==> r.halted)
    && (r.timer.Some? ==> r.live > 0)
    && (r.closing && !r.halted ==> r.live > 0)
    && (forall i :: 0 <= i < |r.delays| ==> r.delays[i] in {500, 1000, 2000, 4000})
  }

  lemma BoundsStep(r: Recovery, e: Event)
    requires BoundsOk(r)
    ensures BoundsOk(OnEvent(r, e))
  {
    if r.failures <= 3 { ShiftValues(r.failures); }
  }

  /** In every run the delays are 500, 1000, 2000 or 4000 ms: the fifth close in a
      row halts instead of waiting 8000. A close being handled on a live
      supervisor always has a respawn scheduled. */
  lemma {:induction false} RecoveryBounds(events: seq<Event>)
    ensures BoundsOk(Recover(Fresh, events))
  {
    if events != [] {
      RecoveryBounds(events[..|events| - 1]);
      BoundsStep(Recover(Fresh, events[..|events| - 1]), events[|events| - 1]);
    }
  }

  lemma ShiftValues(k: nat)
    requires k <= 3
    ensures Shift(k) == if k == 0 then 1 else if k == 1 then 2 else if k == 2 then 4 else 8
  {
    assert Shift(1) == 2 && Shift(2) == 4 && Shift(3) == 8;
  }

  /** `n` closes in a row, each after its respawn timer fired and none followed by a successful spawn. */
  function CloseRounds(n: nat): seq<Event> { if n == 0 then [] else CloseRounds(n - 1) + [Closed, TimerFired] }

  function Delays(n: nat): seq<nat> { if n == 0 then [] else Delays(n - 1) + [500 * Shift(n - 1)] }

  lemma OneRound(r: Recovery, front: seq<Event>)
    ensures Recover(r, front + [Closed, TimerFired]) == OnEvent(OnClose(Recover(r, front)), TimerFired)
  {
    var all := front + [Closed, TimerFired];
    assert all[..|all| - 1] == front + [Closed] && (front + [Closed])[..|front|] == front;
    assert Recover(r, front + [Closed]) == OnClose(Recover(r, front));
  }

  /** Ready for closes, with no failure counted. */
  predicate Ready(r: Recovery) { !r.halted && !r.closing && r.failures == 0 }

  lemma {:induction false} CloseRoundsState(r: Recovery, n: nat)
    requires n <= 4 && Ready(r)
    ensures Recover(r, CloseRounds(n))
         == r.(failures := n, timer := if n == 0 then r.timer else None, delays := r.delays + Delays(n))
  {
    if n == 0 {
      assert r.delays + [] == r.delays;
    } else {
      CloseRoundsState(r, n - 1);
      OneRound(r, CloseRounds(n - 1));
      assert r.delays + Delays(n) == r.delays + Delays(n - 1) + [500 * Shift(n - 1)];
    }
  }

  /** From `r` on, four closes in a row wait 500, 1000, 2000 and 4000 ms and the fifth halts. */
  predicate FiveLives(r: Recovery) {
    var s, t := Recover(r, CloseRounds(4)), Recover(r, CloseRounds(4) + [Closed]);
    && !s.halted && s.delays == r.delays + [500, 1000, 2000, 4000]
    && t.halted && t.delays == s.delays
  }

  lemma ReadyLives(r: Recovery)
    requires Ready(r)
    ensures FiveLives(r)
  {
    CloseRoundsState(r, 4);
    ShiftValues(0);
    ShiftValues(1);
    ShiftValues(2);
    ShiftValues(3);
    assert Delays(4) == [500, 1000, 2000, 4000];
    assert (CloseRounds(4) + [Closed])[..|CloseRounds(4)|] == CloseRounds(4);
  }

  /** The first four closes in a row wait 500, 1000, 2000 and 4000 ms, the fifth halts. */
  lemma FifthCloseHalts()
    ensures FiveLives(Fresh)
  {
    ReadyLives(Fresh);
  }

  /** A completed spawn forgives all earlier failures: in every run, unless halted, it
      takes five closes in a row again. */
  lemma SpawnForgives(events: seq<Event>)
    requires !Recover(Fresh, events).halted
    ensures FiveLives(Recover(Fresh, events + [Spawned]))
  {
    assert (events + [Spawned])[..|events|] == events;
    ReadyLives(Recover(Fresh, events + [Spawned]));
  }

  /** What a handled close leaves behind: the broker owes no answer, and the
      stream has no open turn if and only if it was still open or had none. */
  lemma CloseLeavesNothing(b: B.State, n: N.State, now: int)
    requires BI.Inv(b) && NR.Inv(n)
    ensures var c := B.FailAllLost(b, now);
      && BI.NonePending(c.entries, c.pending)
      && (forall h :: 0 <= h < |c.entries| ==> c.entries[h].settled)
    ensures var m := N.EndTransportLost(n);
      && !N.Open(m)
      && ((forall key :: !NR.OpenTurn(m.accepted, key)) <==> N.Open(n) || n.turns == [])
  {
    BI.FailAllKeeps(b, now);
    BR.NothingOwed(B.FailAllLost(b, now));
    if N.Open(n) {
      NR.TransportLossCloses(n, []);
    } else {
      NoTurnsIff(n);
    }
  }

  lemma NoTurnsIff(n: N.State)
    requires NR.TableOk(n.turns, n.accepted)
    ensures (forall key :: !NR.OpenTurn(n.accepted, key)) <==> n.turns == []
  {
    if n.turns != [] {
      assert OrderedMap.Has(n.turns, n.turns[0].0);
    } else {
      forall key ensures !NR.OpenTurn(n.accepted, key) { assert !OrderedMap.Has(n.turns, key); }
    }
  }

  // ---- recovery, broker and stream together ---------------------------

  /** `started` tells that a transport was built, so that closes are listened to;
      `spawning` counts the spawns whose handshake is still awaited. */
  datatype System = System(
    recovery: Recovery,
    broker: B.State,
    stream: Option<N.State>,
    started: bool,
    spawning: nat)

  datatype Step =
    | Close(now: int)
    | StartUp(client: nat)
    | TimerFires(client: nat)
    | SpawnDone(softCap: nat, hardCap: nat)
    | SpawnFails
    | StopAll
    | OnBroker(act: B.Op)
    | OnStream(call: N.Op)

  function Recovering(s: System, e: Event): System { s.(recovery := OnEvent(s.recovery, e)) }

  function CloseSystem(s: System, now: int): System {
    if !s.started || !Handles(s.recovery) then s
    else
      s.(recovery := OnClose(s.recovery),
         broker := B.FailAllLost(s.broker, now),
         stream := if s.stream.Some? then Some(N.EndTransportLost(s.stream.value)) else None)
  }

  /** A failed spawn halts and forgets the runtime. */
  function FailSpawn(s: System): System { Recovering(s, SpawnFailed).(stream := None) }

  /** The part of a spawn before its first await: the broker moves to the new client. */
  function BeginSpawn(s: System, client: nat): System {
    var (b, ok) := B.Reattach(s.broker, client);
    if ok then s.(broker := b, started := true, spawning := s.spawning + 1) else FailSpawn(s)
  }

  /** Refused on a halted or started supervisor, and without an attached broker. */
  function Start(s: System, client: nat): System {
    if s.recovery.halted || s.started || !s.broker.attached then s else BeginSpawn(s, client)
  }

  function FireTimer(s: System, client: nat): System {
    if s.recovery.live == 0 then s
    else
      var t := Recovering(s, TimerFired);
      if t.recovery.halted then t
      else if !t.broker.attached then t.(recovery := t.recovery.(halted := true))
      else BeginSpawn(t, client)
  }

  /** The awaited rest of a spawn came through: a new runtime with an empty stream. */
  function CompleteSpawn(s: System, softCap: nat, hardCap: nat): System {
    if s.spawning == 0 then s
    else Recovering(s, Spawned).(stream := Some(N.Init(softCap, hardCap)), spawning := s.spawning - 1)
  }

  function Take(s: System, step: Step): System {
    match step
    case Close(now) => CloseSystem(s, now)
    case StartUp(client) => Start(s, client)
    case TimerFires(client) => FireTimer(s, client)
    case SpawnDone(softCap, hardCap) => CompleteSpawn(s, softCap, hardCap)
    case SpawnFails => if s.spawning == 0 then s else FailSpawn(s).(spawning := s.spawning - 1)
    case StopAll => Recovering(s, Stopped)
    case OnBroker(op) => s.(broker := B.Apply(s.broker, op))
    case OnStream(op) => if s.stream.None? then s else s.(stream := Some(N.Apply(s.stream.value, op)))
  }

  /** Only the supervisor moves the broker to another client and ends the stream;
      the stream's consumer may cancel it. */
  predicate LegalStep(s: System, step: Step) {
    match step
    case SpawnDone(softCap, hardCap) => 1 <= softCap && 1 <= hardCap
    case OnBroker(op) => B.Legal(s.broker, op) && !op.OpReattach?
    case OnStream(op) => N.Legal(op) && (op.OpNotify? || op.OpNext? || op.OpReturn?)
    case _ => true
  }

  function TakeAll(s: System, steps: seq<Step>): System {
    if steps == [] then s else Take(TakeAll(s, steps[..|steps| - 1]), steps[|steps| - 1])
  }

  predicate LegalSteps(s: System, steps: seq<Step>) {
    steps == [] ||
    (LegalSteps(s, steps[..|steps| - 1]) && LegalStep(TakeAll(s, steps[..|steps| - 1]), steps[|steps| - 1]))
  }

  function NewSystem(broker: B.State): System { System(Fresh, broker, None, false, 0) }

  // ---- what every run of the system keeps -----------------------------

  ghost predicate StreamOk(stream: Option<N.State>) {
    stream.Some? ==> NR.Inv(stream.value) && (stream.value.ended ==> stream.value.turns == [])
  }

  predicate Shut(stream: Option<N.State>) { stream.Some? ==> !N.Open(stream.value) }

  ghost predicate SystemInv(s: System) {
    && BI.Inv(s.broker) && StreamOk(s.stream) && BoundsOk(s.recovery)
    && (s.recovery.closing ==> s.started && s.broker.lostFired && Shut(s.stream))
  }

  lemma CloseStream(stream: Option<N.State>)
    requires StreamOk(stream)
    ensures var t := if stream.Some? then Some(N.EndTransportLost(stream.value)) else None;
      StreamOk(t) && Shut(t)
  {
    if stream.Some? && N.Open(stream.value) {
      NR.TransportLossCloses(stream.value, []);
      NR.LossReduces(stream.value);
    }
  }

  lemma StreamStep(n: N.State, op: N.Op)
    requires NR.Inv(n) && (n.ended ==> n.turns == []) && N.Legal(op) && (op.OpNotify? || op.OpNext? || op.OpReturn?)
    ensures var m := N.Apply(n, op); StreamOk(Some(m)) && (!N.Open(n) ==> !N.Open(m))
  {
    NR.ApplyInv(n, op);
    hide NR.Inv;
    match op
    case OpNotify(ev, cls) => if N.Open(n) { NR.EnqueueFrame(n, ev, cls); }
    case OpNext =>
    case OpReturn =>
  }

  /** Transport loss, once fired, stays fired until the broker is moved. */
  lemma LossStays(b: B.State, op: B.Op)
    requires !op.OpReattach? && b.lostFired
    ensures B.Apply(b, op).lostFired
  {
    hide B.MapDecision, B.DefaultReject, B.ActorAllowed, B.RecordId, B.ExpireFirst, B.SystemClose;
    match op
    case OpExpire(now, maxAge, later) => BR.ExpireFirstMaps(b, |b.pending|, now - maxAge, later);
    case OpFailOne(a, now) => if a in b.byId { BR.LoseStepMaps(b, b.byId[a], now); }
    case OpResolve(c, now, later) => BR.ResolveMaps(b, c, now, later);
    case _ =>
  }

  lemma SpawnKeeps(s: System, client: nat)
    requires SystemInv(s) && !s.recovery.closing
    ensures SystemInv(BeginSpawn(s, client))
  {
    BR.ApplyKeeps(s.broker, B.OpReattach(client));
    BoundsStep(s.recovery, SpawnFailed);
    hide BI.Inv, StreamOk, BoundsOk;
    assert StreamOk(None) by { NoStream(); }
  }

  lemma NoStream()
    ensures StreamOk(None)
  {
  }

  lemma NewStream(softCap: nat, hardCap: nat)
    requires 1 <= softCap && 1 <= hardCap
    ensures StreamOk(Some(N.Init(softCap, hardCap)))
  {
    NR.InitInv(softCap, hardCap);
  }

  lemma TakeKeeps(s: System, step: Step)
    requires SystemInv(s) && LegalStep(s, step)
    ensures SystemInv(Take(s, step))
  {
    match step
    case Close(now) => CloseKeeps(s, now);
    case StartUp(client) =>
      if !s.recovery.halted && !s.started && s.broker.attached { SpawnKeeps(s, client); }
    case TimerFires(client) => TimerKeeps(s, client);
    case SpawnDone(softCap, hardCap) =>
      BoundsStep(s.recovery, Spawned);
      NewStream(softCap, hardCap);
    case SpawnFails =>
      BoundsStep(s.recovery, SpawnFailed);
      NoStream();
    case StopAll => BoundsStep(s.recovery, Stopped);
    case OnBroker(op) => BrokerKeeps(s, op);
    case OnStream(op) => if s.stream.Some? { StreamStep(s.stream.value, op); }
  }

  lemma CloseKeeps(s: System, now: int)
    requires SystemInv(s)
    ensures SystemInv(CloseSystem(s, now))
  {
    BI.FailAllKeeps(s.broker, now);
    CloseStream(s.stream);
    BoundsStep(s.recovery, Closed);
  }

  lemma TimerKeeps(s: System, client: nat)
    requires SystemInv(s)
    ensures SystemInv(FireTimer(s, client))
  {
    BoundsStep(s.recovery, TimerFired);
    hide BI.Inv, StreamOk;
    if s.recovery.live > 0 && !s.recovery.halted && s.broker.attached {
      SpawnKeeps(Recovering(s, TimerFired), client);
    }
  }

  lemma BrokerKeeps(s: System, op: B.Op)
    requires SystemInv(s) && LegalStep(s, OnBroker(op))
    ensures SystemInv(Take(s, OnBroker(op)))
  {
    BR.ApplyKeeps(s.broker, op);
    if s.recovery.closing { LossStays(s.broker, op); }
  }

  lemma {:induction false} TakeAllKeeps(s: System, steps: seq<Step>)
    requires SystemInv(s) && LegalSteps(s, steps)
    ensures SystemInv(TakeAll(s, steps))
  {
    hide SystemInv, Take, LegalStep;
    if steps != [] {
      TakeAllKeeps(s, steps[..|steps| - 1]);
      TakeKeeps(TakeAll(s, steps[..|steps| - 1]), steps[|steps| - 1]);
    }
  }

  /** No approval waits for anybody, and the stream, if its consumer did not leave,
      has no turn open. */
  ghost predicate Settled(s: System) {
    && BI.NonePending(s.broker.entries, s.broker.pending)
    && (forall h :: 0 <= h < |s.broker.entries| ==> s.broker.entries[h].settled)
    && (s.stream.Some? ==> !N.Open(s.stream.value))
    && (s.stream.Some? && !s.stream.value.cancelled ==> forall key :: !NR.OpenTurn(s.stream.value.accepted, key))
  }

  /** Over every run of supervisor, broker and stream together, closes during a
      spawn and overlapping spawns included: from the moment a close is handled until
      the next respawn begins or completes, nothing is pending, unanswered or open.
      The recovery keeps its bounds throughout. */
  lemma CloseSettlesEverything(b: B.State, steps: seq<Step>)
    requires BI.Inv(b) && LegalSteps(NewSystem(b), steps)
    ensures var s := TakeAll(NewSystem(b), steps);
      BoundsOk(s.recovery) && (s.recovery.closing ==> Settled(s))
  {
    hide TakeAll, LegalSteps;
    NoStream();
    TakeAllKeeps(NewSystem(b), steps);
    var s := TakeAll(NewSystem(b), steps);
    if s.recovery.closing { ShutIsSettled(s); }
  }

  lemma ShutIsSettled(s: System)
    requires SystemInv(s) && s.recovery.closing
    ensures Settled(s)
  {
    BR.NothingOwed(s.broker);
    if s.stream.Some? && !s.stream.value.cancelled { NoTurnsIff(s.stream.value); }
  }

  /** A close is handled exactly by a live supervisor that has built a transport and is
      not handling one already; every handled close makes it so, and no other has an effect. */
  lemma HandledCloseSettles(s: System, now: int)
    requires SystemInv(s)
    ensures var t, handled := Take(s, Close(now)), s.started && !s.recovery.halted && !s.recovery.closing;
      && (handled ==> t.recovery.closing && t.recovery.failures == s.recovery.failures + 1 && Settled(t))
      && (!handled ==> t == s)
  {
    if s.started && Handles(s.recovery) {
      CloseKeeps(s, now);
      ShutIsSettled(CloseSystem(s, now));
    }
    hide Settled, SystemInv;
  }

  /** No respawn is begun, no delay scheduled, and the broker keeps its client. */
  predicate StaysDown(s: System, t: System) {
    && t.recovery.halted && t.recovery.delays == s.recovery.delays
    && t.spawning <= s.spawning && t.started == s.started && t.broker.client == s.broker.client
  }

  lemma StepStaysDown(s: System, step: Step)
    requires s.recovery.halted && LegalStep(s, step)
    ensures StaysDown(s, Take(s, step))
  {
    hide B.Apply, B.FailAllLost, N.EndTransportLost, N.Apply, B.Reattach, CountFailure;
    match step
    case OnBroker(op) => ClientStays(s.broker, op);
    case _ =>
  }

  lemma ClientStays(b: B.State, op: B.Op)
    requires !op.OpReattach?
    ensures B.Apply(b, op).client == b.client
  {
    if !op.OpAttach? { BE.StepClient(b, op); }
    hide B.Arrive, B.HandlerDone, B.Continue, B.Bind, B.Resolve, B.ExpirePending, B.FailAllLost, B.FailOneLost, B.Prune;
  }

  /** Once halted the system stays down, whatever timer, spawn or call comes after. */
  lemma {:induction false} HaltedSystemStaysDown(s: System, steps: seq<Step>)
    requires s.recovery.halted && LegalSteps(s, steps)
    ensures StaysDown(s, TakeAll(s, steps))
  {
    if steps != [] {
      hide Take, LegalStep;
      HaltedSystemStaysDown(s, steps[..|steps| - 1]);
      StepStaysDown(TakeAll(s, steps[..|steps| - 1]), steps[|steps| - 1]);
    }
  }

  /** A supervisor starts once; afterwards, without an attached broker, or once halted, a
      start is refused without a trace. Otherwise the broker moves to the new client or
      the supervisor halts. */
  lemma StartsOnce(s: System, client: nat)
    ensures var t := Take(s, StartUp(client));
      if s.started || s.recovery.halted || !s.broker.attached then t == s
      else if client != s.broker.client && client !in s.broker.claimed then
        t.started && t.spawning == s.spawning + 1 && t.broker.client == client && !t.broker.lostFired
      else t.recovery.halted && !t.started && t.stream.None? && t.broker == s.broker
  {
  }

  /** A completed spawn brings an open, empty stream with its own caps, re-opens close
      handling and forgets the failures; a failed one halts and leaves no stream. Both
      need a spawn that is awaited. */
  lemma SpawnsEnd(s: System, softCap: nat, hardCap: nat)
    ensures var done, failed := Take(s, SpawnDone(softCap, hardCap)), Take(s, SpawnFails);
      if s.spawning == 0 then done == s && failed == s
      else
        && done.spawning == failed.spawning == s.spawning - 1
        && !done.recovery.closing && done.recovery.failures == 0 && done.recovery.halted == s.recovery.halted
        && done.stream.Some? && N.Open(done.stream.value)
        && done.stream.value.queue == [] && done.stream.value.waiters == [] && done.stream.value.accepted == []
        && done.stream.value.softCap == softCap && done.stream.value.hardCap == hardCap
        && failed.recovery.halted && failed.stream.None?
        && done.broker == failed.broker == s.broker
  {
  }

  /** A stop, or a failed spawn, cancels the respawn whose timer is held: none is left
      if it was the only one, and one that fires later begins no spawn. */
  lemma HaltCancelsRespawn(s: System, client: nat)
    requires SystemInv(s)
    ensures var t := Take(s, StopAll);
      && t.recovery.halted && t.recovery.timer.None?
      && t.recovery.live == (if s.recovery.timer.Some? then s.recovery.live - 1 else s.recovery.live)
      && t.broker == s.broker && t.stream == s.stream
      && Take(t, TimerFires(client)).spawning == s.spawning
  {
    hide BI.Inv, StreamOk;
  }

  /** A respawn timer that fires drops the held handle. On a halted supervisor that is all;
      without an attached broker it halts; else a spawn begins as at the start, with close
      handling open again. */
  lemma TimerBeginsSpawn(s: System, client: nat)
    requires s.recovery.live > 0
    ensures var t := Take(s, TimerFires(client));
      && t.recovery.timer.None? && t.recovery.delays == s.recovery.delays && t.recovery.failures == s.recovery.failures
      && (t.recovery.live == s.recovery.live - 1)
      && (if s.recovery.halted then t == s.(recovery := t.recovery) && t.recovery.halted
          else if !s.broker.attached then t.recovery.halted && t.spawning == s.spawning && t.broker == s.broker
          else if client != s.broker.client && client !in s.broker.claimed then
            && !t.recovery.halted && !t.recovery.closing && t.started && t.spawning == s.spawning + 1
            && t.broker.client == client && !t.broker.lostFired
          else t.recovery.halted && t.spawning == s.spawning && t.stream.None? && t.broker == s.broker)
  {
  }
}

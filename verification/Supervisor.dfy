/** The supervisor as a mutable object around a broker and the current runtime's
    event stream. */
module Supervisor {
  import opened Basics
  import opened SupervisorModel
  import B = BrokerModel
  import BI = BrokerInvariant
  import Broker
  import N = NormalizerModel
  import NR = NormalizerRuns
  import Normalizer

  class ProcessSupervisor {
    const broker: Broker.ApprovalBroker
    /** The current runtime's event stream; none before the first spawn and after a failed one. */
    var events: Normalizer.EventNormalizer?
    var closing: bool
    var halted: bool
    var consecutiveFailures: nat
    var pendingRespawnTimer: Option<nat>
    /** The event loop's side: respawn callbacks scheduled, and spawns awaiting their handshake. */
    var liveTimers: nat
    var spawning: nat
    var started: bool
    ghost var delays: seq<nat>

    ghost function Now(): Recovery
      reads this
    {
      Recovery(halted, closing, consecutiveFailures, pendingRespawnTimer, liveTimers, delays)
    }

    ghost function Whole(): System
      reads this, broker, events
    {
      System(Now(), broker.Now(), if events == null then None else Some(events.Now()), started, spawning)
    }

    ghost predicate Valid()
      reads this, broker, events
    {
      broker.Valid() && (events != null ==> events.Valid())
    }

    constructor (broker: Broker.ApprovalBroker)
      requires broker.Valid()
      ensures this.broker == broker && events == null && Whole() == NewSystem(broker.Now()) && Valid()
    {
      this.broker := broker;
      events := null;
      closing, halted, consecutiveFailures, pendingRespawnTimer := false, false, 0, None;
      liveTimers, spawning, started := 0, 0, false;
      delays := [];
    }

    method BackoffDelay() returns (ms: nat)
      requires consecutiveFailures >= 1
      ensures ms == Backoff(consecutiveFailures)
    {
      var idx := Min(consecutiveFailures - 1, 4);
      ms := 500;
      for k := 0 to idx
        invariant ms == 500 * Shift(k)
      {
        ms := 2 * ms;
      }
    }

    /** What a close tells the broker and the current stream. */
    method SignalLoss(now: int)
      requires Valid()
      modifies broker`entries, broker`attempts, broker`observed, broker`transportLostFired
      modifies events
      ensures Valid()
      ensures broker.Now() == B.FailAllLost(old(broker.Now()), now)
      ensures events != null ==> events.Now() == N.EndTransportLost(old(events.Now()))
    {
      hide B.FailAllLost, N.EndTransportLost, BI.Inv, NR.Inv;
      broker.FailPendingAsTransportLost(now);
      if events != null {
        events.EndWithTransportLost();
      }
    }

    /** The close handler, reachable once a transport was subscribed to. A close that
        is not handled changes nothing. */
    method OnTransportClose(now: int)
      requires Valid() && started
      modifies this`closing, this`halted, this`consecutiveFailures, this`pendingRespawnTimer, this`liveTimers, this`delays
      modifies broker`entries, broker`attempts, broker`observed, broker`transportLostFired
      modifies events
      ensures Valid() && events == old(events)
      ensures Whole() == Take(old(Whole()), Close(now))
    {
      hide B.FailAllLost, N.EndTransportLost, BI.Inv, NR.Inv, CountFailure;
      if halted { return; }
      if closing { return; }
      closing := true;
      SignalLoss(now);
      HaltOrSchedule();
    }

    method HaltOrSchedule()
      modifies this`halted, this`consecutiveFailures, this`pendingRespawnTimer, this`liveTimers, this`delays
      ensures Now() == CountFailure(old(Now()))
    {
      consecutiveFailures := consecutiveFailures + 1;
      if consecutiveFailures >= MAX_CONSECUTIVE_FAILURES {
        halted := true;
        return;
      }
      var delayMs := BackoffDelay();
      pendingRespawnTimer := Some(delayMs);
      liveTimers := liveTimers + 1;
      delays := delays + [delayMs];
    }

    /** `#halted` for good; the timer whose handle is held is cleared. */
    method HaltNow()
      modifies this`halted, this`pendingRespawnTimer, this`liveTimers
      ensures Now() == Halt(old(Now()))
    {
      halted := true;
      if pendingRespawnTimer.Some? && liveTimers > 0 { liveTimers := liveTimers - 1; }
      pendingRespawnTimer := None;
    }

    /** The part of a spawn before its first await; a refused reattach ends in the clean-up. */
    method SpawnBegins(client: nat)
      requires Valid()
      modifies this`events, this`halted, this`pendingRespawnTimer, this`liveTimers, this`spawning, this`started
      modifies broker`client, broker`attachedClients, broker`transportLostFired
      ensures Valid() && Whole() == BeginSpawn(old(Whole()), client)
    {
      hide BI.Inv, NR.Inv;
      var ok := broker.ReattachToClient(client);
      if ok {
        started := true;
        spawning := spawning + 1;
      } else {
        HaltNow();
        events := null;
      }
    }

    method StartFirst(client: nat) returns (ok: bool)
      requires Valid()
      modifies this`events, this`halted, this`pendingRespawnTimer, this`liveTimers, this`spawning, this`started
      modifies broker`client, broker`attachedClients, broker`transportLostFired
      ensures Valid() && Whole() == Take(old(Whole()), StartUp(client))
      ensures ok ==> !old(halted) && !old(started) && old(broker.attached)
      ensures ok <==> started && !old(started)
    {
      hide BI.Inv, NR.Inv, B.Reattach;
      if halted || started { return false; }
      if !broker.attached { return false; }
      SpawnBegins(client);
      return !halted;
    }

    /** A respawn callback: whatever timer fires, the handle is dropped. */
    method RespawnTimerFires(client: nat)
      requires Valid() && liveTimers > 0
      modifies this`events, this`closing, this`halted, this`pendingRespawnTimer, this`liveTimers, this`spawning, this`started
      modifies broker`client, broker`attachedClients, broker`transportLostFired
      ensures Valid() && Whole() == Take(old(Whole()), TimerFires(client))
    {
      hide BI.Inv, NR.Inv, B.Reattach, BeginSpawn, CloseSystem, Start, CompleteSpawn, B.Apply, N.Apply;
      liveTimers := liveTimers - 1;
      pendingRespawnTimer := None;
      if halted { return; }
      closing := false;
      if !broker.attached {
        halted := true;
        return;
      }
      SpawnBegins(client);
    }

    /** The handshake came through: the runtime comes with a fresh stream. */
    method SpawnSucceeds(softOption: NumberOption, hardOption: NumberOption)
      requires Valid() && spawning > 0
      modifies this`events, this`closing, this`consecutiveFailures, this`spawning
      ensures Valid() && events != null && fresh(events)
      ensures Whole() == Take(old(Whole()), SpawnDone(N.SanitizeCap(softOption, N.DEFAULT_DELTA_SOFT_CAP),
                                                     N.SanitizeCap(hardOption, N.DEFAULT_TOTAL_HARD_CAP)))
    {
      hide BI.Inv, NR.Inv;
      events := new Normalizer.EventNormalizer(softOption, hardOption);
      closing := false;
      consecutiveFailures := 0;
      spawning := spawning - 1;
    }

    method SpawnThrows()
      requires Valid() && spawning > 0
      modifies this`events, this`halted, this`pendingRespawnTimer, this`liveTimers, this`spawning
      ensures Valid() && Whole() == Take(old(Whole()), SpawnFails)
    {
      hide BI.Inv, NR.Inv;
      HaltNow();
      events := null;
      spawning := spawning - 1;
    }

    method Stop()
      requires Valid()
      modifies this`halted, this`pendingRespawnTimer, this`liveTimers
      ensures Valid() && Whole() == Take(old(Whole()), StopAll)
    {
      HaltNow();
    }
  }
}

/** The approval broker as the mutable object it is, method by method tied to
    the step functions of `BrokerModel`. */
module Broker {
  import opened Basics
  import opened OrderedMap
  import opened BrokerModel
  import opened BrokerInvariant
  import opened BrokerPrune
  import opened BrokerRuns

  const DEFAULT_TERMINAL_RECORD_MAX_AGE_MS := 604800000
  const DEFAULT_TERMINAL_RECORD_MAX_COUNT := 10000
  const DEFAULT_TERMINAL_PRUNE_BATCH_SIZE := 100

  function SanitizeAtLeast(v: NumberOption, least: nat, fallback: nat): (r: nat)
    requires least <= fallback
    ensures least <= r
    ensures v.Whole? && least <= v.n ==> r == v.n
    ensures r == fallback || v == Whole(r)
  {
    match v
    case Absent => fallback
    case NotWhole => fallback
    case Whole(n) => if n < least then fallback else n
  }

  /** Is the caller on the list? */
  method IsActorAllowed(allowed: seq<Actor>, actor: Actor) returns (found: bool)
    ensures found <==> MayDecide(allowed, actor)
    ensures found <==> ActorAllowed(allowed, actor)
  {
    AllowedMayDecide(allowed, actor);
    for k := 0 to |allowed|
      invariant forall i :: 0 <= i < k ==> !SameIdentity(allowed[i], actor)
    {
      var a := allowed[k];
      if a.System? && actor.System? {
        if a.reason == actor.reason { return true; }
      } else if a.Im? && actor.Im? {
        if a.platform == actor.platform && a.userId == actor.userId { return true; }
      }
    }
    return false;
  }

  /** Field by field, with the allowed actors in order, chats included. */
  method PoliciesEqual(a: Policy, b: Policy) returns (same: bool)
    ensures same <==> a == b
  {
    if a.callbackNonce != b.callbackNonce { return false; }
    if a.target != b.target { return false; }
    if |a.allowedActors| != |b.allowedActors| { return false; }
    for i := 0 to |a.allowedActors|
      invariant forall k :: 0 <= k < i ==> a.allowedActors[k] == b.allowedActors[k]
    {
      if a.allowedActors[i] != b.allowedActors[i] { return false; }
    }
    assert a.allowedActors == b.allowedActors;
    return true;
  }

  class ApprovalBroker {
    const approvalTtlMs: int
    var modes: map<Method, Mode>
    var entries: seq<Entry>
    var pending: seq<(RequestId, nat)>
    var pendingById: map<string, nat>
    var actorPolicies: map<string, Policy>
    var attached: bool
    var client: nat
    /** Every client that has a broker attached; shared by all brokers in the source. */
    var attachedClients: set<nat>
    var transportLostFired: bool
    ghost var attempts: seq<Attempt>
    ghost var observed: seq<(nat, ResolvedBy)>

    ghost function Now(): State
      reads this
    {
      State(approvalTtlMs, modes, entries, pending, pendingById, actorPolicies, attached, client,
            attachedClients, transportLostFired, attempts, observed)
    }

    ghost predicate Valid()
      reads this
    {
      Inv(Now())
    }

    constructor (client: nat, approvalTtlMs: Option<int>, attachedClients: set<nat>)
      requires approvalTtlMs.Some? ==> approvalTtlMs.value > 0
      ensures Valid() && Now() == Init(client, TtlFrom(approvalTtlMs), attachedClients)
    {
      this.approvalTtlMs := TtlFrom(approvalTtlMs);
      modes, entries, pending, pendingById, actorPolicies := map[], [], [], map[], map[];
      attached, transportLostFired := false, false;
      this.client, this.attachedClients := client, attachedClients;
      attempts, observed := [], [];
      new;
      InitInv(client, TtlFrom(approvalTtlMs), attachedClients);
    }

    // ---- settling -----------------------------------------------------

    /** The flag decides: the first call puts its outcome on the completion. */
    method SettleOnce(h: nat, outcome: WireOutcome) returns (won: bool)
      requires h < |entries|
      modifies this`entries
      ensures won == !old(entries)[h].settled
      ensures entries == if won then old(entries)[h := old(entries)[h].(settled := true, completion := Some(outcome))]
                         else old(entries)
    {
      if entries[h].settled { return false; }
      entries := entries[h := entries[h].(settled := true)];
      entries := entries[h := entries[h].(completion := Some(outcome))];
      return true;
    }

    method SettleEntry(h: nat, outcome: WireOutcome, who: ResolvedBy) returns (won: bool)
      requires h < |entries|
      modifies this`entries, this`attempts, this`observed
      ensures Now() == Settle(old(Now()), h, outcome, who)
      ensures won == !old(entries)[h].settled
    {
      won := SettleOnce(h, outcome);
      attempts := attempts + [Attempt(h, outcome, who, won)];
      if won { observed := observed + [(h, who)]; }
    }

    /** Status, actor, decision and time of a record the broker closes itself. */
    method CloseRecord(h: nat, status: Status, now: int)
      requires h < |entries|
      modifies this`entries, this`attempts, this`observed
      ensures Now() == SystemClose(old(Now()), h, status, now)
    {
      ghost var before := entries;
      entries := entries[h := entries[h].(status := status)];
      entries := entries[h := entries[h].(actor := Some(System(Reason(status))))];
      entries := entries[h := entries[h].(decision := Some(Denied(Some(Reason(status)))))];
      entries := entries[h := entries[h].(decidedAt := Some(now))];
      assert entries == before[h := ClosedRecord(before[h], status, now)];
      var won := SettleEntry(h, DefaultReject(entries[h].kind), BySystem(status));
    }

    // ---- requests -----------------------------------------------------

    method HandleRequest(id: RequestId, m: Method, now: int) returns (r: Arrival)
      requires Valid() && Legal(Now(), OpArrive(id, m, now))
      modifies this
      ensures (Now(), r) == Arrive(old(Now()), id, m, now) && Valid()
    {
      hide Inv, Legal, DefaultReject, Put, RecordId;
      ArriveKeeps(Now(), id, m, now);
      if m.UnknownMethod? { return Immediate(WireReject(NotSupported)); }
      var mode := if m in modes then modes[m] else DefaultRejectMode;
      if mode == DefaultRejectMode { return Immediate(DefaultReject(m)); }
      var record := Entry(id, RecordId(id), m, mode, Pending, None, now, now + approvalTtlMs, None, None, false, None, false);
      var h := |entries|;
      entries := entries + [record];
      pending := Put<RequestId, nat>(pending, id, h);
      pendingById := pendingById[record.recordId := h];
      return Waiting(h);
    }

    /** The registered handler's promise settled. */
    method HandlerCompletes(h: nat, outcome: WireOutcome)
      requires Valid() && h < |entries| && entries[h].mode == HandlerMode
      modifies this`entries, this`attempts, this`observed
      ensures Now() == HandlerDone(old(Now()), h, outcome) && Valid()
    {
      HandlerDoneKeeps(Now(), h, outcome);
      var won := SettleEntry(h, outcome, ByHandler);
    }

    /** The rest of `#handle`, run once after the completion settled. */
    method ContinueHandle(h: nat)
      requires Valid() && h < |entries| && entries[h].settled && !entries[h].returned
      modifies this`entries, this`pending, this`pendingById
      ensures Now() == Continue(old(Now()), h) && Valid()
    {
      hide Inv, Drop;
      ContinueKeeps(Now(), h);
      var entry := entries[h];
      entries := entries[h := entry.(returned := true)];
      if entry.status == Pending {
        pending := Drop<RequestId, nat>(pending, entry.id);
        pendingById := pendingById - {entry.recordId};
      }
    }

    // ---- binding and resolving ----------------------------------------

    method BindActorPolicy(approvalId: string, policy: Policy) returns (r: BindResult)
      requires Valid()
      modifies this`actorPolicies
      ensures (Now(), r) == Bind(old(Now()), approvalId, policy) && Valid()
    {
      hide Inv;
      BindKeeps(Now(), approvalId, policy);
      if approvalId !in pendingById { return UnknownApproval; }
      var h := pendingById[approvalId];
      Indexed(Now(), approvalId);
      if entries[h].status != Pending { return NotPending; }
      if approvalId in actorPolicies {
        var same := PoliciesEqual(actorPolicies[approvalId], policy);
        return if same then BindOk else ConflictingPolicy;
      }
      actorPolicies := actorPolicies[approvalId := policy];
      return BindOk;
    }

    method ResolveClick(c: Click, now: int, later: int) returns (r: ResolveResult)
      requires Valid()
      modifies this`entries, this`attempts, this`observed
      ensures (Now(), r) == Resolve(old(Now()), c, now, later) && Valid()
    {
      hide Inv, SystemClose, Grant, MapDecision;
      ResolveKeeps(Now(), c, now, later);
      if c.approvalId !in pendingById { return Err(UnknownApprovalId); }
      var h := pendingById[c.approvalId];
      Indexed(Now(), c.approvalId);
      var record := entries[h];
      if record.status == Resolved {
        return Err(AlreadyResolved(if record.decision.Some? then record.decision.value else ActionToDecision(c.action)));
      }
      if record.status == Expired {
        return Err(AlreadyExpired(if record.decidedAt.Some? then record.decidedAt.value else record.expiresAt));
      }
      if record.status == TransportLost {
        return Err(AlreadyLost(if record.decidedAt.Some? then record.decidedAt.value else now));
      }
      if now >= record.expiresAt {
        CloseRecord(h, Expired, now);
        return Err(ExpiredNow(now));
      }
      if c.approvalId !in actorPolicies { return Err(BindingRequired); }
      var policy := actorPolicies[c.approvalId];
      var allowed := IsActorAllowed(policy.allowedActors, c.actor);
      if !allowed { return Err(WrongActor); }
      if policy.target != c.target { return Err(WrongTarget); }
      if policy.callbackNonce != c.callbackNonce { return Err(StaleCallback); }
      var wire := MapDecision(record.kind, c.action);
      if wire.MapUnsupported? { return Err(UnsupportedDecision); }
      GrantClick(h, c, if wire.MapOk? then WireResolve(wire.value) else WireReject(wire.error), later);
      return Ok(later);
    }

    method GrantClick(h: nat, c: Click, outcome: WireOutcome, later: int)
      requires h < |entries|
      modifies this`entries, this`attempts, this`observed
      ensures Now() == Grant(old(Now()), h, c, outcome, later)
    {
      ghost var before := entries;
      entries := entries[h := entries[h].(actor := Some(c.actor))];
      entries := entries[h := entries[h].(decision := Some(ActionToDecision(c.action)))];
      entries := entries[h := entries[h].(decidedAt := Some(later))];
      entries := entries[h := entries[h].(status := Resolved)];
      assert entries == before[h := GrantedRecord(before[h], c, later)];
      var won := SettleEntry(h, outcome, ByUser(c.action, c.actor));
    }

    // ---- sweeps -------------------------------------------------------

    method ExpirePendingOlder(now: int, maxAge: int, later: int) returns (count: nat)
      requires Valid()
      modifies this`entries, this`attempts, this`observed
      ensures (Now(), count) == ExpirePending(old(Now()), now, maxAge, later) && Valid()
    {
      hide Inv, ExpireFirst, DueCount;
      ExpireFirstKeeps(Now(), |pending|, now - maxAge, later);
      AllDueUnchanged(Now(), now - maxAge, later);
      count := ExpireLoop(now - maxAge, later);
    }

    method ExpireLoop(cutoff: int, later: int) returns (count: nat)
      requires ListedOnce(Now(), cutoff, later)
      modifies this`entries, this`attempts, this`observed
      ensures Now() == ExpireFirst(old(Now()), |pending|, cutoff, later)
      ensures count == DueCount(old(Now()), |pending|, cutoff)
    {
      hide SystemClose;
      ghost var s := Now();
      count := 0;
      var i := 0;
      while i < |pending|
        invariant 0 <= i <= |pending|
        invariant Now() == ExpireFirst(s, i, cutoff, later) && SameMaps(s, Now())
        invariant count == DueCount(s, i, cutoff)
      {
        assert DueStays(s, i, cutoff, later);
        var h := pending[i].1;
        if entries[h].status == Pending && entries[h].createdAt <= cutoff {
          CloseRecord(h, Expired, later);
          count := count + 1;
        }
        i := i + 1;
        ExpireFirstMaps(s, i, cutoff, later);
      }
    }

    method FailPendingAsTransportLost(now: int)
      requires Valid()
      modifies this`entries, this`attempts, this`observed, this`transportLostFired
      ensures Now() == FailAllLost(old(Now()), now) && Valid() && transportLostFired
      ensures NonePending(entries, pending)
    {
      FailAllKeeps(Now(), now);
      if transportLostFired { return; }
      transportLostFired := true;
      forall i | 0 <= i < |pending| ensures pending[i].1 < |entries| {
        assert pending[i] in pending && PairOk(pending[i], pendingById, entries);
      }
      LoseLoop(now);
    }

    method LoseLoop(now: int)
      requires forall i :: 0 <= i < |pending| ==> pending[i].1 < |entries|
      modifies this`entries, this`attempts, this`observed
      ensures Now() == LoseFirst(old(Now()), |pending|, now)
    {
      hide SystemClose;
      ghost var s := Now();
      var i := 0;
      while i < |pending|
        invariant 0 <= i <= |pending|
        invariant Now() == LoseFirst(s, i, now) && SameMaps(s, Now()) && |entries| == |s.entries|
      {
        var h := pending[i].1;
        if entries[h].status == Pending { CloseRecord(h, TransportLost, now); }
        i := i + 1;
        LoseFirstMaps(s, i, now);
        LoseFirstLength(s, i, now);
      }
    }

    method FailPendingApprovalAsTransportLost(approvalId: string, now: int)
      requires Valid()
      modifies this`entries, this`attempts, this`observed
      ensures Now() == FailOneLost(old(Now()), approvalId, now) && Valid()
    {
      hide Inv, SystemClose;
      FailOneKeeps(Now(), approvalId, now);
      if approvalId !in pendingById { return; }
      var h := pendingById[approvalId];
      Indexed(Now(), approvalId);
      if entries[h].status != Pending { return; }
      CloseRecord(h, TransportLost, now);
    }

    // ---- clients ------------------------------------------------------

    method AttachToClient() returns (ok: bool)
      requires Valid()
      modifies this`attached, this`attachedClients
      ensures (Now(), ok) == Attach(old(Now())) && Valid()
    {
      FlagsKeep(Now(), Attach(Now()).0);
      if attached { return false; }
      if client in attachedClients { return false; }
      attachedClients := attachedClients + {client};
      attached := true;
      return true;
    }

    method ReattachToClient(newClient: nat) returns (ok: bool)
      requires Valid()
      modifies this`client, this`attachedClients, this`transportLostFired
      ensures (Now(), ok) == Reattach(old(Now()), newClient) && Valid()
    {
      FlagsKeep(Now(), Reattach(Now(), newClient).0);
      if !attached { return false; }
      if newClient == client { return false; }
      if newClient in attachedClients { return false; }
      attachedClients := attachedClients - {client};
      attachedClients := attachedClients + {newClient};
      client := newClient;
      transportLostFired := false;
      return true;
    }

    method SetMethodMode(m: Method, mode: Mode)
      requires Valid() && !m.UnknownMethod?
      modifies this`modes
      ensures Now() == SetMode(old(Now()), m, mode) && Valid()
    {
      FlagsKeep(Now(), SetMode(Now(), m, mode));
      modes := modes[m := mode];
    }

    // ---- reading ------------------------------------------------------

    /** Does the list of pending snapshots hold this id? */
    method IsListedPending(approvalId: string) returns (found: bool)
      requires Valid()
      ensures found <==> exists i :: 0 <= i < |pending| && PendingUnder(pending[i], entries, approvalId)
    {
      for k := 0 to |pending|
        invariant forall i :: 0 <= i < k ==> !PendingUnder(pending[i], entries, approvalId)
      {
        PairIndexed(Now(), k);
        var record := entries[pending[k].1];
        if record.status == Pending && record.recordId == approvalId { return true; }
      }
      return false;
    }

    // ---- pruning ------------------------------------------------------

    /** The terminal records with their map keys, in map order. */
    method TerminalEntries() returns (r: seq<Aged>)
      requires Valid()
      ensures r == Terminals(pending, entries)
    {
      forall k | 0 <= k < |pending| ensures pending[k].1 < |entries| { PairIndexed(Now(), k); }
      hide Inv, Terminals;
      r := [];
      assert Terminals([], entries) == [] by { NoTerminals(entries); }
      var i := 0;
      while i < |pending|
        invariant 0 <= i <= |pending|
        invariant r == Terminals(pending[..i], entries)
      {
        var p := pending[i];
        assert pending[..i + 1] == pending[..i] + [p];
        TerminalsSnoc(pending[..i], p, entries);
        if entries[p.1].status != Pending {
          r := r + [Aged(p.0, entries[p.1].recordId, RecordTime(entries[p.1]))];
        }
        i := i + 1;
      }
      assert pending[..i] == pending;
    }

    /** Which records go: the two passes over the sorted list. */
    method ChooseOldest(sorted: seq<Aged>, now: int, maxAge: int, maxCount: nat, batch: nat) returns (chosen: seq<Aged>)
      requires Sorted(sorted) && DistinctIds(sorted)
      ensures chosen == sorted[..Min(Min(batch, Excess(sorted, now, maxAge, maxCount)), |sorted|)]
    {
      OldComeFirst(sorted, now, maxAge);
      hide Sorted, CountOld;
      chosen := ChooseAged(sorted, now, maxAge, batch);
      chosen := TopUp(sorted, chosen, Max(0, |sorted| - maxCount), batch);
    }

    /** The first pass: what is too old, up to a batch. */
    method ChooseAged(sorted: seq<Aged>, now: int, maxAge: int, batch: nat) returns (chosen: seq<Aged>)
      requires Sorted(sorted)
      ensures CountOld(sorted, now, maxAge) <= |sorted|
      ensures chosen == sorted[..Min(batch, CountOld(sorted, now, maxAge))]
    {
      OldComeFirst(sorted, now, maxAge);
      hide Sorted, CountOld;
      ghost var old_ := CountOld(sorted, now, maxAge);
      chosen := [];
      var i := 0;
      while i < |sorted| && |chosen| < batch
        invariant 0 <= i <= |sorted|
        invariant chosen == sorted[..Min(i, old_)] && |chosen| <= batch
      {
        if now - sorted[i].time >= maxAge { chosen := chosen + [sorted[i]]; }
        i := i + 1;
      }
    }

    /** The second pass: the oldest ones besides, up to the excess and the batch. */
    method TopUp(sorted: seq<Aged>, aged: seq<Aged>, overCount: nat, batch: nat) returns (chosen: seq<Aged>)
      requires DistinctIds(sorted) && |aged| <= |sorted| && |aged| <= batch && aged == sorted[..|aged|] && overCount <= |sorted|
      ensures chosen == sorted[..Max(|aged|, Min(batch, overCount))]
    {
      chosen := aged;
      ghost var first := |aged|;
      var i := 0;
      while i < |sorted| && |chosen| < batch && |chosen| < overCount
        invariant 0 <= i <= |sorted|
        invariant chosen == sorted[..Max(first, i)] && |chosen| <= Max(first, Min(batch, overCount))
      {
        if i < first {
          assert sorted[i] == chosen[i];
        } else {
          assert forall k :: 0 <= k < |chosen| ==> chosen[k].id != sorted[i].id;
        }
        var have := exists k :: 0 <= k < |chosen| && chosen[k].id == sorted[i].id;
        if !have { chosen := chosen + [sorted[i]]; }
        i := i + 1;
      }
    }

    method PruneTerminalRecords(now: int, maxAgeMs: NumberOption, maxCountOption: NumberOption, batchSize: NumberOption)
      returns (removed: nat)
      requires Valid()
      modifies this`pending, this`pendingById, this`actorPolicies
      ensures Valid()
      ensures (Now(), removed) == Prune(old(Now()), now,
                SanitizeAtLeast(maxAgeMs, 1, DEFAULT_TERMINAL_RECORD_MAX_AGE_MS),
                SanitizeAtLeast(maxCountOption, 0, DEFAULT_TERMINAL_RECORD_MAX_COUNT),
                SanitizeAtLeast(batchSize, 1, DEFAULT_TERMINAL_PRUNE_BATCH_SIZE))
    {
      var maxAge := SanitizeAtLeast(maxAgeMs, 1, DEFAULT_TERMINAL_RECORD_MAX_AGE_MS);
      var maxCount := SanitizeAtLeast(maxCountOption, 0, DEFAULT_TERMINAL_RECORD_MAX_COUNT);
      var batch := SanitizeAtLeast(batchSize, 1, DEFAULT_TERMINAL_PRUNE_BATCH_SIZE);
      PruneKeeps(Now(), now, maxAge, maxCount, batch);
      var terminal := TerminalEntries();
      SortSorts(terminal);
      TerminalsDistinct(pending, entries);
      SortDistinct(terminal);
      var sorted := SortByTime(terminal);
      var toDelete := ChooseOldest(sorted, now, maxAge, maxCount, batch);
      RemoveChosen(toDelete);
      removed := |toDelete|;
    }

    method RemoveChosen(toDelete: seq<Aged>)
      requires Distinct(pending)
      modifies this`pending, this`pendingById, this`actorPolicies
      ensures Now() == Remove(old(Now()), toDelete)
    {
      ghost var s := Now();
      RemoveNone(s);
      assert toDelete[..0] == [];
      var i := 0;
      while i < |toDelete|
        invariant 0 <= i <= |toDelete|
        invariant Now() == Remove(s, toDelete[..i])
      {
        var x := toDelete[i];
        RemoveOneMore(s, toDelete[..i], x);
        assert toDelete[..i + 1] == toDelete[..i] + [x];
        pending := Drop<RequestId, nat>(pending, x.id);
        pendingById := pendingById - {x.recordId};
        actorPolicies := actorPolicies - {x.recordId};
        i := i + 1;
      }
      assert toDelete[..i] == toDelete;
    }
  }

  lemma RemoveNone(s: State)
    ensures Remove(s, []) == s
  {
    assert Ids([]) == {} && RecordIds([]) == {};
    WithoutNone<RequestId, nat>(s.pending, {});
    assert s.byId - {} == s.byId && s.policies - {} == s.policies;
  }

  lemma RemoveOneMore(s: State, gone: seq<Aged>, x: Aged)
    requires Distinct(s.pending)
    ensures var t := Remove(s, gone);
      Remove(s, gone + [x]) == t.(pending := Drop<RequestId, nat>(t.pending, x.id), byId := t.byId - {x.recordId},
                                  policies := t.policies - {x.recordId})
  {
    var more := gone + [x];
    assert Ids(more) == Ids(gone) + {x.id};
    assert RecordIds(more) == RecordIds(gone) + {x.recordId};
    WithoutDistinct<RequestId, nat>(s.pending, Ids(gone));
    DropIsWithout<RequestId, nat>(Without<RequestId, nat>(s.pending, Ids(gone)), x.id);
    WithoutTwice<RequestId, nat>(s.pending, Ids(gone), {x.id});
    assert s.byId - RecordIds(more) == s.byId - RecordIds(gone) - {x.recordId};
    assert s.policies - RecordIds(more) == s.policies - RecordIds(gone) - {x.recordId};
  }

  /** Before its turn in the sweep comes, an entry is as it was. */
  predicate DueStays(s: State, n: nat, cutoff: int, now: int)
    requires n < |s.pending|
  {
    var h, t := s.pending[n].1, ExpireFirst(s, n, cutoff, now);
    h < |s.entries| && |t.entries| == |s.entries| && t.entries[h] == s.entries[h]
  }

  predicate ListedOnce(s: State, cutoff: int, now: int) {
    forall n :: 0 <= n < |s.pending| ==> DueStays(s, n, cutoff, now)
  }

  lemma Indexed(s: State, approvalId: string)
    requires Inv(s) && approvalId in s.byId
    ensures s.byId[approvalId] < |s.entries|
  {
    assert KeyOk(approvalId, s.byId[approvalId], s.pending, s.entries);
  }

  lemma PairIndexed(s: State, i: nat)
    requires Inv(s) && i < |s.pending|
    ensures s.pending[i].1 < |s.entries|
  {
    assert s.pending[i] in s.pending && PairOk(s.pending[i], s.byId, s.entries);
  }

  lemma NoTerminals(entries: seq<Entry>)
    ensures Terminals([], entries) == []
  {
  }

  lemma AllDueUnchanged(s: State, cutoff: int, now: int)
    requires Inv(s)
    ensures ListedOnce(s, cutoff, now)
  {
    forall n | 0 <= n < |s.pending| ensures DueStays(s, n, cutoff, now) {
      var h := s.pending[n].1;
      assert s.pending[n] in s.pending && PairOk(s.pending[n], s.byId, s.entries);
      ExpireFirstExact(s, n, cutoff, now, h);
      forall i | 0 <= i < n ensures s.pending[i].1 != h {
        assert s.pending[i] in s.pending && PairOk(s.pending[i], s.byId, s.entries);
        assert s.pending[i].0 != s.pending[n].0;
      }
    }
  }
}

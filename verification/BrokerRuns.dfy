/** What holds after every legal run of the broker. */
module BrokerRuns {
  import opened Basics
  import opened OrderedMap
  import opened BrokerModel
  import opened BrokerInvariant
  import opened BrokerPrune

  predicate Sweeping(op: Op) { op.OpExpire? || op.OpFailAll? || op.OpFailOne? || op.OpPrune? }

  predicate Administrative(op: Op) { op.OpAttach? || op.OpReattach? || op.OpSetMode? }

  lemma SweepKeeps(s: State, op: Op)
    requires Inv(s) && Sweeping(op)
    ensures Inv(Apply(s, op)) && Forward(s, Apply(s, op))
  {
    hide Inv, Forward, ExpireFirst, FailAllLost, FailOneLost, Prune, SameMaps, NonePending;
    match op
    case OpExpire(now, maxAge, later) => ExpireFirstKeeps(s, |s.pending|, now - maxAge, later);
    case OpFailAll(now) => FailAllKeeps(s, now);
    case OpFailOne(a, now) => FailOneKeeps(s, a, now);
    case OpPrune(now, maxAge, maxCount, batch) => PruneKeeps(s, now, maxAge, maxCount, batch);
  }

  lemma AdministrativeKeeps(s: State, op: Op)
    requires Inv(s) && Administrative(op)
    ensures Inv(Apply(s, op)) && Forward(s, Apply(s, op))
  {
    hide Inv, Forward, Arrive, HandlerDone, Continue, Bind, Resolve, ExpirePending, FailAllLost, FailOneLost, Prune;
    FlagsKeep(s, Apply(s, op));
  }

  lemma ApplyKeeps(s: State, op: Op)
    requires Inv(s) && Legal(s, op)
    ensures Inv(Apply(s, op)) && Forward(s, Apply(s, op))
  {
    hide Inv, Forward, Legal, Arrive, HandlerDone, Continue, Bind, Resolve, ExpirePending, FailAllLost, FailOneLost, Prune;
    if Sweeping(op) {
      SweepKeeps(s, op);
    } else if Administrative(op) {
      AdministrativeKeeps(s, op);
    } else {
      match op
      case OpArrive(id, m, now) => ArriveKeeps(s, id, m, now);
      case OpHandlerDone(h, outcome) => HandlerDoneKeeps(s, h, outcome);
      case OpContinue(h) => ContinueKeeps(s, h);
      case OpBind(a, p) => BindKeeps(s, a, p);
      case OpResolve(c, now, later) => ResolveKeeps(s, c, now, later);
    }
  }

  lemma FailOneKeeps(s: State, approvalId: string, now: int)
    requires Inv(s)
    ensures Inv(FailOneLost(s, approvalId, now)) && Forward(s, FailOneLost(s, approvalId, now))
  {
    if approvalId in s.byId { LoseStepKeeps(s, s.byId[approvalId], now); } else { SameEntriesForward(s, s); }
  }

  lemma FlagsKeep(s: State, t: State)
    requires Inv(s) && (t.lostFired ==> s.lostFired)
    requires t == s.(lostFired := t.lostFired, client := t.client, claimed := t.claimed, attached := t.attached, modes := t.modes)
    ensures Inv(t) && Forward(s, t)
  {
    SameEntriesForward(s, t);
  }

  lemma {:induction false} RunKeeps(s: State, ops: seq<Op>)
    requires Inv(s) && LegalRun(s, ops)
    ensures Inv(Run(s, ops)) && Forward(s, Run(s, ops))
  {
    if ops == [] {
      SameEntriesForward(s, s);
    } else {
      var front := ops[..|ops| - 1];
      RunKeeps(s, front);
      ApplyKeeps(Run(s, front), ops[|ops| - 1]);
      ForwardTransitive(s, Run(s, front), Run(s, ops));
    }
  }

  // ---- single winner --------------------------------------------------

  function CountObserved(observed: seq<(nat, ResolvedBy)>, h: nat): nat {
    if observed == [] then 0
    else CountObserved(observed[..|observed| - 1], h) + if observed[|observed| - 1].0 == h then 1 else 0
  }

  lemma {:induction false} ObservedOnce(attempts: seq<Attempt>, h: nat)
    requires WinsAreFirst(attempts)
    ensures CountObserved(Winners(attempts), h) == if FirstAttempt(attempts, h).Some? then 1 else 0
  {
    if attempts != [] {
      var front, z := attempts[..|attempts| - 1], attempts[|attempts| - 1];
      ObservedOnce(front, h);
      var w: seq<(nat, ResolvedBy)> := Winners(front);
      if z.won {
        var x: seq<(nat, ResolvedBy)> := w + [(z.handle, z.who)];
        assert x[..|x| - 1] == w;
      } else {
        assert w + [] == w;
      }
    }
  }

  lemma WinnerAt(e: Entry, ttl: int, attempts: seq<Attempt>, h: nat)
    requires EntryOk(e, ttl) && WinsAreFirst(attempts) && FirstSettles(e, FirstAttempt(attempts, h))
    ensures var first := FirstAttempt(attempts, h);
      && (e.settled <==> first.Some?)
      && (e.settled ==> first.value.won && e.completion == Some(first.value.outcome))
      && CountObserved(Winners(attempts), h) == (if e.settled then 1 else 0)
      && (e.mode == PendingMode ==> (e.settled <==> e.status != Pending))
  {
    ObservedOnce(attempts, h);
    if e.settled { FirstWon(attempts, h); }
  }

  /** Whatever raced to settle an entry, the first attempt decided it, the
      observer fired once for it, and no later step of any run changes it. */
  lemma SingleWinner(s0: State, ops: seq<Op>, later: seq<Op>, h: nat)
    requires Inv(s0) && LegalRun(s0, ops) && LegalRun(Run(s0, ops), later) && h < |Run(s0, ops).entries|
    ensures var s, t := Run(s0, ops), Run(Run(s0, ops), later);
      var e, first := s.entries[h], FirstAttempt(s.attempts, h);
      && (e.settled <==> first.Some?)
      && (e.settled ==> first.value.won && e.completion == Some(first.value.outcome))
      && CountObserved(s.observed, h) == (if e.settled then 1 else 0)
      && h < |t.entries|
      && (e.settled ==> t.entries[h].completion == e.completion)
      && (e.mode == PendingMode ==> (e.settled <==> e.status != Pending))
  {
    var s := Run(s0, ops);
    RunKeeps(s0, ops);
    WinnerAt(s.entries[h], s.ttl, s.attempts, h);
    assert Forward(s, Run(s, later)) by { RunKeeps(s, later); }
    assert Advances(s.entries[h], Run(s, later).entries[h]);
  }

  lemma {:induction false} FirstWon(attempts: seq<Attempt>, h: nat)
    requires WinsAreFirst(attempts) && FirstAttempt(attempts, h).Some?
    ensures FirstAttempt(attempts, h).value.won
  {
    var front := attempts[..|attempts| - 1];
    if FirstAttempt(front, h).Some? { FirstWon(front, h); }
  }

  /** Someone on the list is the caller: the same user on the same platform, or the
      system for the same reason. What chats the two are in is not asked. */
  predicate MayDecide(allowed: seq<Actor>, actor: Actor) {
    exists i :: 0 <= i < |allowed| &&
      if actor.Im? then allowed[i].Im? && allowed[i].platform == actor.platform && allowed[i].userId == actor.userId
      else allowed[i].System? && allowed[i].reason == actor.reason
  }

  lemma AllowedMayDecide(allowed: seq<Actor>, actor: Actor)
    ensures ActorAllowed(allowed, actor) <==> MayDecide(allowed, actor)
  {
    if i :| 0 <= i < |allowed| && SameIdentity(allowed[i], actor) { assert MayDecide(allowed, actor); }
    if MayDecide(allowed, actor) {
      var i :| 0 <= i < |allowed| &&
        if actor.Im? then allowed[i].Im? && allowed[i].platform == actor.platform && allowed[i].userId == actor.userId
        else allowed[i].System? && allowed[i].reason == actor.reason;
      assert SameIdentity(allowed[i], actor);
    }
  }

  /** Is this click good for this entry right now? */
  predicate Grants(s: State, c: Click, now: int, h: nat) {
    && h < |s.entries| && c.approvalId in s.byId && s.byId[c.approvalId] == h
    && s.entries[h].status == Pending
    && now < s.entries[h].expiresAt
    && c.approvalId in s.policies
    && MayDecide(s.policies[c.approvalId].allowedActors, c.actor)
    && s.policies[c.approvalId].target == c.target
    && s.policies[c.approvalId].callbackNonce == c.callbackNonce
    && ClickOutcome(s.entries[h].kind, c.action).Some?
  }

  /** From `s` to `t` the click made one attempt, with its mapped outcome: it won,
      unless the entry was settled before, which cannot be in pending mode. */
  predicate ClickAttempted(s: State, t: State, c: Click) {
    && c.approvalId in s.byId && s.byId[c.approvalId] < |s.entries| == |t.entries|
    && var h := s.byId[c.approvalId];
       var e := s.entries[h];
       && ClickOutcome(e.kind, c.action).Some?
       && var outcome := ClickOutcome(e.kind, c.action).value;
          && t.attempts == s.attempts + [Attempt(h, outcome, ByUser(c.action, c.actor), !e.settled)]
          && t.entries[h].completion == (if e.settled then e.completion else Some(outcome))
          && (e.mode == PendingMode ==> !e.settled)
  }

  /** `resolve` answers ok exactly for a good click; it then won the wire unless
      a handler had settled the entry already, which cannot happen to an entry
      created in pending mode. */
  lemma OkMeansWon(s: State, c: Click, now: int, later: int)
    requires Inv(s)
    ensures var (t, r) := Resolve(s, c, now, later);
      && (r.Ok? <==> c.approvalId in s.byId && Grants(s, c, now, s.byId[c.approvalId]))
      && (r.Ok? ==> ClickAttempted(s, t, c))
  {
    hide ActorAllowed, MayDecide, DefaultReject, ReviewWord, LegacyWord, HistoryOk, PoliciesOk, UnsettledListed, IdsUnique;
    if c.approvalId in s.byId {
      if c.approvalId in s.policies { AllowedMayDecide(s.policies[c.approvalId].allowedActors, c.actor); }
      var h := s.byId[c.approvalId];
      assert KeyOk(c.approvalId, h, s.pending, s.entries);
      assert EntryOk(s.entries[h], s.ttl);
    }
  }

  lemma FiveSteps(s: State, a: Op, b: Op, c: Op, d: Op, e: Op)
    ensures var s4 := Apply(Apply(Apply(Apply(s, a), b), c), d);
      Run(s, [a, b, c, d, e]) == Apply(s4, e)
    ensures !a.OpArrive? && !b.OpArrive? && !d.OpArrive? && !e.OpArrive? && Legal(Apply(Apply(s, a), b), c) ==>
      LegalRun(s, [a, b, c, d, e])
  {
    assert Run(s, []) == s && LegalRun(s, []);
    hide Apply;
    assert [a, b, c, d, e][..4] == [a, b, c, d] && [a, b, c, d][..3] == [a, b, c];
    assert [a, b, c][..2] == [a, b] && [a, b][..1] == [a] && [a][..0] == [];
    assert Run(s, [a]) == Apply(s, a) && (!a.OpArrive? ==> LegalRun(s, [a]));
    assert Run(s, [a, b]) == Apply(Run(s, [a]), b);
    assert Run(s, [a, b, c]) == Apply(Run(s, [a, b]), c);
    assert Run(s, [a, b, c, d]) == Apply(Run(s, [a, b, c]), d);
    assert LegalRun(s, [a]) && !b.OpArrive? ==> LegalRun(s, [a, b]);
    assert LegalRun(s, [a, b]) && Legal(Run(s, [a, b]), c) ==> LegalRun(s, [a, b, c]);
    assert LegalRun(s, [a, b, c]) && !d.OpArrive? ==> LegalRun(s, [a, b, c, d]);
  }

  const Someone := Im("p", "u", None)
  const SomeChat := Target("p", "c", None, None)

  /** A fresh broker whose handler answers a request that was also shown as a card. */
  function HandlerRun(outcome: WireOutcome): seq<Op> {
    [OpAttach, OpSetMode(CommandExecution, HandlerMode), OpArrive(StrId("7"), CommandExecution, 0),
     OpBind("approval-7", Policy([Someone], SomeChat, "n")), OpHandlerDone(0, outcome)]
  }

  /** Where that run ends: settled by the handler, but still pending. */
  lemma HandlerRunEnds(outcome: WireOutcome)
    ensures LegalRun(Init(0, 10, {}), HandlerRun(outcome))
    ensures var s := Run(Init(0, 10, {}), HandlerRun(outcome));
      && s.byId == map["approval-7" := 0] && s.policies == map["approval-7" := Policy([Someone], SomeChat, "n")]
      && s.entries == [Entry(StrId("7"), "approval-7", CommandExecution, HandlerMode, Pending, None, 0, 10, None, None,
                             true, Some(outcome), false)]
  {
    var o := HandlerRun(outcome);
    FiveSteps(Init(0, 10, {}), o[0], o[1], o[2], o[3], o[4]);
    assert o == [o[0], o[1], o[2], o[3], o[4]];
    HandlerSteps(outcome);
    hide Run, LegalRun, Apply, Legal;
  }

  lemma HandlerSteps(outcome: WireOutcome)
    ensures var s2 := Apply(Apply(Init(0, 10, {}), OpAttach), OpSetMode(CommandExecution, HandlerMode));
      var s4 := Apply(Apply(s2, OpArrive(StrId("7"), CommandExecution, 0)), OpBind("approval-7", Policy([Someone], SomeChat, "n")));
      var s := Apply(s4, OpHandlerDone(0, outcome));
      && Legal(s2, OpArrive(StrId("7"), CommandExecution, 0))
      && s.byId == map["approval-7" := 0] && s.policies == map["approval-7" := Policy([Someone], SomeChat, "n")]
      && s.entries == [Entry(StrId("7"), "approval-7", CommandExecution, HandlerMode, Pending, None, 0, 10, None, None,
                             true, Some(outcome), false)]
  {
    hide Someone, SomeChat, Resolve, ExpirePending, FailAllLost, FailOneLost, Prune;
    var s1 := Apply(Init(0, 10, {}), OpAttach);
    assert s1.entries == [] && s1.modes == map[] && !s1.lostFired;
    var s2 := Apply(s1, OpSetMode(CommandExecution, HandlerMode));
    assert RecordId(StrId("7")) == "approval-7";
    var s3 := Apply(s2, OpArrive(StrId("7"), CommandExecution, 0));
    assert s3.byId == map["approval-7" := 0];
    var s4 := Apply(s3, OpBind("approval-7", Policy([Someone], SomeChat, "n")));
    assert s4.entries == s3.entries;
  }

  /** The only record says approved, the wire got `outcome`. */
  predicate ApprovedButAnswered(s: State, outcome: WireOutcome) {
    && |s.entries| == 1 && s.entries[0].status == Resolved && s.entries[0].decision == Some(Approved)
    && s.entries[0].completion == Some(outcome)
  }

  /** A legal run from a fresh broker after which a click gets its ok although the
      handler's answer, whatever it is, stays on the wire. */
  lemma OkMayLose(outcome: WireOutcome)
    ensures LegalRun(Init(0, 10, {}), HandlerRun(outcome))
    ensures var s := Run(Init(0, 10, {}), HandlerRun(outcome));
      var (t, r) := Resolve(s, Click("approval-7", AllowOnce, Someone, SomeChat, "n"), 1, 2);
      r == Ok(2) && ApprovedButAnswered(t, outcome)
  {
    HandlerRunEnds(outcome);
    hide Run, LegalRun, HandlerRun;
    assert ActorAllowed([Someone], Someone) by { assert SameIdentity([Someone][0], Someone); }
  }

  // ---- provenance -----------------------------------------------------

  lemma SystemCloseExact(s: State, g: nat, status: Status, now: int)
    requires g < |s.entries|
    ensures SystemClose(s, g, status, now).entries
         == s.entries[g := Answered(ClosedRecord(s.entries[g], status, now), DefaultReject(s.entries[g].kind))]
  {
    hide DefaultReject;
  }

  lemma ExpireStepExact(s: State, g: nat, cutoff: int, now: int, h: nat)
    requires h < |s.entries|
    ensures var t := ExpireStep(s, g, cutoff, now);
      && |t.entries| == |s.entries|
      && t.entries[h] ==
           if g == h && DueAt(s.entries[h], cutoff)
           then Answered(ClosedRecord(s.entries[h], Expired, now), DefaultReject(s.entries[h].kind))
           else s.entries[h]
  {
    hide SystemClose, DefaultReject, Answered, ClosedRecord;
    if g < |s.entries| { SystemCloseExact(s, g, Expired, now); }
  }

  lemma LoseStepExact(s: State, g: nat, now: int, h: nat)
    requires h < |s.entries|
    ensures var t := LoseStep(s, g, now);
      && |t.entries| == |s.entries|
      && t.entries[h] ==
           if g == h && s.entries[h].status == Pending
           then Answered(ClosedRecord(s.entries[h], TransportLost, now), DefaultReject(s.entries[h].kind))
           else s.entries[h]
  {
    hide SystemClose, DefaultReject, Answered, ClosedRecord;
    if g < |s.entries| { SystemCloseExact(s, g, TransportLost, now); }
  }

  lemma ClosedNotPending(e: Entry, status: Status, now: int)
    requires status != Pending
    ensures Answered(ClosedRecord(e, status, now), DefaultReject(e.kind)).status != Pending
  {
    hide DefaultReject;
  }

  lemma ClosedNotDue(e: Entry, cutoff: int, now: int)
    ensures !DueAt(Answered(ClosedRecord(e, Expired, now), DefaultReject(e.kind)), cutoff)
  {
    ClosedNotPending(e, Expired, now);
    hide Answered, ClosedRecord, DefaultReject;
  }

  lemma {:induction false} ExpireFirstExact(s: State, n: nat, cutoff: int, now: int, h: nat)
    requires n <= |s.pending| && h < |s.entries|
    ensures var t := ExpireFirst(s, n, cutoff, now);
      && |t.entries| == |s.entries|
      && t.entries[h] ==
           if (exists i :: 0 <= i < n && s.pending[i].1 == h) && DueAt(s.entries[h], cutoff)
           then Answered(ClosedRecord(s.entries[h], Expired, now), DefaultReject(s.entries[h].kind))
           else s.entries[h]
  {
    hide ExpireStep, DefaultReject, Answered, ClosedRecord;
    if n > 0 {
      ExpireFirstExact(s, n - 1, cutoff, now, h);
      var g := s.pending[n - 1].1;
      ExpireStepExact(ExpireFirst(s, n - 1, cutoff, now), g, cutoff, now, h);
      ClosedNotDue(s.entries[h], cutoff, now);
      if g == h { assert exists i :: 0 <= i < n && s.pending[i].1 == h; }
    }
  }

  lemma {:induction false} LoseFirstExact(s: State, n: nat, now: int, h: nat)
    requires n <= |s.pending| && h < |s.entries|
    ensures var t := LoseFirst(s, n, now);
      && |t.entries| == |s.entries|
      && t.entries[h] ==
           if (exists i :: 0 <= i < n && s.pending[i].1 == h) && s.entries[h].status == Pending
           then Answered(ClosedRecord(s.entries[h], TransportLost, now), DefaultReject(s.entries[h].kind))
           else s.entries[h]
  {
    hide LoseStep, DefaultReject, Answered, ClosedRecord;
    if n > 0 {
      LoseFirstExact(s, n - 1, now, h);
      var g := s.pending[n - 1].1;
      LoseStepExact(LoseFirst(s, n - 1, now), g, now, h);
      ClosedNotPending(s.entries[h], TransportLost, now);
      if g == h { assert exists i :: 0 <= i < n && s.pending[i].1 == h; }
    }
  }

  /** A sweep expires exactly the listed records that are pending and old enough,
      reports their number, and touches nothing else. */
  lemma ExpireExact(s: State, now: int, maxAge: int, later: int, h: nat)
    requires Inv(s) && h < |s.entries|
    ensures var t := ExpirePending(s, now, maxAge, later).0;
      && |t.entries| == |s.entries|
      && (Listed(h, s.entries, s.pending) && s.entries[h].status == Pending && now - s.entries[h].createdAt >= maxAge ==>
            t.entries[h].status == Expired && t.entries[h].decidedAt == Some(later) && t.entries[h].settled
            && (s.entries[h].mode == PendingMode ==> t.entries[h].completion == Some(DefaultReject(s.entries[h].kind))))
      && (!(Listed(h, s.entries, s.pending) && s.entries[h].status == Pending && now - s.entries[h].createdAt >= maxAge) ==>
            t.entries[h] == s.entries[h])
      && t.pending == s.pending && t.byId == s.byId && t.policies == s.policies
  {
    hide Inv, ExpireFirst, DefaultReject, Listed, Forward, EntryOk;
    ExpireFirstExact(s, |s.pending|, now - maxAge, later, h);
    ExpireFirstKeeps(s, |s.pending|, now - maxAge, later);
    ListedMeans(s, h);
    PendingUnsettled(s, h);
  }

  lemma ListedMeans(s: State, h: nat)
    requires Inv(s) && h < |s.entries|
    ensures Listed(h, s.entries, s.pending) <==> exists i :: 0 <= i < |s.pending| && s.pending[i].1 == h
  {
    if Listed(h, s.entries, s.pending) {
      var i :| 0 <= i < |s.pending| && s.pending[i] == (s.entries[h].id, h);
      assert s.pending[i].1 == h;
    }
    if i :| 0 <= i < |s.pending| && s.pending[i].1 == h {
      assert s.pending[i] in s.pending && PairOk(s.pending[i], s.byId, s.entries);
      assert s.pending[i] == (s.entries[h].id, h);
    }
  }

  lemma PendingUnsettled(s: State, h: nat)
    requires Inv(s) && h < |s.entries|
    ensures s.entries[h].mode == PendingMode && s.entries[h].status == Pending ==> !s.entries[h].settled
  {
    assert EntryOk(s.entries[h], s.ttl);
  }

  lemma ExpireNeverResolves(s: State, cutoff: int, now: int, h: nat)
    requires var t := ExpireFirst(s, |s.pending|, cutoff, now); h < |t.entries| && t.entries[h].status == Resolved
    ensures h < |s.entries| && s.entries[h].status == Resolved
  {
    ExpireFirstLength(s, |s.pending|, cutoff, now);
    ExpireFirstExact(s, |s.pending|, cutoff, now, h);
  }

  lemma LoseNeverResolves(s: State, now: int, h: nat)
    requires var t := FailAllLost(s, now); h < |t.entries| && t.entries[h].status == Resolved
    ensures h < |s.entries| && s.entries[h].status == Resolved
  {
    if !s.lostFired {
      LoseFirstLength(s.(lostFired := true), |s.pending|, now);
      LoseFirstExact(s.(lostFired := true), |s.pending|, now, h);
    }
  }

  lemma SettleKeepsStatus(s: State, g: nat, outcome: WireOutcome, who: ResolvedBy, h: nat)
    requires g < |s.entries|
    ensures var t := Settle(s, g, outcome, who);
      |t.entries| == |s.entries| && (h < |s.entries| ==> t.entries[h].status == s.entries[h].status)
  {
  }

  lemma ContinueKeepsStatus(s: State, g: nat, h: nat)
    ensures var t := Continue(s, g);
      |t.entries| == |s.entries| && (h < |s.entries| ==> t.entries[h].status == s.entries[h].status)
  {
  }

  lemma LoseStepStatus(s: State, g: nat, now: int, h: nat)
    ensures var t := LoseStep(s, g, now);
      |t.entries| == |s.entries|
      && (h < |s.entries| ==> t.entries[h].status in {s.entries[h].status, TransportLost})
  {
    if g < |s.entries| && s.entries[g].status == Pending {
      var e := ClosedRecord(s.entries[g], TransportLost, now);
      SettleKeepsStatus(s.(entries := s.entries[g := e]), g, DefaultReject(e.kind), BySystem(TransportLost), h);
    }
  }

  lemma MapStepsKeepEntries(s: State, op: Op)
    requires op.OpBind? || op.OpPrune? || Administrative(op)
    ensures Apply(s, op).entries == s.entries
  {
  }

  /** No step but `resolve` makes a record resolved. */
  lemma OthersNeverResolve(s: State, op: Op, h: nat)
    requires !op.OpResolve? && h < |Apply(s, op).entries| && Apply(s, op).entries[h].status == Resolved
    ensures h < |s.entries| && s.entries[h].status == Resolved
  {
    if op.OpExpire? {
      ExpireNeverResolves(s, op.now - op.maxAge, op.later, h);
    } else if op.OpFailAll? {
      LoseNeverResolves(s, op.now, h);
    } else if op.OpBind? || op.OpPrune? || Administrative(op) {
      MapStepsKeepEntries(s, op);
    } else {
      match op
      case OpArrive(id, m, now) =>
      case OpHandlerDone(g, outcome) =>
        if g < |s.entries| { SettleKeepsStatus(s, g, outcome, ByHandler, h); }
      case OpContinue(g) => ContinueKeepsStatus(s, g, h);
      case OpFailOne(a, now) => if a in s.byId { LoseStepStatus(s, s.byId[a], now, h); }
    }
  }

  predicate NewlyResolved(before: seq<Entry>, after: seq<Entry>, h: nat) {
    && h < |after| && after[h].status == Resolved
    && (h < |before| ==> before[h].status != Resolved)
  }

  /** The record carries this click's actor and decision. */
  predicate Bears(e: Entry, c: Click, later: int) {
    e.actor == Some(c.actor) && e.decision == Some(ActionToDecision(c.action)) && e.decidedAt == Some(later)
  }

  /** Only a good click makes a record resolved. */
  lemma OnlyClicksResolve(s: State, op: Op, h: nat)
    requires Inv(s)
    ensures NewlyResolved(s.entries, Apply(s, op).entries, h) ==>
      op.OpResolve? && Grants(s, op.click, op.now, h) && Bears(Apply(s, op).entries[h], op.click, op.later)
  {
    if NewlyResolved(s.entries, Apply(s, op).entries, h) {
      if op.OpResolve? {
        OkMeansWon(s, op.click, op.now, op.later);
        ResolveTouches(s, op.click, op.now, op.later, h);
      } else {
        OthersNeverResolve(s, op, h);
      }
    }
  }

  lemma ResolveTouches(s: State, c: Click, now: int, later: int, h: nat)
    requires NewlyResolved(s.entries, Resolve(s, c, now, later).0.entries, h)
    ensures Resolve(s, c, now, later).1.Ok? && c.approvalId in s.byId && s.byId[c.approvalId] == h
    ensures Bears(Resolve(s, c, now, later).0.entries[h], c, later)
  {
    hide MapDecision, ActorAllowed, SystemClose, Grant, ActionToDecision;
    if c.approvalId in s.byId && s.byId[c.approvalId] < |s.entries| {
      var g := s.byId[c.approvalId];
      if h < |SystemClose(s, g, Expired, now).entries| { ExpiryNeverResolves(s, g, now, h); }
      forall outcome ensures GrantResolvesOnly(s, Grant(s, g, c, outcome, later), g, c, later) {
        GrantIsExact(s, g, c, outcome, later);
      }
    }
  }

  /** `t` is `s` with entry `g` resolved by this click. */
  predicate GrantResolvesOnly(s: State, t: State, g: nat, c: Click, later: int) {
    && g < |s.entries| && |t.entries| == |s.entries|
    && (forall h :: 0 <= h < |s.entries| && h != g ==> t.entries[h] == s.entries[h])
    && Bears(t.entries[g], c, later)
  }

  lemma GrantIsExact(s: State, g: nat, c: Click, outcome: WireOutcome, later: int)
    requires g < |s.entries|
    ensures GrantResolvesOnly(s, Grant(s, g, c, outcome, later), g, c, later)
  {
    hide ActionToDecision;
  }

  lemma ExpiryNeverResolves(s: State, g: nat, now: int, h: nat)
    requires g < |s.entries| && h < |SystemClose(s, g, Expired, now).entries|
    requires h < |s.entries| ==> s.entries[h].status != Resolved
    ensures SystemClose(s, g, Expired, now).entries[h].status != Resolved
  {
    hide DefaultReject;
  }

  lemma {:induction false} ExpireFirstLength(s: State, n: nat, cutoff: int, now: int)
    requires n <= |s.pending|
    ensures |ExpireFirst(s, n, cutoff, now).entries| == |s.entries|
  {
    if n > 0 { ExpireFirstLength(s, n - 1, cutoff, now); }
  }

  lemma {:induction false} LoseFirstLength(s: State, n: nat, now: int)
    requires n <= |s.pending|
    ensures |LoseFirst(s, n, now).entries| == |s.entries|
  {
    if n > 0 { LoseFirstLength(s, n - 1, now); }
  }

  /** Operation `k` of the run was the click that resolved entry `h`. */
  predicate ResolvedAt(s0: State, ops: seq<Op>, k: int, h: nat)
    requires 0 <= k < |ops|
  {
    var s, op := Run(s0, ops), ops[k];
    && op.OpResolve? && Grants(Run(s0, ops[..k]), op.click, op.now, h)
    && h < |s.entries| && Bears(s.entries[h], op.click, op.later)
  }

  /** A resolved record goes back to one click of the run: made before the expiry,
      by an allowed actor, at the bound target, with the bound nonce. */
  lemma {:induction false} Provenance(s0: State, ops: seq<Op>, h: nat)
    requires Inv(s0) && s0.entries == [] && LegalRun(s0, ops)
    requires h < |Run(s0, ops).entries| && Run(s0, ops).entries[h].status == Resolved
    ensures exists k :: 0 <= k < |ops| && ResolvedAt(s0, ops, k, h)
  {
    if ops != [] {
      hide Inv, Grants, Apply, Legal, Bears;
      var n := |ops| - 1;
      var front := ops[..n];
      var t := Run(s0, front);
      RunKeeps(s0, front);
      ApplyKeeps(t, ops[n]);
      if h < |t.entries| && t.entries[h].status == Resolved {
        Provenance(s0, front, h);
        var k :| 0 <= k < |front| && ResolvedAt(s0, front, k, h);
        assert front[..k] == ops[..k];
        assert Advances(t.entries[h], Run(s0, ops).entries[h]);
        assert ResolvedAt(s0, ops, k, h);
      } else {
        OnlyClicksResolve(t, ops[n], h);
        assert ResolvedAt(s0, ops, n, h);
      }
    }
  }

  lemma RejectionNeverApproves(m: Method)
    ensures !Approves(DefaultReject(m))
  {
  }

  /** The agent gets leave to go ahead on a pending-mode request only if an
      allowed actor clicked an allowing button in time, and then exactly that
      button's answer. */
  lemma ApprovalNeedsClick(s0: State, ops: seq<Op>, h: nat)
    requires Inv(s0) && s0.entries == [] && LegalRun(s0, ops) && h < |Run(s0, ops).entries|
    requires var e := Run(s0, ops).entries[h];
      e.mode == PendingMode && e.completion.Some? && Approves(e.completion.value)
    ensures var e := Run(s0, ops).entries[h];
      exists k :: 0 <= k < |ops| && ResolvedAt(s0, ops, k, h)
        && ops[k].click.action in {AllowOnce, AllowSession}
        && e.completion == ClickOutcome(e.kind, ops[k].click.action)
  {
    hide Run, Legal, LegalRun, MapDecision, ClickOutcome, Approves, DefaultReject;
    RunKeeps(s0, ops);
    var e := Run(s0, ops).entries[h];
    assert EntryOk(e, Run(s0, ops).ttl);
    RejectionNeverApproves(e.kind);
    assert e.status == Resolved;
    Provenance(s0, ops, h);
    var k :| 0 <= k < |ops| && ResolvedAt(s0, ops, k, h);
    assert ActionOf(e.decision.value) == ops[k].click.action;
    ApprovingButton(e.kind, ops[k].click.action);
  }

  lemma ApprovingButton(m: Method, a: UiAction)
    requires ClickOutcome(m, a).Some? && Approves(ClickOutcome(m, a).value)
    ensures a in {AllowOnce, AllowSession}
  {
  }

  /** A bound policy stays as it is until a prune removes its record. */
  lemma {:induction false} PolicyFixed(s: State, ops: seq<Op>, approvalId: string)
    requires approvalId in s.policies && forall i :: 0 <= i < |ops| ==> !ops[i].OpPrune?
    ensures approvalId in Run(s, ops).policies && Run(s, ops).policies[approvalId] == s.policies[approvalId]
  {
    if ops != [] {
      var front := ops[..|ops| - 1];
      hide Apply;
      PolicyFixed(s, front, approvalId);
      PolicyStays(Run(s, front), ops[|ops| - 1], approvalId);
    }
  }

  lemma PolicyStays(t: State, op: Op, approvalId: string)
    requires approvalId in t.policies && !op.OpPrune?
    ensures approvalId in Apply(t, op).policies && Apply(t, op).policies[approvalId] == t.policies[approvalId]
  {
    hide MapDecision, DefaultReject, ActorAllowed, RecordId, Put, Drop, ModeOf, ExpireFirst, LoseFirst, SystemClose, Settle;
    match op
    case OpExpire(now, maxAge, later) => ExpireFirstMaps(t, |t.pending|, now - maxAge, later);
    case OpFailAll(now) => LoseFirstMaps(t.(lostFired := true), |t.pending|, now);
    case OpFailOne(a, now) => if a in t.byId { LoseStepMaps(t, t.byId[a], now); }
    case OpResolve(c, now, later) => ResolveMaps(t, c, now, later);
    case OpHandlerDone(h, outcome) => if h < |t.entries| { SettleMaps(t, h, outcome, ByHandler); }
    case _ =>
  }

  lemma SettleMaps(s: State, h: nat, outcome: WireOutcome, who: ResolvedBy)
    requires h < |s.entries|
    ensures SameMaps(s, Settle(s, h, outcome, who))
  {
  }

  lemma LoseStepMaps(s: State, h: nat, now: int)
    ensures SameMaps(s, LoseStep(s, h, now))
  {
    hide DefaultReject;
  }

  lemma ResolveMaps(s: State, c: Click, now: int, later: int)
    ensures SameMaps(s, Resolve(s, c, now, later).0)
  {
    hide MapDecision, ActorAllowed, SystemClose, Grant;
    if c.approvalId in s.byId && s.byId[c.approvalId] < |s.entries| {
      ExpiryOrGrantMaps(s, s.byId[c.approvalId], c, now, later);
    }
  }

  lemma ExpiryOrGrantMaps(s: State, h: nat, c: Click, now: int, later: int)
    requires h < |s.entries|
    ensures SameMaps(s, SystemClose(s, h, Expired, now))
    ensures forall outcome :: SameMaps(s, Grant(s, h, c, outcome, later))
  {
    hide DefaultReject;
  }

  lemma {:induction false} ExpireFirstMaps(s: State, n: nat, cutoff: int, now: int)
    requires n <= |s.pending|
    ensures SameMaps(s, ExpireFirst(s, n, cutoff, now))
  {
    hide ExpireStep;
    if n > 0 {
      ExpireFirstMaps(s, n - 1, cutoff, now);
      ExpireStepMaps(ExpireFirst(s, n - 1, cutoff, now), s.pending[n - 1].1, cutoff, now);
    }
  }

  lemma ExpireStepMaps(s: State, h: nat, cutoff: int, now: int)
    ensures SameMaps(s, ExpireStep(s, h, cutoff, now))
  {
    hide DefaultReject;
  }

  lemma {:induction false} LoseFirstMaps(s: State, n: nat, now: int)
    requires n <= |s.pending|
    ensures SameMaps(s, LoseFirst(s, n, now))
  {
    hide LoseStep;
    if n > 0 {
      LoseFirstMaps(s, n - 1, now);
      LoseStepMaps(LoseFirst(s, n - 1, now), s.pending[n - 1].1, now);
    }
  }

  /** Terminal records never change again; decisions exist exactly on them. */
  lemma TerminalAbsorbing(s0: State, ops: seq<Op>, later: seq<Op>, h: nat)
    requires Inv(s0) && LegalRun(s0, ops) && LegalRun(Run(s0, ops), later) && h < |Run(s0, ops).entries|
    ensures var e := Run(s0, ops).entries[h];
      && (e.status == Pending <==> e.decision == None) && (e.status == Pending <==> e.decidedAt == None)
      && h < |Run(Run(s0, ops), later).entries|
      && (e.status != Pending ==>
            var f := Run(Run(s0, ops), later).entries[h];
            f.status == e.status && f.decision == e.decision && f.actor == e.actor && f.decidedAt == e.decidedAt)
  {
    RunKeeps(s0, ops);
    RunKeeps(Run(s0, ops), later);
    assert EntryOk(Run(s0, ops).entries[h], Run(s0, ops).ttl);
    assert Advances(Run(s0, ops).entries[h], Run(Run(s0, ops), later).entries[h]);
  }

  // ---- rejected clicks ------------------------------------------------

  /** A click turned down for any reason but the expiry it ran into itself. */
  predicate Rejected(s: State, op: Op) {
    op.OpResolve? &&
    var r := Resolve(s, op.click, op.now, op.later).1;
    r.Err? && !r.error.ExpiredNow?
  }

  function WithoutRejected(s: State, ops: seq<Op>): seq<Op> {
    if ops == [] then []
    else
      var front, z := ops[..|ops| - 1], ops[|ops| - 1];
      if Rejected(Run(s, front), z) then WithoutRejected(s, front) else WithoutRejected(s, front) + [z]
  }

  lemma RejectedIsInert(s: State, op: Op)
    requires Rejected(s, op)
    ensures Apply(s, op) == s
  {
  }

  lemma RunSnoc(s: State, ops: seq<Op>, z: Op)
    ensures Run(s, ops + [z]) == Apply(Run(s, ops), z)
  {
    assert (ops + [z])[..|ops|] == ops;
  }

  /** Rejected clicks leave no trace: a run without them ends in the same state. */
  lemma {:induction false} RejectedClicksVanish(s: State, ops: seq<Op>)
    ensures Run(s, WithoutRejected(s, ops)) == Run(s, ops)
  {
    if ops != [] {
      var front, z := ops[..|ops| - 1], ops[|ops| - 1];
      RejectedClicksVanish(s, front);
      RunSnoc(s, WithoutRejected(s, front), z);
      if Rejected(Run(s, front), z) { RejectedIsInert(Run(s, front), z); }
    }
  }

  // ---- indexes and generations ----------------------------------------

  /** The main map re-keyed by record id. */
  function ReKey(pending: seq<(RequestId, nat)>, entries: seq<Entry>): map<string, nat> {
    if pending == [] then map[]
    else
      var p := pending[|pending| - 1];
      var rest := ReKey(pending[..|pending| - 1], entries);
      if p.1 < |entries| then rest[entries[p.1].recordId := p.1] else rest
  }

  lemma {:induction false} ReKeyLookup(pending: seq<(RequestId, nat)>, byId: map<string, nat>, entries: seq<Entry>)
    requires forall i :: 0 <= i < |pending| ==> PairOk(pending[i], byId, entries)
    ensures forall k :: k in ReKey(pending, entries) ==> k in byId && ReKey(pending, entries)[k] == byId[k]
    ensures forall i :: 0 <= i < |pending| ==>
      pending[i].1 < |entries| && entries[pending[i].1].recordId in ReKey(pending, entries)
  {
    if pending != [] {
      var front := pending[..|pending| - 1];
      ReKeyLookup(front, byId, entries);
      forall i | 0 <= i < |pending|
        ensures pending[i].1 < |entries| && entries[pending[i].1].recordId in ReKey(pending, entries)
      {
        assert PairOk(pending[i], byId, entries);
        if i < |front| { assert entries[front[i].1].recordId in ReKey(front, entries); }
      }
    }
  }

  lemma ReKeyIs(pending: seq<(RequestId, nat)>, byId: map<string, nat>, entries: seq<Entry>)
    requires IndexOk(pending, byId, entries)
    ensures byId == ReKey(pending, entries)
  {
    forall i | 0 <= i < |pending| ensures PairOk(pending[i], byId, entries) {
      assert pending[i] in pending;
    }
    ReKeyLookup(pending, byId, entries);
    forall k | k in byId ensures k in ReKey(pending, entries) {
      assert KeyOk(k, byId[k], pending, entries);
      var i :| 0 <= i < |pending| && pending[i] == (entries[byId[k]].id, byId[k]);
      assert entries[pending[i].1].recordId == k;
    }
  }

  lemma NothingOwed(s: State)
    requires Inv(s) && NonePending(s.entries, s.pending)
    ensures forall h :: 0 <= h < |s.entries| ==> s.entries[h].settled
  {
    forall h | 0 <= h < |s.entries| ensures s.entries[h].settled {
      assert EntryOk(s.entries[h], s.ttl);
      if Listed(h, s.entries, s.pending) {
        var i :| 0 <= i < |s.pending| && s.pending[i] == (s.entries[h].id, h);
        assert s.entries[s.pending[i].1].status != Pending;
      }
    }
  }

  /** In every reachable state the two indexes agree, an unanswered request is
      in them, and once transport loss has fired nothing is pending or unanswered. */
  lemma IndexAgreement(s0: State, ops: seq<Op>)
    requires Inv(s0) && LegalRun(s0, ops)
    ensures var s := Run(s0, ops);
      && s.byId == ReKey(s.pending, s.entries)
      && (forall h :: 0 <= h < |s.entries| && !s.entries[h].settled ==> Listed(h, s.entries, s.pending))
      && (s.lostFired ==> NonePending(s.entries, s.pending))
      && (s.lostFired ==> forall h :: 0 <= h < |s.entries| ==> s.entries[h].settled)
  {
    RunKeeps(s0, ops);
    var s := Run(s0, ops);
    ReKeyIs(s.pending, s.byId, s.entries);
    if s.lostFired { NothingOwed(s); }
  }

  /** Moving to a new client keeps every record and index and re-arms transport loss. */
  lemma ReattachRearms(s: State, client: nat, now: int)
    requires Inv(s) && Reattach(s, client).1
    ensures var t := Reattach(s, client).0;
      && t.entries == s.entries && t.pending == s.pending && t.byId == s.byId && t.policies == s.policies
      && !t.lostFired && client in t.claimed
      && (s.client != client && s.client !in t.claimed)
      && NonePending(FailAllLost(t, now).entries, t.pending)
  {
    FlagsKeep(s, Reattach(s, client).0);
    FailAllKeeps(Reattach(s, client).0, now);
  }

  /** Two ids become the same record id if and only if they are the same, or one
      is a number and the other its decimal spelling. */
  lemma RecordIdCollision(x: RequestId, y: RequestId)
    ensures RecordId(x) == RecordId(y) <==> x == y || SpelledOut(x, y) || SpelledOut(y, x)
  {
    var a, b := RecordId(x), RecordId(y);
    assert a[9..] == ShowId(x) && b[9..] == ShowId(y);
    if x.NumId? && y.NumId? { ShowIntTells(x.n, y.n); }
  }

  predicate SpelledOut(x: RequestId, y: RequestId) { x.NumId? && y.StrId? && y.s == ShowInt(x.n) }
}

/** What goes out on the wire, and why: every answer of a run goes back to one step
    of it, and says to the agent what the record says. */
module BrokerAnswers {
  import opened Basics
  import opened OrderedMap
  import opened BrokerModel
  import opened BrokerInvariant
  import opened BrokerRuns

  // ---- how the agent reads a response ---------------------------------

  datatype Meaning = Go | GoForSession | No | Stop

  /** What the agent takes a response to a request of this kind to mean. */
  function Heard(m: Method, w: WireOutcome): Option<Meaning> {
    match (m, w)
    case (_, WireReject(_)) => None
    case (CommandExecution, WireResolve(Word(x))) => ReviewHeard(x)
    case (FileChange, WireResolve(Word(x))) => ReviewHeard(x)
    case (LegacyApplyPatch, WireResolve(Word(x))) => LegacyHeard(x)
    case (LegacyExecCommand, WireResolve(Word(x))) => LegacyHeard(x)
    case (Permissions, WireResolve(NoExtraPermissions)) => Some(No)
    case (ToolUserInput, WireResolve(NoAnswers)) => Some(No)
    case (ToolCall, WireResolve(FailedToolCall)) => Some(No)
    case (McpElicitation, WireResolve(ElicitationAnswer(x))) =>
      if x == "decline" then Some(No) else if x == "cancel" then Some(Stop) else None
    case (_, WireResolve(_)) => None
  }

  function ReviewHeard(word: string): Option<Meaning> {
    if word == "accept" then Some(Go)
    else if word == "acceptForSession" then Some(GoForSession)
    else if word == "decline" then Some(No)
    else if word == "cancel" then Some(Stop)
    else None
  }

  function LegacyHeard(word: string): Option<Meaning> {
    if word == "approved" then Some(Go)
    else if word == "approved_for_session" then Some(GoForSession)
    else if word == "denied" then Some(No)
    else if word == "abort" then Some(Stop)
    else None
  }

  /** What the button asks for, and what a record's decision stands for. */
  function Asked(a: UiAction): Meaning {
    match a
    case AllowOnce => Go
    case AllowSession => GoForSession
    case Decline => No
    case Abort => Stop
  }

  function Meant(d: Decision): Meaning {
    match d
    case Approved => Go
    case ApprovedForSession => GoForSession
    case Denied(_) => No
    case Aborted => Stop
  }

  /** The kinds whose requests can be answered with each of the four buttons. */
  predicate TakesAnyButton(m: Method) {
    m.CommandExecution? || m.FileChange? || m.LegacyApplyPatch? || m.LegacyExecCommand?
  }

  /** Can this button be used on such a request? */
  predicate Offered(m: Method, a: UiAction) {
    || TakesAnyButton(m)
    || m.AuthTokenRefresh?
    || (a.Decline? && !m.UnknownMethod?)
    || (a.Abort? && m.McpElicitation?)
  }

  /** A click is heard as the button that was pressed, and recorded as that. */
  lemma ClickIsHeard(m: Method, a: UiAction)
    ensures ClickOutcome(m, a).Some? <==> Offered(m, a)
    ensures Offered(m, a) && !m.AuthTokenRefresh? ==> Heard(m, ClickOutcome(m, a).value) == Some(Asked(a))
    ensures m.AuthTokenRefresh? ==> ClickOutcome(m, a) == Some(WireReject(NotSupported))
    ensures Meant(ActionToDecision(a)) == Asked(a)
  {
  }

  /** The default rejection is heard as a no, for an elicitation as a stop. */
  predicate HeardAsRejection(m: Method, w: WireOutcome) {
    if m.AuthTokenRefresh? || m.UnknownMethod? then w == WireReject(NotSupported)
    else Heard(m, w) == Some(if m.McpElicitation? then Stop else No)
  }

  lemma RejectionIsHeard(m: Method)
    ensures HeardAsRejection(m, DefaultReject(m))
  {
  }

  /** Only leave to go ahead is heard as that. */
  lemma LeaveIsHeard(m: Method, w: WireOutcome)
    ensures Heard(m, w) in {Some(Go), Some(GoForSession)} ==> Approves(w)
    ensures HeardAsRejection(m, w) ==> !Approves(w)
  {
  }

  // ---- immediate answers ----------------------------------------------

  /** The mode a method was last given in a run, if any. */
  function LastMode(ops: seq<Op>, m: Method): Option<Mode> {
    if ops == [] then None
    else
      var op := ops[|ops| - 1];
      if op.OpSetMode? && op.m == m && !m.UnknownMethod? then Some(op.mode) else LastMode(ops[..|ops| - 1], m)
  }

  /** The parts of the state that only two kinds of steps touch. */
  predicate SameSettings(s: State, t: State) { t.ttl == s.ttl && t.modes == s.modes }

  lemma StepSettings(s: State, op: Op)
    ensures Apply(s, op).ttl == s.ttl
    ensures Apply(s, op).modes == if op.OpSetMode? && !op.m.UnknownMethod? then s.modes[op.m := op.mode] else s.modes
  {
    hide MapDecision, DefaultReject, ActorAllowed, RecordId, Put, Drop, ModeOf, ExpireFirst, LoseFirst, SystemClose, Settle,
         Remove, SortByTime;
    match op
    case OpExpire(now, maxAge, later) => ExpireFirstMaps(s, |s.pending|, now - maxAge, later);
    case OpFailAll(now) => LoseFirstMaps(s.(lostFired := true), |s.pending|, now);
    case OpFailOne(a, now) => if a in s.byId { LoseStepMaps(s, s.byId[a], now); }
    case OpResolve(c, now, later) => ResolveMaps(s, c, now, later);
    case OpHandlerDone(h, outcome) => if h < |s.entries| { SettleMaps(s, h, outcome, ByHandler); }
    case OpPrune(now, maxAge, maxCount, batch) => PruneSettings(s, now, maxAge, maxCount, batch);
    case _ =>
  }

  lemma PruneSettings(s: State, now: int, maxAge: int, maxCount: nat, batch: nat)
    ensures SameSettings(s, Prune(s, now, maxAge, maxCount, batch).0)
  {
    hide SortByTime, Terminals;
  }

  lemma {:induction false} SettingsFollow(client: nat, ttl: int, claimed: set<nat>, ops: seq<Op>, m: Method)
    ensures var s := Run(Init(client, ttl, claimed), ops);
      s.ttl == ttl && (if m in s.modes then LastMode(ops, m) == Some(s.modes[m]) else LastMode(ops, m) == None)
  {
    hide Apply;
    if ops != [] {
      SettingsFollow(client, ttl, claimed, ops[..|ops| - 1], m);
      StepSettings(Run(Init(client, ttl, claimed), ops[..|ops| - 1]), ops[|ops| - 1]);
    }
  }

  predicate RejectsAtOnce(ops: seq<Op>, m: Method) {
    m.UnknownMethod? || LastMode(ops, m) in {None, Some(DefaultRejectMode)}
  }

  /** The record of a request that just came in. */
  predicate IsNew(e: Entry, id: RequestId, m: Method, mode: Mode, now: int, ttl: int) {
    && e.id == id && e.recordId == "approval-" + ShowId(id) && e.kind == m && e.mode == mode
    && e.status == Pending && !e.settled && !e.returned && e.completion == None
    && e.actor == None && e.decision == None && e.decidedAt == None
    && e.createdAt == now && e.expiresAt == now + ttl
  }

  /** A request is answered at once if and only if its method is unknown or was last
      set to reject, or never set at all. The answer is then a rejection and nothing
      changes; any other request gets a record of its own in both indexes. */
  lemma ArrivalAnswers(client: nat, ttl: int, claimed: set<nat>, ops: seq<Op>, id: RequestId, m: Method, now: int)
    requires var s := Run(Init(client, ttl, claimed), ops);
      LegalRun(Init(client, ttl, claimed), ops) && Legal(s, OpArrive(id, m, now))
    ensures var s := Run(Init(client, ttl, claimed), ops);
      var (t, r) := Arrive(s, id, m, now);
      && (r.Immediate? <==> RejectsAtOnce(ops, m))
      && (r.Immediate? ==> t == s && HeardAsRejection(m, r.outcome) && !Approves(r.outcome))
      && (r.Waiting? ==>
            && r.handle == |s.entries| && |t.entries| == |s.entries| + 1 && t.entries[..r.handle] == s.entries
            && IsNew(t.entries[r.handle], id, m, LastMode(ops, m).value, now, ttl)
            && t.pending == s.pending + [(id, r.handle)]
            && t.byId == s.byId[t.entries[r.handle].recordId := r.handle]
            && t.policies == s.policies && t.observed == s.observed)
  {
    var s0 := Init(client, ttl, claimed);
    var s := Run(s0, ops);
    SettingsFollow(client, ttl, claimed, ops, m);
    RejectionIsHeard(m);
    LeaveIsHeard(m, DefaultReject(m));
    InitInv(client, ttl, claimed);
    RunKeeps(s0, ops);
    if Arrive(s, id, m, now).1.Waiting? { FreshIsListed(s, id, m, now); }
    hide Run, LegalRun, Inv, LastMode, DefaultReject, Heard, RecordId, Put;
    assert RecordId(id) == "approval-" + ShowId(id) by { RecordIdIs(id); }
  }

  lemma RecordIdIs(id: RequestId)
    ensures RecordId(id) == "approval-" + ShowId(id)
  {
  }

  lemma FreshIsListed(s: State, id: RequestId, m: Method, now: int)
    requires Inv(s) && Legal(s, OpArrive(id, m, now))
    ensures Put<RequestId, nat>(s.pending, id, |s.entries|) == s.pending + [(id, |s.entries|)]
  {
    var e := FreshEntry(s, id, m, now);
    forall h | 0 <= h < |s.entries| ensures Differ(s.entries[h], e) {}
    ArriveIndex(s.entries, s.pending, s.byId, e);
  }

  /** The immediate answer is the one an expiry sweep gives a waiting request of that kind. */
  lemma ImmediateIsExpiry(s: State, id: RequestId, m: Method, now: int, u: State, at: int, maxAge: int, later: int, h: nat)
    requires Inv(u) && h < |u.entries| && Arrive(s, id, m, now).1.Immediate?
    requires u.entries[h].kind == m && u.entries[h].mode == PendingMode && u.entries[h].status == Pending
    requires Listed(h, u.entries, u.pending) && at - u.entries[h].createdAt >= maxAge
    ensures var v := ExpirePending(u, at, maxAge, later).0;
      h < |v.entries| && v.entries[h].completion == Some(Arrive(s, id, m, now).1.outcome)
  {
    hide Inv, Listed, RecordId, Put, ExpireFirst, DueCount;
    ExpireExact(u, at, maxAge, later, h);
  }

  // ---- every answer has a cause ---------------------------------------

  predicate NewlySettled(before: seq<Entry>, after: seq<Entry>, h: nat) {
    h < |after| && after[h].settled && (h < |before| ==> !before[h].settled)
  }

  /** The broker's own answer to a request whose time or transport is over. */
  predicate RejectedBySystem(e: Entry) {
    e.completion.Some? && HeardAsRejection(e.kind, e.completion.value)
  }

  /** Operation `op`, done in state `s`, is why entry `h` carries its answer, and this
      is what the observers are told about it. */
  predicate Causes(s: State, op: Op, e: Entry, h: nat, who: ResolvedBy) {
    match op
    case OpHandlerDone(g, outcome) =>
      g == h && e.mode == HandlerMode && e.completion == Some(outcome) && who == ByHandler
    case OpResolve(c, now, _) =>
      if who == BySystem(Expired) then c.approvalId == e.recordId && now >= e.expiresAt && RejectedBySystem(e)
      else Grants(s, c, now, h) && e.completion == ClickOutcome(e.kind, c.action) && who == ByUser(c.action, c.actor)
    case OpExpire(now, maxAge, _) =>
      now - e.createdAt >= maxAge && RejectedBySystem(e) && who == BySystem(Expired)
    case OpFailAll(_) => RejectedBySystem(e) && who == BySystem(TransportLost)
    case OpFailOne(a, _) => a == e.recordId && RejectedBySystem(e) && who == BySystem(TransportLost)
    case _ => false
  }

  predicate Observed(s: State, h: nat, who: ResolvedBy) { (h, who) in s.observed }

  /** Settling the one entry `h` by `who`, or nothing, and telling the observers. */
  ghost predicate SettlesOnly(s: State, t: State, h: nat, who: ResolvedBy) {
    && s.observed <= t.observed
    && (forall g: nat :: NewlySettled(s.entries, t.entries, g) ==> g == h && Observed(t, h, who))
  }

  lemma SettleTells(s: State, h: nat, outcome: WireOutcome, who: ResolvedBy)
    requires h < |s.entries|
    ensures SettlesOnly(s, Settle(s, h, outcome, who), h, who)
  {
    var t := Settle(s, h, outcome, who);
    if t.observed != s.observed { assert t.observed[|s.observed|] == (h, who); }
  }

  lemma SameSettled(s: State, u: State, t: State, h: nat, who: ResolvedBy)
    requires SettlesOnly(u, t, h, who) && s.observed == u.observed && |s.entries| == |u.entries|
    requires forall g :: 0 <= g < |s.entries| ==> s.entries[g].settled == u.entries[g].settled
    ensures SettlesOnly(s, t, h, who)
  {
    forall g: nat | NewlySettled(s.entries, t.entries, g) ensures g == h && Observed(t, h, who) {
      assert NewlySettled(u.entries, t.entries, g);
    }
  }

  lemma SystemCloseTells(s: State, h: nat, status: Status, now: int)
    requires h < |s.entries|
    ensures SettlesOnly(s, SystemClose(s, h, status, now), h, BySystem(status))
  {
    hide Settle, SettlesOnly, DefaultReject;
    var e := ClosedRecord(s.entries[h], status, now);
    var u := s.(entries := s.entries[h := e]);
    SettleTells(u, h, DefaultReject(e.kind), BySystem(status));
    SameSettled(s, u, SystemClose(s, h, status, now), h, BySystem(status));
  }

  /** All a sweep settles it settles in the name of `status`. */
  ghost predicate SweepTells(s: State, t: State, status: Status) {
    && s.observed <= t.observed
    && (forall g: nat :: NewlySettled(s.entries, t.entries, g) ==> Observed(t, g, BySystem(status)))
  }

  lemma SweepTellsMore(s: State, t: State, u: State, h: nat, status: Status)
    requires SweepTells(s, t, status) && SettlesOnly(t, u, h, BySystem(status)) && |s.entries| == |t.entries| == |u.entries|
    ensures SweepTells(s, u, status)
  {
    forall g: nat | NewlySettled(s.entries, u.entries, g) ensures Observed(u, g, BySystem(status)) {
      if t.entries[g].settled {
        assert NewlySettled(s.entries, t.entries, g) && Observed(t, g, BySystem(status));
        var i :| 0 <= i < |t.observed| && t.observed[i] == (g, BySystem(status));
        assert u.observed[i] == (g, BySystem(status));
      } else {
        assert NewlySettled(t.entries, u.entries, g);
      }
    }
  }

  lemma NothingTold(s: State, h: nat, who: ResolvedBy, status: Status)
    ensures SettlesOnly(s, s, h, who) && SweepTells(s, s, status)
  {
  }

  lemma {:induction false} ExpireTells(s: State, n: nat, cutoff: int, now: int)
    requires n <= |s.pending|
    ensures SweepTells(s, ExpireFirst(s, n, cutoff, now), Expired)
  {
    hide SweepTells, SettlesOnly, SystemClose;
    NothingTold(s, 0, ByHandler, Expired);
    if n > 0 {
      ExpireTells(s, n - 1, cutoff, now);
      var t, h := ExpireFirst(s, n - 1, cutoff, now), s.pending[n - 1].1;
      NothingTold(t, h, BySystem(Expired), Expired);
      if h < |t.entries| { SystemCloseTells(t, h, Expired, now); }
      ExpireFirstLength(s, n - 1, cutoff, now);
      ExpireFirstLength(s, n, cutoff, now);
      SweepTellsMore(s, t, ExpireFirst(s, n, cutoff, now), h, Expired);
    }
  }

  lemma {:induction false} LoseTells(s: State, n: nat, now: int)
    requires n <= |s.pending|
    ensures SweepTells(s, LoseFirst(s, n, now), TransportLost)
  {
    hide SweepTells, SettlesOnly, SystemClose;
    NothingTold(s, 0, ByHandler, TransportLost);
    if n > 0 {
      LoseTells(s, n - 1, now);
      var t, h := LoseFirst(s, n - 1, now), s.pending[n - 1].1;
      NothingTold(t, h, BySystem(TransportLost), TransportLost);
      if h < |t.entries| { SystemCloseTells(t, h, TransportLost, now); }
      LoseFirstLength(s, n - 1, now);
      LoseFirstLength(s, n, now);
      SweepTellsMore(s, t, LoseFirst(s, n, now), h, TransportLost);
    }
  }

  /** What a step adds to the answers: each has the step as its cause. */
  ghost predicate StepCauses(s: State, op: Op, t: State) {
    && s.observed <= t.observed
    && (forall h: nat :: NewlySettled(s.entries, t.entries, h) ==>
          exists who :: Observed(t, h, who) && Causes(s, op, t.entries[h], h, who))
  }

  lemma QuietCauses(s: State, op: Op, t: State)
    requires t.observed == s.observed
    requires forall h :: 0 <= h < |t.entries| && t.entries[h].settled ==> h < |s.entries| && s.entries[h].settled
    ensures StepCauses(s, op, t)
  {
  }

  /** An entry the broker closed just now, unsettled before. */
  lemma ClosedIsRejected(e: Entry, status: Status, now: int)
    requires !e.settled
    ensures RejectedBySystem(Answered(ClosedRecord(e, status, now), DefaultReject(e.kind)))
  {
    RejectionIsHeard(e.kind);
    hide DefaultReject, HeardAsRejection;
  }

  lemma HandlerCauses(s: State, g: nat, outcome: WireOutcome)
    ensures StepCauses(s, OpHandlerDone(g, outcome), HandlerDone(s, g, outcome))
  {
    if g < |s.entries| && s.entries[g].mode == HandlerMode {
      var t := HandlerDone(s, g, outcome);
      SettleTells(s, g, outcome, ByHandler);
      forall h: nat | NewlySettled(s.entries, t.entries, h)
        ensures Observed(t, h, ByHandler) && Causes(s, OpHandlerDone(g, outcome), t.entries[h], h, ByHandler) {}
    } else {
      QuietCauses(s, OpHandlerDone(g, outcome), s);
    }
  }

  predicate SameRequest(e: Entry, f: Entry) {
    && f.id == e.id && f.recordId == e.recordId && f.kind == e.kind && f.mode == e.mode
    && f.createdAt == e.createdAt && f.expiresAt == e.expiresAt
  }

  lemma CloseRejects(s: State, h: nat, status: Status, now: int)
    requires h < |s.entries|
    ensures var t := SystemClose(s, h, status, now);
      && s.observed <= t.observed && |t.entries| == |s.entries| && SameRequest(s.entries[h], t.entries[h])
      && (forall g: nat :: NewlySettled(s.entries, t.entries, g) ==>
            g == h && Observed(t, h, BySystem(status)) && RejectedBySystem(t.entries[h]))
  {
    SystemCloseTells(s, h, status, now);
    SystemCloseExact(s, h, status, now);
    hide SystemClose, RejectedBySystem, DefaultReject;
    if !s.entries[h].settled { ClosedIsRejected(s.entries[h], status, now); }
  }

  lemma GrantSettles(s: State, h: nat, c: Click, outcome: WireOutcome, later: int)
    requires h < |s.entries|
    ensures var t := Grant(s, h, c, outcome, later);
      && s.observed <= t.observed && |t.entries| == |s.entries| && SameRequest(s.entries[h], t.entries[h])
      && (forall g: nat :: NewlySettled(s.entries, t.entries, g) ==>
            g == h && Observed(t, h, ByUser(c.action, c.actor)) && t.entries[h].completion == Some(outcome))
  {
    var u := s.(entries := s.entries[h := GrantedRecord(s.entries[h], c, later)]);
    SettleTells(u, h, outcome, ByUser(c.action, c.actor));
    SameSettled(s, u, Grant(s, h, c, outcome, later), h, ByUser(c.action, c.actor));
    hide ActionToDecision, SettlesOnly;
  }

  lemma GrantCauses(s: State, c: Click, now: int, later: int)
    requires Inv(s) && Resolve(s, c, now, later).1.Ok?
    ensures StepCauses(s, OpResolve(c, now, later), Resolve(s, c, now, later).0)
  {
    hide Resolve, Inv, Grants, ClickOutcome, Grant, ClickAttempted;
    OkMeansWon(s, c, now, later);
    OkGrants(s, c, now, later);
    var h, t := s.byId[c.approvalId], Resolve(s, c, now, later).0;
    var outcome := ClickOutcome(s.entries[h].kind, c.action).value;
    GrantSettles(s, h, c, outcome, later);
    forall g: nat | NewlySettled(s.entries, t.entries, g)
      ensures Observed(t, g, ByUser(c.action, c.actor))
      ensures Causes(s, OpResolve(c, now, later), t.entries[g], g, ByUser(c.action, c.actor)) {}
  }

  lemma OkGrants(s: State, c: Click, now: int, later: int)
    requires Resolve(s, c, now, later).1.Ok?
    ensures c.approvalId in s.byId && s.byId[c.approvalId] < |s.entries|
    ensures var h := s.byId[c.approvalId];
      ClickOutcome(s.entries[h].kind, c.action).Some?
      && Resolve(s, c, now, later).0 == Grant(s, h, c, ClickOutcome(s.entries[h].kind, c.action).value, later)
  {
    hide ActorAllowed, SystemClose, Grant;
  }

  lemma ErrExpiresOrKeeps(s: State, c: Click, now: int, later: int)
    requires Inv(s) && Resolve(s, c, now, later).1.Err?
    ensures var t := Resolve(s, c, now, later).0;
      || t == s
      || (&& c.approvalId in s.byId && s.byId[c.approvalId] < |s.entries|
          && var h := s.byId[c.approvalId];
             s.entries[h].recordId == c.approvalId && now >= s.entries[h].expiresAt && t == SystemClose(s, h, Expired, now))
  {
    hide ActorAllowed, SystemClose, Grant, HistoryOk, PoliciesOk, UnsettledListed, IdsUnique, EntriesOk;
    if c.approvalId in s.byId {
      assert KeyOk(c.approvalId, s.byId[c.approvalId], s.pending, s.entries);
    }
  }

  lemma ErrCauses(s: State, c: Click, now: int, later: int)
    requires Inv(s) && Resolve(s, c, now, later).1.Err?
    ensures StepCauses(s, OpResolve(c, now, later), Resolve(s, c, now, later).0)
  {
    ErrExpiresOrKeeps(s, c, now, later);
    var t, op := Resolve(s, c, now, later).0, OpResolve(c, now, later);
    if t == s {
      QuietCauses(s, op, s);
    } else {
      var h := s.byId[c.approvalId];
      CloseRejects(s, h, Expired, now);
      hide Resolve, Inv, SystemClose, RejectedBySystem;
      forall g: nat | NewlySettled(s.entries, t.entries, g)
        ensures Observed(t, g, BySystem(Expired)) && Causes(s, op, t.entries[g], g, BySystem(Expired)) {}
    }
  }

  lemma ClosedSame(e: Entry, status: Status, now: int)
    ensures SameRequest(e, Answered(ClosedRecord(e, status, now), DefaultReject(e.kind)))
  {
    hide DefaultReject;
  }

  lemma ExpireCauses(s: State, now: int, maxAge: int, later: int)
    ensures StepCauses(s, OpExpire(now, maxAge, later), ExpirePending(s, now, maxAge, later).0)
  {
    hide ExpireFirst, DueCount, RejectedBySystem, DefaultReject, Answered, ClosedRecord;
    var t, n, op := ExpirePending(s, now, maxAge, later).0, |s.pending|, OpExpire(now, maxAge, later);
    ExpireTells(s, n, now - maxAge, later);
    ExpireFirstLength(s, n, now - maxAge, later);
    forall h: nat | NewlySettled(s.entries, t.entries, h)
      ensures Observed(t, h, BySystem(Expired)) && Causes(s, op, t.entries[h], h, BySystem(Expired))
    {
      ExpireFirstExact(s, n, now - maxAge, later, h);
      ClosedIsRejected(s.entries[h], Expired, later);
      ClosedSame(s.entries[h], Expired, later);
    }
  }

  lemma FailAllCauses(s: State, now: int)
    ensures StepCauses(s, OpFailAll(now), FailAllLost(s, now))
  {
    if s.lostFired {
      QuietCauses(s, OpFailAll(now), s);
    } else {
      var u, n, op := s.(lostFired := true), |s.pending|, OpFailAll(now);
      var t := LoseFirst(u, n, now);
      LoseTells(u, n, now);
      LoseFirstLength(u, n, now);
      hide LoseFirst, RejectedBySystem, DefaultReject;
      forall h: nat | NewlySettled(s.entries, t.entries, h)
        ensures Observed(t, h, BySystem(TransportLost)) && Causes(s, op, t.entries[h], h, BySystem(TransportLost))
      {
        LoseFirstExact(u, n, now, h);
        ClosedIsRejected(s.entries[h], TransportLost, now);
      }
    }
  }

  lemma FailOneCauses(s: State, a: string, now: int)
    requires Inv(s)
    ensures StepCauses(s, OpFailOne(a, now), FailOneLost(s, a, now))
  {
    hide SystemClose, RejectedBySystem;
    var t, op := FailOneLost(s, a, now), OpFailOne(a, now);
    if t == s {
      QuietCauses(s, op, s);
    } else {
      var h := s.byId[a];
      assert KeyOk(a, h, s.pending, s.entries);
      CloseRejects(s, h, TransportLost, now);
      hide Inv;
      forall g: nat | NewlySettled(s.entries, t.entries, g)
        ensures Observed(t, g, BySystem(TransportLost)) && Causes(s, op, t.entries[g], g, BySystem(TransportLost)) {}
    }
  }

  lemma OtherCauses(s: State, op: Op)
    requires op.OpArrive? || op.OpContinue? || op.OpBind? || op.OpPrune? || Administrative(op)
    ensures StepCauses(s, op, Apply(s, op))
  {
    hide DefaultReject, Put, Drop, RecordId, SortByTime, Terminals, StepCauses;
    QuietCauses(s, op, Apply(s, op));
  }

  lemma OpCauses(s: State, op: Op)
    requires Inv(s)
    ensures StepCauses(s, op, Apply(s, op))
  {
    hide Inv, StepCauses, HandlerDone, ExpirePending, FailAllLost, FailOneLost, Arrive, Continue, Bind, Prune;
    match op
    case OpHandlerDone(g, outcome) => HandlerCauses(s, g, outcome);
    case OpResolve(c, now, later) =>
      if Resolve(s, c, now, later).1.Ok? { GrantCauses(s, c, now, later); } else { ErrCauses(s, c, now, later); }
    case OpExpire(now, maxAge, later) => ExpireCauses(s, now, maxAge, later);
    case OpFailAll(now) => FailAllCauses(s, now);
    case OpFailOne(a, now) => FailOneCauses(s, a, now);
    case _ => OtherCauses(s, op);
  }

  /** Operation `k` of the run is why entry `h` carries its answer. */
  predicate AnsweredAt(s0: State, ops: seq<Op>, k: int, h: nat, who: ResolvedBy)
    requires 0 <= k < |ops|
  {
    var s := Run(s0, ops);
    h < |s.entries| && Causes(Run(s0, ops[..k]), ops[k], s.entries[h], h, who) && Observed(s, h, who)
  }

  lemma CauseStays(s: State, op: Op, e: Entry, f: Entry, h: nat, who: ResolvedBy)
    requires Causes(s, op, e, h, who) && Advances(e, f) && e.settled
    ensures Causes(s, op, f, h, who)
  {
    hide Grants, HeardAsRejection, ClickOutcome;
  }

  lemma ObservedStays(s: State, t: State, h: nat, who: ResolvedBy)
    requires s.observed <= t.observed && Observed(s, h, who)
    ensures Observed(t, h, who)
  {
    var i :| 0 <= i < |s.observed| && s.observed[i] == (h, who);
    assert t.observed[i] == (h, who);
  }

  /** Every answered request of a run goes back to one step of it: its handler
      finished, a good click, a sweep or a click after its time, or a lost
      transport; and the observers were told that cause. */
  lemma {:induction false} EveryAnswerHasACause(s0: State, ops: seq<Op>, h: nat)
    requires Inv(s0) && s0.entries == [] && LegalRun(s0, ops)
    requires h < |Run(s0, ops).entries| && Run(s0, ops).entries[h].settled
    ensures exists k, who :: 0 <= k < |ops| && AnsweredAt(s0, ops, k, h, who)
  {
    if ops != [] {
      hide Inv, Causes, Apply, Legal, Observed;
      var n := |ops| - 1;
      var front := ops[..n];
      var s, t := Run(s0, front), Run(s0, ops);
      RunKeeps(s0, front);
      ApplyKeeps(s, ops[n]);
      OpCauses(s, ops[n]);
      if h < |s.entries| && s.entries[h].settled {
        EveryAnswerHasACause(s0, front, h);
        var k, who :| 0 <= k < |front| && AnsweredAt(s0, front, k, h, who);
        assert front[..k] == ops[..k] && front[k] == ops[k];
        assert Advances(s.entries[h], t.entries[h]);
        CauseStays(Run(s0, ops[..k]), ops[k], s.entries[h], t.entries[h], h, who);
        ObservedStays(s, t, h, who);
        assert AnsweredAt(s0, ops, k, h, who);
      } else {
        assert NewlySettled(s.entries, t.entries, h);
        var who :| Observed(t, h, who) && Causes(s, ops[n], t.entries[h], h, who);
        assert AnsweredAt(s0, ops, n, h, who);
      }
    }
  }

  /** No answer of a run gives leave to go ahead but a handler's own, and a granted
      click's with an allowing button; least of all one given at once. */
  lemma LeaveNeedsClickOrHandler(s0: State, ops: seq<Op>)
    requires Inv(s0) && s0.entries == [] && LegalRun(s0, ops)
    ensures forall k :: 0 <= k < |ops| && ops[k].OpArrive? ==>
      var r := Arrive(Run(s0, ops[..k]), ops[k].id, ops[k].m, ops[k].now).1;
      r.Immediate? ==> !Approves(r.outcome)
    ensures forall h :: 0 <= h < |Run(s0, ops).entries| ==> LeaveHasReason(s0, ops, h)
  {
    hide Inv, LegalRun, Run, LeaveHasReason, HeardAsRejection;
    forall k | 0 <= k < |ops| && ops[k].OpArrive?
      ensures var r := Arrive(Run(s0, ops[..k]), ops[k].id, ops[k].m, ops[k].now).1; r.Immediate? ==> !Approves(r.outcome)
    {
      RejectionIsHeard(ops[k].m);
      LeaveIsHeard(ops[k].m, DefaultReject(ops[k].m));
    }
    forall h | 0 <= h < |Run(s0, ops).entries| ensures LeaveHasReason(s0, ops, h) { LeaveReason(s0, ops, h); }
  }

  predicate GivesLeave(s: State, op: Op, e: Entry, h: nat) {
    match op
    case OpHandlerDone(g, outcome) => g == h && e.mode == HandlerMode && e.completion == Some(outcome)
    case OpResolve(c, now, _) =>
      Grants(s, c, now, h) && c.action in {AllowOnce, AllowSession} && e.completion == ClickOutcome(e.kind, c.action)
    case _ => false
  }

  predicate LeaveHasReason(s0: State, ops: seq<Op>, h: nat)
    requires h < |Run(s0, ops).entries|
  {
    var e := Run(s0, ops).entries[h];
    e.completion.Some? && Approves(e.completion.value) ==>
      exists k :: 0 <= k < |ops| && GivesLeave(Run(s0, ops[..k]), ops[k], e, h)
  }

  lemma LeaveReason(s0: State, ops: seq<Op>, h: nat)
    requires Inv(s0) && s0.entries == [] && LegalRun(s0, ops) && h < |Run(s0, ops).entries|
    ensures LeaveHasReason(s0, ops, h)
  {
    var e := Run(s0, ops).entries[h];
    if e.completion.Some? && Approves(e.completion.value) {
      RunKeeps(s0, ops);
      assert EntryOk(e, Run(s0, ops).ttl);
      EveryAnswerHasACause(s0, ops, h);
      hide Run, LegalRun, Inv, EntryOk, Grants, HeardAsRejection, Approves, ClickOutcome;
      var k, who :| 0 <= k < |ops| && AnsweredAt(s0, ops, k, h, who);
      LeaveIsHeard(e.kind, e.completion.value);
      assert !RejectedBySystem(e);
      if ops[k].OpResolve? { ApprovingButton(e.kind, ops[k].click.action); }
    }
  }

  /** What a waiting request was told over the wire is what its record says, read in
      the agent's terms. */
  lemma RecordAndWireAgree(s0: State, ops: seq<Op>, h: nat)
    requires Inv(s0) && LegalRun(s0, ops) && h < |Run(s0, ops).entries|
    ensures var e := Run(s0, ops).entries[h];
      e.mode == PendingMode && e.settled ==>
        && e.decision.Some? && e.completion.Some?
        && (e.status == Resolved && !e.kind.AuthTokenRefresh? ==> Heard(e.kind, e.completion.value) == Some(Meant(e.decision.value)))
        && (e.status != Resolved ==> RejectedBySystem(e) && Meant(e.decision.value) == No)
  {
    var s := Run(s0, ops);
    var e := s.entries[h];
    RunKeeps(s0, ops);
    assert EntryOk(e, s.ttl);
    hide Run, LegalRun, Inv, Heard, DefaultReject, ClickOutcome;
    RejectionIsHeard(e.kind);
    if e.decision.Some? { ClickIsHeard(e.kind, ActionOf(e.decision.value)); }
  }
}

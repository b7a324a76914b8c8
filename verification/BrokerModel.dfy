/** The approval broker as a state and one function per atomic step.

    A step is a stretch of the TypeScript class between two awaits; readings of
    the clock are arguments. Entries live in `entries`, and the broker's maps
    hold positions in it, where the source's maps hold object references. The
    last two components are a history no step reads: every attempt to settle a
    completion, and every call of the resolved-observers. */
module BrokerModel {
  import opened Basics
  import opened OrderedMap

  // ---- vocabulary -----------------------------------------------------

  datatype RequestId = NumId(n: int) | StrId(s: string)

  function ShowId(id: RequestId): string {
    match id
    case StrId(s) => s
    case NumId(n) => ShowInt(n)
  }

  function RecordId(id: RequestId): string { "approval-" + ShowId(id) }

  datatype Method =
    | CommandExecution | FileChange | Permissions | ToolUserInput | ToolCall
    | McpElicitation | LegacyApplyPatch | LegacyExecCommand | AuthTokenRefresh
    | UnknownMethod(name: string)

  datatype Mode = DefaultRejectMode | HandlerMode | PendingMode

  datatype Status = Pending | Resolved | Expired | TransportLost

  datatype UiAction = AllowOnce | AllowSession | Decline | Abort

  datatype Decision = Approved | ApprovedForSession | Denied(reason: Option<string>) | Aborted

  datatype Actor = System(reason: string) | Im(platform: string, userId: string, chatId: Option<string>)

  datatype Target = Target(platform: string, chatId: string, threadKey: Option<string>, topicId: Option<string>)

  datatype Policy = Policy(allowedActors: seq<Actor>, target: Target, callbackNonce: string)

  datatype WireValue =
    | Word(decision: string)
    | NoExtraPermissions
    | NoAnswers
    | FailedToolCall
    | ElicitationAnswer(action: string)
    | HandlerValue(payload: int)

  datatype WireError = NotSupported | HandlerThrew(payload: int)

  datatype WireOutcome = WireResolve(value: WireValue) | WireReject(error: WireError)

  datatype ResolvedBy = ByUser(action: UiAction, actor: Actor) | ByHandler | BySystem(status: Status)

  function ActionToDecision(a: UiAction): Decision {
    match a
    case AllowOnce => Approved
    case AllowSession => ApprovedForSession
    case Decline => Denied(None)
    case Abort => Aborted
  }

  datatype WireDecision = MapOk(value: WireValue) | MapError(error: WireError) | MapUnsupported

  function ReviewWord(a: UiAction): string {
    match a
    case AllowOnce => "accept"
    case AllowSession => "acceptForSession"
    case Decline => "decline"
    case Abort => "cancel"
  }

  function LegacyWord(a: UiAction): string {
    match a
    case AllowOnce => "approved"
    case AllowSession => "approved_for_session"
    case Decline => "denied"
    case Abort => "abort"
  }

  /** The wire shape a user's action gets, per kind of request. */
  function MapDecision(m: Method, a: UiAction): WireDecision {
    match m
    case CommandExecution => MapOk(Word(ReviewWord(a)))
    case FileChange => MapOk(Word(ReviewWord(a)))
    case Permissions => if a == Decline then MapOk(NoExtraPermissions) else MapUnsupported
    case ToolUserInput => if a == Decline then MapOk(NoAnswers) else MapUnsupported
    case ToolCall => if a == Decline then MapOk(FailedToolCall) else MapUnsupported
    case McpElicitation =>
      if a == Decline then MapOk(ElicitationAnswer("decline"))
      else if a == Abort then MapOk(ElicitationAnswer("cancel"))
      else MapUnsupported
    case LegacyApplyPatch => MapOk(Word(LegacyWord(a)))
    case LegacyExecCommand => MapOk(Word(LegacyWord(a)))
    case AuthTokenRefresh => MapError(NotSupported)
    case UnknownMethod(_) => MapUnsupported
  }

  function DefaultReject(m: Method): WireOutcome {
    match m
    case CommandExecution => WireResolve(Word("decline"))
    case FileChange => WireResolve(Word("decline"))
    case Permissions => WireResolve(NoExtraPermissions)
    case ToolUserInput => WireResolve(NoAnswers)
    case ToolCall => WireResolve(FailedToolCall)
    case McpElicitation => WireResolve(ElicitationAnswer("cancel"))
    case LegacyApplyPatch => WireResolve(Word("denied"))
    case LegacyExecCommand => WireResolve(Word("denied"))
    case AuthTokenRefresh => WireReject(NotSupported)
    case UnknownMethod(_) => WireReject(NotSupported)
  }

  /** Does this wire response let the agent go ahead? */
  predicate Approves(w: WireOutcome) {
    w.WireResolve? && w.value.Word? &&
    w.value.decision in {"accept", "acceptForSession", "approved", "approved_for_session"}
  }

  predicate SameIdentity(a: Actor, b: Actor) {
    match (a, b)
    case (System(r), System(q)) => r == q
    case (Im(p, u, _), Im(q, v, _)) => p == q && u == v
    case _ => false
  }

  /** Someone on the list has the caller's identity; chats are not compared. */
  predicate ActorAllowed(allowed: seq<Actor>, actor: Actor) {
    exists i :: 0 <= i < |allowed| && SameIdentity(allowed[i], actor)
  }

  // ---- state ----------------------------------------------------------

  datatype Entry = Entry(
    id: RequestId,
    recordId: string,
    kind: Method,
    mode: Mode,
    status: Status,
    actor: Option<Actor>,
    createdAt: int,
    expiresAt: int,
    decidedAt: Option<int>,
    decision: Option<Decision>,
    settled: bool,
    completion: Option<WireOutcome>,
    returned: bool)

  datatype Attempt = Attempt(handle: nat, outcome: WireOutcome, who: ResolvedBy, won: bool)

  datatype State = State(
    ttl: int,
    modes: map<Method, Mode>,
    entries: seq<Entry>,
    pending: seq<(RequestId, nat)>,
    byId: map<string, nat>,
    policies: map<string, Policy>,
    attached: bool,
    client: nat,
    claimed: set<nat>,
    lostFired: bool,
    // history
    attempts: seq<Attempt>,
    observed: seq<(nat, ResolvedBy)>)

  const DEFAULT_APPROVAL_TTL_MS := 1800000

  function TtlFrom(option: Option<int>): int { if option.Some? then option.value else DEFAULT_APPROVAL_TTL_MS }

  function Init(client: nat, ttl: int, claimed: set<nat>): State {
    State(ttl, map[], [], [], map[], map[], false, client, claimed, false, [], [])
  }

  function ModeOf(s: State, m: Method): Mode {
    if m in s.modes then s.modes[m] else DefaultRejectMode
  }

  // ---- settling -------------------------------------------------------

  /** `settleOnce` and what `#settleEntry` reports about it. */
  function Settle(s: State, h: nat, outcome: WireOutcome, who: ResolvedBy): State
    requires h < |s.entries|
  {
    if s.entries[h].settled then
      s.(attempts := s.attempts + [Attempt(h, outcome, who, false)])
    else
      s.(entries := s.entries[h := s.entries[h].(settled := true, completion := Some(outcome))],
         attempts := s.attempts + [Attempt(h, outcome, who, true)],
         observed := s.observed + [(h, who)])
  }

  function Reason(status: Status): string {
    if status == Expired then "expired" else "transport_lost"
  }

  /** A record closed by the broker itself, and its request answered with the default rejection. */
  function SystemClose(s: State, h: nat, status: Status, now: int): State
    requires h < |s.entries|
  {
    var e := s.entries[h].(status := status, actor := Some(System(Reason(status))),
                           decision := Some(Denied(Some(Reason(status)))), decidedAt := Some(now));
    Settle(s.(entries := s.entries[h := e]), h, DefaultReject(e.kind), BySystem(status))
  }

  // ---- arrival, handler, continuation ---------------------------------

  datatype Arrival = Immediate(outcome: WireOutcome) | Waiting(handle: nat)

  function FreshEntry(s: State, id: RequestId, m: Method, now: int): Entry {
    Entry(id, RecordId(id), m, ModeOf(s, m), Pending, None, now, now + s.ttl, None, None, false, None, false)
  }

  function Arrive(s: State, id: RequestId, m: Method, now: int): (State, Arrival) {
    if m.UnknownMethod? then (s, Immediate(WireReject(NotSupported)))
    else if ModeOf(s, m) == DefaultRejectMode then (s, Immediate(DefaultReject(m)))
    else
      var h := |s.entries|;
      (s.(entries := s.entries + [FreshEntry(s, id, m, now)],
          pending := Put<RequestId, nat>(s.pending, id, h),
          byId := s.byId[RecordId(id) := h]), Waiting(h))
  }

  /** The registered handler finished, with a value or an error. */
  function HandlerDone(s: State, h: nat, outcome: WireOutcome): State {
    if h >= |s.entries| || s.entries[h].mode != HandlerMode then s
    else Settle(s, h, outcome, ByHandler)
  }

  /** `#handle` goes on after its completion settled: clean up unless the record is terminal. */
  function Continue(s: State, h: nat): State {
    if h >= |s.entries| || !s.entries[h].settled || s.entries[h].returned then s
    else
      var e := s.entries[h];
      var t := s.(entries := s.entries[h := e.(returned := true)]);
      if e.status == Pending then t.(pending := Drop(s.pending, e.id), byId := s.byId - {e.recordId}) else t
  }

  // ---- binding and resolving ------------------------------------------

  datatype BindResult = BindOk | UnknownApproval | NotPending | ConflictingPolicy

  function Bind(s: State, approvalId: string, policy: Policy): (State, BindResult) {
    if approvalId !in s.byId || s.byId[approvalId] >= |s.entries| then (s, UnknownApproval)
    else if s.entries[s.byId[approvalId]].status != Pending then (s, NotPending)
    else if approvalId in s.policies then
      (s, if s.policies[approvalId] == policy then BindOk else ConflictingPolicy)
    else (s.(policies := s.policies[approvalId := policy]), BindOk)
  }

  datatype Click = Click(approvalId: string, action: UiAction, actor: Actor, target: Target, callbackNonce: string)

  datatype ResolveError =
    | UnknownApprovalId
    | AlreadyResolved(priorDecision: Decision)
    | AlreadyExpired(expiredAt: int)
    | AlreadyLost(lostAt: int)
    | ExpiredNow(expiredAt: int)
    | BindingRequired
    | WrongActor
    | WrongTarget
    | StaleCallback
    | UnsupportedDecision

  datatype ResolveResult = Ok(appliedAt: int) | Err(error: ResolveError)

  /** The click wins: the record takes its actor and decision, the wire its mapped outcome. */
  function Grant(s: State, h: nat, c: Click, outcome: WireOutcome, decidedAt: int): State
    requires h < |s.entries|
  {
    var e := s.entries[h].(status := Resolved, actor := Some(c.actor),
                           decision := Some(ActionToDecision(c.action)), decidedAt := Some(decidedAt));
    Settle(s.(entries := s.entries[h := e]), h, outcome, ByUser(c.action, c.actor))
  }

  /** `now` is the reading for the expiry check, `later` the one for the decision. */
  function Resolve(s: State, c: Click, now: int, later: int): (State, ResolveResult) {
    if c.approvalId !in s.byId || s.byId[c.approvalId] >= |s.entries| then (s, Err(UnknownApprovalId))
    else
      var h := s.byId[c.approvalId];
      var e := s.entries[h];
      if e.status == Resolved then
        (s, Err(AlreadyResolved(if e.decision.Some? then e.decision.value else ActionToDecision(c.action))))
      else if e.status == Expired then
        (s, Err(AlreadyExpired(if e.decidedAt.Some? then e.decidedAt.value else e.expiresAt)))
      else if e.status == TransportLost then
        (s, Err(AlreadyLost(if e.decidedAt.Some? then e.decidedAt.value else now)))
      else if now >= e.expiresAt then (SystemClose(s, h, Expired, now), Err(ExpiredNow(now)))
      else if c.approvalId !in s.policies then (s, Err(BindingRequired))
      else
        var p := s.policies[c.approvalId];
        if !ActorAllowed(p.allowedActors, c.actor) then (s, Err(WrongActor))
        else if p.target != c.target then (s, Err(WrongTarget))
        else if p.callbackNonce != c.callbackNonce then (s, Err(StaleCallback))
        else
          match MapDecision(e.kind, c.action)
          case MapUnsupported => (s, Err(UnsupportedDecision))
          case MapOk(v) => (Grant(s, h, c, WireResolve(v), later), Ok(later))
          case MapError(x) => (Grant(s, h, c, WireReject(x), later), Ok(later))
  }

  // ---- sweeps ---------------------------------------------------------

  predicate DueAt(e: Entry, cutoff: int) { e.status == Pending && e.createdAt <= cutoff }

  function ExpireStep(s: State, h: nat, cutoff: int, now: int): State {
    if h < |s.entries| && DueAt(s.entries[h], cutoff) then SystemClose(s, h, Expired, now) else s
  }

  function ExpireFirst(s: State, n: nat, cutoff: int, now: int): State
    requires n <= |s.pending|
  {
    if n == 0 then s else ExpireStep(ExpireFirst(s, n - 1, cutoff, now), s.pending[n - 1].1, cutoff, now)
  }

  function DueCount(s: State, n: nat, cutoff: int): nat
    requires n <= |s.pending|
  {
    if n == 0 then 0
    else
      var h := s.pending[n - 1].1;
      DueCount(s, n - 1, cutoff) + if h < |s.entries| && DueAt(s.entries[h], cutoff) then 1 else 0
  }

  function ExpirePending(s: State, now: int, maxAge: int, later: int): (State, nat) {
    (ExpireFirst(s, |s.pending|, now - maxAge, later), DueCount(s, |s.pending|, now - maxAge))
  }

  function LoseStep(s: State, h: nat, now: int): State {
    if h < |s.entries| && s.entries[h].status == Pending then SystemClose(s, h, TransportLost, now) else s
  }

  function LoseFirst(s: State, n: nat, now: int): State
    requires n <= |s.pending|
  {
    if n == 0 then s else LoseStep(LoseFirst(s, n - 1, now), s.pending[n - 1].1, now)
  }

  function FailAllLost(s: State, now: int): State {
    if s.lostFired then s else LoseFirst(s.(lostFired := true), |s.pending|, now)
  }

  function FailOneLost(s: State, approvalId: string, now: int): State {
    if approvalId in s.byId then LoseStep(s, s.byId[approvalId], now) else s
  }

  /** A listed pair whose record is pending under this id. */
  predicate PendingUnder(p: (RequestId, nat), entries: seq<Entry>, approvalId: string) {
    p.1 < |entries| && entries[p.1].status == Pending && entries[p.1].recordId == approvalId
  }

  // ---- clients --------------------------------------------------------

  function Attach(s: State): (State, bool) {
    if s.attached || s.client in s.claimed then (s, false)
    else (s.(attached := true, claimed := s.claimed + {s.client}), true)
  }

  function Reattach(s: State, client: nat): (State, bool) {
    if !s.attached || client == s.client || client in s.claimed then (s, false)
    else (s.(client := client, claimed := s.claimed - {s.client} + {client}, lostFired := false), true)
  }

  function SetMode(s: State, m: Method, mode: Mode): State {
    if m.UnknownMethod? then s else s.(modes := s.modes[m := mode])
  }

  // ---- pruning --------------------------------------------------------

  /** A terminal record as the prune sorts it. */
  datatype Aged = Aged(id: RequestId, recordId: string, time: int)

  function RecordTime(e: Entry): int {
    if e.decidedAt.Some? then e.decidedAt.value else e.createdAt
  }

  function Terminals(pending: seq<(RequestId, nat)>, entries: seq<Entry>): seq<Aged> {
    if pending == [] then []
    else
      var p := pending[|pending| - 1];
      Terminals(pending[..|pending| - 1], entries)
      + if p.1 < |entries| && entries[p.1].status != Pending
        then [Aged(p.0, entries[p.1].recordId, RecordTime(entries[p.1]))] else []
  }

  /** Stable insertion: after every element that is not later. */
  function Insert(sorted: seq<Aged>, x: Aged): seq<Aged> {
    if sorted == [] || sorted[|sorted| - 1].time <= x.time then sorted + [x]
    else Insert(sorted[..|sorted| - 1], x) + [sorted[|sorted| - 1]]
  }

  function SortByTime(xs: seq<Aged>): seq<Aged> {
    if xs == [] then [] else Insert(SortByTime(xs[..|xs| - 1]), xs[|xs| - 1])
  }

  predicate TooOld(x: Aged, now: int, maxAge: int) { now - x.time >= maxAge }

  function CountOld(xs: seq<Aged>, now: int, maxAge: int): nat {
    if xs == [] then 0
    else CountOld(xs[..|xs| - 1], now, maxAge) + if TooOld(xs[|xs| - 1], now, maxAge) then 1 else 0
  }

  /** How many records a sweep should remove. */
  function Excess(xs: seq<Aged>, now: int, maxAge: int, maxCount: nat): nat {
    Max(CountOld(xs, now, maxAge), Max(|xs| - maxCount, 0))
  }

  function Ids(xs: seq<Aged>): set<RequestId> { set x | x in xs :: x.id }

  function RecordIds(xs: seq<Aged>): set<string> { set x | x in xs :: x.recordId }

  function Remove(s: State, gone: seq<Aged>): State {
    s.(pending := Without(s.pending, Ids(gone)),
       byId := s.byId - RecordIds(gone),
       policies := s.policies - RecordIds(gone))
  }

  /** The batch's share of the excess goes, oldest first. */
  function Prune(s: State, now: int, maxAge: int, maxCount: nat, batch: nat): (State, nat) {
    var sorted := SortByTime(Terminals(s.pending, s.entries));
    var n := Min(Min(batch, Excess(sorted, now, maxAge, maxCount)), |sorted|);
    (Remove(s, sorted[..n]), n)
  }

  // ---- runs -----------------------------------------------------------

  datatype Op =
    | OpArrive(id: RequestId, m: Method, now: int)
    | OpHandlerDone(h: nat, outcome: WireOutcome)
    | OpContinue(h: nat)
    | OpBind(approvalId: string, policy: Policy)
    | OpResolve(click: Click, now: int, later: int)
    | OpExpire(now: int, maxAge: int, later: int)
    | OpFailAll(now: int)
    | OpFailOne(approvalId: string, now: int)
    | OpAttach
    | OpReattach(client: nat)
    | OpSetMode(m: Method, mode: Mode)
    | OpPrune(now: int, maxAge: int, maxCount: nat, batch: nat)

  function Apply(s: State, op: Op): State {
    match op
    case OpArrive(id, m, now) => Arrive(s, id, m, now).0
    case OpHandlerDone(h, outcome) => HandlerDone(s, h, outcome)
    case OpContinue(h) => Continue(s, h)
    case OpBind(a, p) => Bind(s, a, p).0
    case OpResolve(c, now, later) => Resolve(s, c, now, later).0
    case OpExpire(now, maxAge, later) => ExpirePending(s, now, maxAge, later).0
    case OpFailAll(now) => FailAllLost(s, now)
    case OpFailOne(a, now) => FailOneLost(s, a, now)
    case OpAttach => Attach(s).0
    case OpReattach(client) => Reattach(s, client).0
    case OpSetMode(m, mode) => SetMode(s, m, mode)
    case OpPrune(now, maxAge, maxCount, batch) => Prune(s, now, maxAge, maxCount, batch).0
  }

  /** Request ids are never reused, not even after they were turned into
      strings, and a client whose transport was lost delivers nothing more. */
  predicate Legal(s: State, op: Op) {
    op.OpArrive? ==>
      !s.lostFired && forall h :: 0 <= h < |s.entries| ==>
        s.entries[h].id != op.id && s.entries[h].recordId != RecordId(op.id)
  }

  function Run(s: State, ops: seq<Op>): State {
    if ops == [] then s else Apply(Run(s, ops[..|ops| - 1]), ops[|ops| - 1])
  }

  predicate LegalRun(s: State, ops: seq<Op>) {
    ops == [] || (LegalRun(s, ops[..|ops| - 1]) && Legal(Run(s, ops[..|ops| - 1]), ops[|ops| - 1]))
  }
}

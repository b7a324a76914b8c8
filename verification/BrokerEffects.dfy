/** What each call tells its caller, and exactly what it changes. */
module BrokerEffects {
  import opened Basics
  import opened OrderedMap
  import opened BrokerModel
  import opened BrokerInvariant
  import opened BrokerRuns
  import opened BrokerAnswers

  // ---- the answers of resolve -----------------------------------------

  /** The click concerns a listed, pending record in time. */
  predicate Timely(s: State, c: Click, now: int) {
    && c.approvalId in s.byId && s.byId[c.approvalId] < |s.entries|
    && s.entries[s.byId[c.approvalId]].status == Pending && now < s.entries[s.byId[c.approvalId]].expiresAt
  }

  /** The record this click names has this status. */
  predicate NamesRecord(s: State, c: Click, status: Status) {
    c.approvalId in s.byId && s.byId[c.approvalId] < |s.entries| && s.entries[s.byId[c.approvalId]].status == status
  }

  predicate BoundTo(s: State, c: Click, now: int) { Timely(s, c, now) && c.approvalId in s.policies }

  /** The reason a click was turned down for, in terms of the state it met. */
  predicate Explains(s: State, c: Click, now: int, error: ResolveError) {
    match error
    case UnknownApprovalId => c.approvalId !in s.byId
    case AlreadyResolved(prior) => NamesRecord(s, c, Resolved) && s.entries[s.byId[c.approvalId]].decision == Some(prior)
    case AlreadyExpired(at) => NamesRecord(s, c, Expired) && s.entries[s.byId[c.approvalId]].decidedAt == Some(at)
    case AlreadyLost(at) => NamesRecord(s, c, TransportLost) && s.entries[s.byId[c.approvalId]].decidedAt == Some(at)
    case ExpiredNow(at) => NamesRecord(s, c, Pending) && at == now >= s.entries[s.byId[c.approvalId]].expiresAt
    case BindingRequired => Timely(s, c, now) && c.approvalId !in s.policies
    case WrongActor => BoundTo(s, c, now) && !MayDecide(s.policies[c.approvalId].allowedActors, c.actor)
    case WrongTarget =>
      && BoundTo(s, c, now) && MayDecide(s.policies[c.approvalId].allowedActors, c.actor)
      && s.policies[c.approvalId].target != c.target
    case StaleCallback =>
      && BoundTo(s, c, now) && MayDecide(s.policies[c.approvalId].allowedActors, c.actor)
      && s.policies[c.approvalId].target == c.target && s.policies[c.approvalId].callbackNonce != c.callbackNonce
    case UnsupportedDecision =>
      && BoundTo(s, c, now) && MayDecide(s.policies[c.approvalId].allowedActors, c.actor)
      && s.policies[c.approvalId].target == c.target && s.policies[c.approvalId].callbackNonce == c.callbackNonce
      && !Offered(s.entries[s.byId[c.approvalId]].kind, c.action)
  }

  /** The record was closed by the broker itself, for this reason. */
  predicate ClosedFor(e: Entry, f: Entry, status: Status, reason: string, at: int) {
    && f.status == status && f.actor == Some(System(reason)) && f.decision == Some(Denied(Some(reason)))
    && f.decidedAt == Some(at) && f.settled && f.returned == e.returned && SameRequest(e, f)
    && (if e.settled then f.completion == e.completion else RejectedBySystem(f))
  }

  /** Every rejection names the first check that failed, the reported decision and
      time are the record's, and nothing changes but in the one case where the click
      itself finds the record expired: then this record expires, now. */
  lemma RejectionTellsWhy(s: State, c: Click, now: int, later: int)
    requires Inv(s)
    ensures var (t, r) := Resolve(s, c, now, later);
      && (r.Err? ==> Explains(s, c, now, r.error))
      && (r.Err? && !r.error.ExpiredNow? ==> t == s)
      && (r.Err? && r.error.ExpiredNow? ==>
            && var h := s.byId[c.approvalId];
            && h < |s.entries| == |t.entries| && ClosedFor(s.entries[h], t.entries[h], Expired, "expired", now)
            && (forall g :: 0 <= g < |s.entries| && g != h ==> t.entries[g] == s.entries[g])
            && SameMaps(s, t))
      && (r.Ok? ==> r.appliedAt == later)
  {
    var (t, r) := Resolve(s, c, now, later);
    if r.Err? {
      ErrExplained(s, c, now, later);
      ErrExpiresOrKeeps(s, c, now, later);
      ErrKind(s, c, now, later);
      if r.error.ExpiredNow? {
        ExpiryCloses(s, s.byId[c.approvalId], now);
        ResolveMaps(s, c, now, later);
      }
      hide Resolve, Inv, SystemClose, ClosedFor, Explains;
    } else {
      hide ActorAllowed, SystemClose, Grant, MapDecision, Inv, KeyOk;
    }
  }

  lemma ErrKind(s: State, c: Click, now: int, later: int)
    requires Resolve(s, c, now, later).1.Err?
    ensures var (t, r) := Resolve(s, c, now, later);
      if r.error.ExpiredNow?
      then c.approvalId in s.byId && s.byId[c.approvalId] < |s.entries| && t == SystemClose(s, s.byId[c.approvalId], Expired, now)
      else t == s
  {
    hide ActorAllowed, SystemClose, Grant, MapDecision;
  }

  lemma ErrExplained(s: State, c: Click, now: int, later: int)
    requires Inv(s) && Resolve(s, c, now, later).1.Err?
    ensures Explains(s, c, now, Resolve(s, c, now, later).1.error)
  {
    hide ActorAllowed, MayDecide, SystemClose, Grant, MapDecision, Inv, Offered;
    if c.approvalId in s.byId {
      var h := s.byId[c.approvalId];
      ListedRecord(s, c.approvalId);
      if c.approvalId in s.policies { AllowedMayDecide(s.policies[c.approvalId].allowedActors, c.actor); }
      UnsupportedIff(s.entries[h].kind, c.action);
    }
  }

  lemma ListedRecord(s: State, approvalId: string)
    requires Inv(s) && approvalId in s.byId
    ensures var h := s.byId[approvalId];
      h < |s.entries| && (s.entries[h].status != Pending ==> s.entries[h].decision.Some? && s.entries[h].decidedAt.Some?)
  {
    var h := s.byId[approvalId];
    assert KeyOk(approvalId, h, s.pending, s.entries);
    assert EntryOk(s.entries[h], s.ttl);
  }

  lemma UnsupportedIff(m: Method, a: UiAction)
    ensures MapDecision(m, a).MapUnsupported? <==> !Offered(m, a)
  {
  }

  lemma ExpiryCloses(s: State, h: nat, now: int)
    requires h < |s.entries|
    ensures var t := SystemClose(s, h, Expired, now);
      && |t.entries| == |s.entries| && ClosedFor(s.entries[h], t.entries[h], Expired, "expired", now)
      && (forall g :: 0 <= g < |s.entries| && g != h ==> t.entries[g] == s.entries[g])
  {
    SystemCloseExact(s, h, Expired, now);
    hide SystemClose;
    ClosedForReason(s.entries[h], Expired, now);
  }

  lemma ClosedForReason(e: Entry, status: Status, now: int)
    requires status in {Expired, TransportLost}
    ensures ClosedFor(e, Answered(ClosedRecord(e, status, now), DefaultReject(e.kind)), status,
                      if status == Expired then "expired" else "transport_lost", now)
  {
    RejectionIsHeard(e.kind);
    hide DefaultReject, HeardAsRejection;
  }

  // ---- sweeps ---------------------------------------------------------

  /** The listed records a sweep at `now` finds old enough. */
  predicate IsDue(s: State, h: nat, now: int, maxAge: int) {
    h < |s.entries| && Listed(h, s.entries, s.pending) && s.entries[h].status == Pending && now - s.entries[h].createdAt >= maxAge
  }

  lemma SweepAt(s: State, now: int, maxAge: int, later: int, h: nat)
    requires Inv(s) && h < |s.entries|
    ensures var t := ExpireFirst(s, |s.pending|, now - maxAge, later);
      && h < |t.entries|
      && if IsDue(s, h, now, maxAge) then ClosedFor(s.entries[h], t.entries[h], Expired, "expired", later)
         else t.entries[h] == s.entries[h]
  {
    ListedMeans(s, h);
    ExpireFirstExact(s, |s.pending|, now - maxAge, later, h);
    ClosedForReason(s.entries[h], Expired, later);
    hide Inv, ExpireFirst, ClosedFor, Listed, Answered, ClosedRecord, DefaultReject;
  }

  function DueRecords(s: State, now: int, maxAge: int): set<nat> {
    set h: nat | h < |s.entries| && IsDue(s, h, now, maxAge)
  }

  /** A sweep closes exactly the due records as expired and returns their number. */
  lemma SweepExpiresDue(s: State, now: int, maxAge: int, later: int)
    requires Inv(s)
    ensures var (t, count) := ExpirePending(s, now, maxAge, later);
      && |t.entries| == |s.entries| && SameMaps(s, t)
      && (forall h :: 0 <= h < |s.entries| ==>
            if IsDue(s, h, now, maxAge) then ClosedFor(s.entries[h], t.entries[h], Expired, "expired", later)
            else t.entries[h] == s.entries[h])
      && count == |DueRecords(s, now, maxAge)|
  {
    hide Inv, ExpireFirst, DueCount, IsDue, ClosedFor, SameMaps, DueRecords;
    var n, cutoff := |s.pending|, now - maxAge;
    ExpireFirstMaps(s, n, cutoff, later);
    ExpireFirstLength(s, n, cutoff, later);
    var t := ExpireFirst(s, n, cutoff, later);
    forall h | 0 <= h < |s.entries|
      ensures if IsDue(s, h, now, maxAge) then ClosedFor(s.entries[h], t.entries[h], Expired, "expired", later)
              else t.entries[h] == s.entries[h]
    {
      SweepAt(s, now, maxAge, later, h);
    }
    CountIsDue(s, now, maxAge);
  }

  /** The handles of the listed pairs that are in the set `among`. */
  function Handles(pending: seq<(RequestId, nat)>, among: set<nat>): set<nat> {
    if pending == [] then {}
    else
      var h := pending[|pending| - 1].1;
      Handles(pending[..|pending| - 1], among) + if h in among then {h} else {}
  }

  lemma {:induction false} HandlesMember(pending: seq<(RequestId, nat)>, among: set<nat>, h: nat)
    ensures h in Handles(pending, among) <==> h in among && exists i :: 0 <= i < |pending| && pending[i].1 == h
  {
    if pending != [] {
      var front := pending[..|pending| - 1];
      HandlesMember(front, among, h);
      if i :| 0 <= i < |front| && front[i].1 == h { assert pending[i].1 == h; }
      if i :| 0 <= i < |pending| && pending[i].1 == h {
        if i < |front| { assert front[i].1 == h; }
      }
    }
  }

  /** Listed records are all found. */
  lemma HandlesAre(s: State, among: set<nat>)
    requires Inv(s) && forall h :: h in among ==> h < |s.entries| && Listed(h, s.entries, s.pending)
    ensures Handles(s.pending, among) == among
  {
    forall h: nat ensures h in Handles(s.pending, among) <==> h in among {
      HandlesMember(s.pending, among, h);
      if h in among { ListedMeans(s, h); }
    }
  }

  predicate DistinctHandles(pending: seq<(RequestId, nat)>) {
    forall i, j :: 0 <= i < j < |pending| ==> pending[i].1 != pending[j].1
  }

  lemma OneMoreHandle(pending: seq<(RequestId, nat)>, p: (RequestId, nat), among: set<nat>)
    requires DistinctHandles(pending + [p])
    ensures DistinctHandles(pending)
    ensures |Handles(pending + [p], among)| == |Handles(pending, among)| + if p.1 in among then 1 else 0
  {
    var w: seq<(RequestId, nat)> := pending + [p];
    assert w[..|w| - 1] == pending;
    assert forall i :: 0 <= i < |pending| ==> w[i] == pending[i];
    HandlesMember(pending, among, p.1);
  }

  lemma HandlesDistinct(s: State)
    requires Inv(s)
    ensures DistinctHandles(s.pending)
    ensures forall i :: 0 <= i < |s.pending| ==> s.pending[i].1 < |s.entries| && Listed(s.pending[i].1, s.entries, s.pending)
  {
    forall i | 0 <= i < |s.pending|
      ensures s.pending[i].1 < |s.entries| && s.pending[i] == (s.entries[s.pending[i].1].id, s.pending[i].1)
    {
      assert s.pending[i] in s.pending && PairOk(s.pending[i], s.byId, s.entries);
    }
    forall i, j | 0 <= i < j < |s.pending| ensures s.pending[i].1 != s.pending[j].1 {
      assert s.pending[i].0 != s.pending[j].0;
    }
  }

  /** `among` singles out the due ones of the listed records. */
  predicate PicksDue(s: State, among: set<nat>, cutoff: int) {
    forall i :: 0 <= i < |s.pending| ==>
      (s.pending[i].1 in among <==> s.pending[i].1 < |s.entries| && DueAt(s.entries[s.pending[i].1], cutoff))
  }

  lemma {:induction false} CountsDue(s: State, n: nat, cutoff: int, among: set<nat>)
    requires n <= |s.pending| && DistinctHandles(s.pending[..n]) && PicksDue(s, among, cutoff)
    ensures DueCount(s, n, cutoff) == |Handles(s.pending[..n], among)|
  {
    if n > 0 {
      assert s.pending[..n] == s.pending[..n - 1] + [s.pending[n - 1]];
      OneMoreHandle(s.pending[..n - 1], s.pending[n - 1], among);
      hide DistinctHandles, Handles, DueAt;
      CountsDue(s, n - 1, cutoff, among);
    }
  }

  lemma CountIsDue(s: State, now: int, maxAge: int)
    requires Inv(s)
    ensures DueCount(s, |s.pending|, now - maxAge) == |DueRecords(s, now, maxAge)|
  {
    hide Inv, Listed;
    var due := DueRecords(s, now, maxAge);
    HandlesDistinct(s);
    HandlesAre(s, due);
    assert PicksDue(s, due, now - maxAge);
    hide IsDue, PicksDue, DueAt;
    assert s.pending[..|s.pending|] == s.pending;
    CountsDue(s, |s.pending|, now - maxAge, due);
  }

  /** The first transport loss of a client closes exactly the listed pending records
      as lost; a second one finds nothing to do. */
  lemma LossClosesPending(s: State, now: int, h: nat)
    requires Inv(s) && h < |s.entries|
    ensures var t := FailAllLost(s, now);
      && (s.lostFired ==> t == s)
      && SameMaps(s.(lostFired := true), t) && |t.entries| == |s.entries|
      && (if !s.lostFired && Listed(h, s.entries, s.pending) && s.entries[h].status == Pending
          then ClosedFor(s.entries[h], t.entries[h], TransportLost, "transport_lost", now)
          else t.entries[h] == s.entries[h])
  {
    if !s.lostFired {
      var u := s.(lostFired := true);
      ListedMeans(s, h);
      LoseFirstMaps(u, |s.pending|, now);
      LoseFirstExact(u, |s.pending|, now, h);
      hide Inv, LoseFirst, ClosedFor, Listed, Answered, ClosedRecord, DefaultReject;
      ClosedForReason(s.entries[h], TransportLost, now);
    }
  }

  /** Failing one approval closes its record if that is listed and pending, and
      touches nothing else. */
  lemma LossClosesOne(s: State, approvalId: string, now: int, h: nat)
    requires Inv(s) && h < |s.entries|
    ensures var t := FailOneLost(s, approvalId, now);
      && SameMaps(s, t) && |t.entries| == |s.entries|
      && (if approvalId in s.byId && s.byId[approvalId] == h && s.entries[h].status == Pending
          then ClosedFor(s.entries[h], t.entries[h], TransportLost, "transport_lost", now)
          else t.entries[h] == s.entries[h])
  {
    if approvalId in s.byId {
      var g := s.byId[approvalId];
      LoseStepMaps(s, g, now);
      LoseStepExact(s, g, now, h);
      ClosedForReason(s.entries[h], TransportLost, now);
    }
    hide Inv, LoseStep, ClosedFor, Answered, ClosedRecord, DefaultReject;
  }

  // ---- policies -------------------------------------------------------

  /** Binding is ok exactly if the record is listed and pending and its policy then is
      this one; a policy bound before is not replaced, and no other one is touched. */
  lemma BindTellsWhy(s: State, approvalId: string, policy: Policy)
    requires Inv(s)
    ensures var (t, r) := Bind(s, approvalId, policy);
      var open := approvalId in s.byId && s.byId[approvalId] < |s.entries| && s.entries[s.byId[approvalId]].status == Pending;
      && (r == BindOk <==> open && approvalId in t.policies && t.policies[approvalId] == policy)
      && (r == UnknownApproval <==> approvalId !in s.byId)
      && (r == ConflictingPolicy <==> open && approvalId in s.policies && s.policies[approvalId] != policy)
      && t == s.(policies := t.policies)
      && t.policies == if r == BindOk then s.policies[approvalId := policy] else s.policies
  {
    if approvalId in s.byId { assert KeyOk(approvalId, s.byId[approvalId], s.pending, s.entries); }
    hide Inv;
  }

  predicate BoundAt(s0: State, ops: seq<Op>, k: int, approvalId: string, policy: Policy)
    requires 0 <= k < |ops|
  {
    ops[k] == OpBind(approvalId, policy) && Bind(Run(s0, ops[..k]), approvalId, policy).1 == BindOk
  }

  lemma PolicyStep(s: State, op: Op, approvalId: string)
    requires approvalId in Apply(s, op).policies
    ensures (approvalId in s.policies && s.policies[approvalId] == Apply(s, op).policies[approvalId])
      || (op == OpBind(approvalId, Apply(s, op).policies[approvalId]) && Bind(s, approvalId, op.policy).1 == BindOk)
  {
    hide MapDecision, DefaultReject, ActorAllowed, RecordId, Put, Drop, ModeOf, ExpireFirst, LoseFirst, SystemClose, Settle,
         SortByTime, Terminals;
    match op
    case OpExpire(now, maxAge, later) => ExpireFirstMaps(s, |s.pending|, now - maxAge, later);
    case OpFailAll(now) => LoseFirstMaps(s.(lostFired := true), |s.pending|, now);
    case OpFailOne(a, now) => if a in s.byId { LoseStepMaps(s, s.byId[a], now); }
    case OpResolve(c, now, later) => ResolveMaps(s, c, now, later);
    case OpHandlerDone(h, outcome) => if h < |s.entries| { SettleMaps(s, h, outcome, ByHandler); }
    case _ =>
  }

  /** Every policy in force was bound by an accepted call of the run. */
  lemma {:induction false} PolicyWasBound(s0: State, ops: seq<Op>, approvalId: string)
    requires s0.policies == map[] && approvalId in Run(s0, ops).policies
    ensures exists k :: 0 <= k < |ops| && BoundAt(s0, ops, k, approvalId, Run(s0, ops).policies[approvalId])
  {
    if ops != [] {
      hide Apply, Bind;
      var n := |ops| - 1;
      var front := ops[..n];
      var p := Run(s0, ops).policies[approvalId];
      PolicyStep(Run(s0, front), ops[n], approvalId);
      if approvalId in Run(s0, front).policies && Run(s0, front).policies[approvalId] == p {
        PolicyWasBound(s0, front, approvalId);
        var k :| 0 <= k < |front| && BoundAt(s0, front, k, approvalId, p);
        assert front[..k] == ops[..k];
        assert BoundAt(s0, ops, k, approvalId, p);
      } else {
        assert BoundAt(s0, ops, n, approvalId, p);
      }
    }
  }

  // ---- clients --------------------------------------------------------

  /** Whom the broker serves, told by its calls alone: it attaches to its first client
      unless another broker has that one, and then moves to any free client. */
  datatype Tenancy = Tenancy(attached: bool, client: nat)

  function TenancyOf(client: nat, taken: set<nat>, ops: seq<Op>): Tenancy {
    if ops == [] then Tenancy(false, client)
    else
      var t := TenancyOf(client, taken, ops[..|ops| - 1]);
      match ops[|ops| - 1]
      case OpAttach => if t.client in taken then t else t.(attached := true)
      case OpReattach(c) => if t.attached && c !in taken then t.(client := c) else t
      case _ => t
  }

  lemma StepClient(s: State, op: Op)
    requires !op.OpAttach? && !op.OpReattach?
    ensures var t := Apply(s, op); t.attached == s.attached && t.client == s.client && t.claimed == s.claimed
  {
    hide MapDecision, DefaultReject, ActorAllowed, RecordId, Put, Drop, ModeOf, ExpireFirst, LoseFirst, SystemClose, Settle,
         SortByTime, Terminals;
    match op
    case OpExpire(now, maxAge, later) => ExpireFirstMaps(s, |s.pending|, now - maxAge, later);
    case OpFailAll(now) => LoseFirstMaps(s.(lostFired := true), |s.pending|, now);
    case OpFailOne(a, now) => if a in s.byId { LoseStepMaps(s, s.byId[a], now); }
    case OpResolve(c, now, later) => ResolveMaps(s, c, now, later);
    case OpHandlerDone(h, outcome) => if h < |s.entries| { SettleMaps(s, h, outcome, ByHandler); }
    case _ =>
  }

  /** Serves the tenant and holds exactly one client beside those of other brokers. */
  predicate Serves(s: State, tenancy: Tenancy, taken: set<nat>) {
    && s.attached == tenancy.attached && s.client == tenancy.client
    && s.claimed == taken + (if s.attached then {s.client} else {})
    && (s.attached ==> s.client !in taken)
  }

  /** After any run the broker serves the client its calls say, and holds that one only. */
  lemma {:induction false} OneClient(client: nat, ttl: int, taken: set<nat>, ops: seq<Op>)
    ensures Serves(Run(Init(client, ttl, taken), ops), TenancyOf(client, taken, ops), taken)
  {
    hide Apply;
    if ops != [] {
      var front, op := ops[..|ops| - 1], ops[|ops| - 1];
      OneClient(client, ttl, taken, front);
      var s := Run(Init(client, ttl, taken), front);
      if op.OpAttach? || op.OpReattach? { ClientMoves(s, TenancyOf(client, taken, front), taken, op); } else { StepClient(s, op); }
    }
  }

  lemma ClientMoves(s: State, tenancy: Tenancy, taken: set<nat>, op: Op)
    requires Serves(s, tenancy, taken) && (op.OpAttach? || op.OpReattach?)
    ensures var moved := if op.OpAttach? then (if tenancy.client in taken then tenancy else tenancy.(attached := true))
                         else (if tenancy.attached && op.client !in taken then tenancy.(client := op.client) else tenancy);
      Serves(Apply(s, op), moved, taken)
  {
  }

  // ---- what stays listed ----------------------------------------------

  /** `#handle` went on after the completion settled, in step `k`. */
  predicate ContinuedAt(s0: State, ops: seq<Op>, k: int, h: nat)
    requires 0 <= k < |ops|
  {
    ops[k] == OpContinue(h) && h < |Run(s0, ops[..k]).entries| && Run(s0, ops[..k]).entries[h].settled
  }

  /** `op` makes `#handle` go on with entry `h`. */
  predicate Continues(s: State, op: Op, h: nat)
    requires h < |s.entries|
  {
    op == OpContinue(h) && s.entries[h].settled
  }

  /** From `s` to `t` entry `h` has returned or left pending only as `op` says: going on
      takes it off the list if it is still pending, and only a listed record is closed. */
  predicate KeepsPlace(s: State, op: Op, t: State, h: nat)
    requires h < |s.entries|
  {
    && |s.entries| <= |t.entries|
    && var e, f := s.entries[h], t.entries[h];
       && (f.returned <==> e.returned || Continues(s, op, h))
       && (Listed(h, t.entries, t.pending) <==>
             Listed(h, s.entries, s.pending) && !(Continues(s, op, h) && !e.returned && e.status == Pending))
       && (f.status == e.status
           || (e.status == Pending && f.status != Pending && Listed(h, s.entries, s.pending) && !Continues(s, op, h)))
  }

  lemma ArrivePlace(s: State, id: RequestId, m: Method, now: int, h: nat)
    requires Inv(s) && Legal(s, OpArrive(id, m, now)) && h < |s.entries|
    ensures KeepsPlace(s, OpArrive(id, m, now), Arrive(s, id, m, now).0, h)
  {
    FreshIsListed(s, id, m, now);
    var t := Arrive(s, id, m, now).0;
    hide Inv, Legal, RecordId, Put, DefaultReject;
    assert t.entries[h] == s.entries[h];
    assert t != s ==> ((t.entries[h].id, h) in t.pending <==> (t.entries[h].id, h) in s.pending);
  }

  /** Dropping one entry's id takes that entry off the list and no other. */
  lemma DropsOwn(s: State, g: nat, h: nat)
    requires Inv(s) && g < |s.entries| && h < |s.entries|
    ensures (s.entries[h].id, h) in Drop<RequestId, nat>(s.pending, s.entries[g].id) <==>
      Listed(h, s.entries, s.pending) && g != h
  {
    DropIsWithout(s.pending, s.entries[g].id);
    WithoutMember<RequestId, nat>(s.pending, {s.entries[g].id}, (s.entries[h].id, h));
    IdsTell(s.entries, g, h);
    hide Inv, Drop, Without;
  }

  lemma IdsTell(entries: seq<Entry>, g: nat, h: nat)
    requires IdsUnique(entries) && g < |entries| && h < |entries|
    ensures entries[g].id == entries[h].id ==> g == h
  {
    assert g < h ==> Differ(entries[g], entries[h]);
    assert h < g ==> Differ(entries[h], entries[g]);
  }

  lemma ContinuePlace(s: State, g: nat, h: nat)
    requires Inv(s) && h < |s.entries|
    ensures KeepsPlace(s, OpContinue(g), Continue(s, g), h)
  {
    if g < |s.entries| && s.entries[g].settled && !s.entries[g].returned && s.entries[g].status == Pending {
      DropsOwn(s, g, h);
    }
    hide Inv, Drop;
  }

  /** Entries and lists differ at most by `g` changing from `e` to `f`. */
  lemma ClosePlace(s: State, op: Op, t: State, g: nat, h: nat)
    requires g < |s.entries| == |t.entries| && h < |s.entries| && t.pending == s.pending && !op.OpContinue?
    requires t.entries[h].id == s.entries[h].id && t.entries[h].returned == s.entries[h].returned
    requires t.entries[h].status == s.entries[h].status
      || (s.entries[h].status == Pending && t.entries[h].status != Pending && Listed(h, s.entries, s.pending))
    ensures KeepsPlace(s, op, t, h)
  {
  }

  lemma GrantAt(s: State, g: nat, c: Click, outcome: WireOutcome, later: int, h: nat)
    requires g < |s.entries| && h < |s.entries|
    ensures var t := Grant(s, g, c, outcome, later);
      && |t.entries| == |s.entries| && t.entries[h].id == s.entries[h].id && t.entries[h].returned == s.entries[h].returned
      && t.entries[h].status == if g == h then Resolved else s.entries[h].status
  {
    hide ActionToDecision;
  }

  lemma ByIdListed(s: State, approvalId: string)
    requires Inv(s) && approvalId in s.byId
    ensures s.byId[approvalId] < |s.entries| && Listed(s.byId[approvalId], s.entries, s.pending)
  {
    assert KeyOk(approvalId, s.byId[approvalId], s.pending, s.entries);
  }

  lemma ResolvePlace(s: State, c: Click, now: int, later: int, h: nat)
    requires Inv(s) && h < |s.entries|
    ensures KeepsPlace(s, OpResolve(c, now, later), Resolve(s, c, now, later).0, h)
  {
    var (t, r) := Resolve(s, c, now, later);
    ResolveMaps(s, c, now, later);
    if r.Ok? {
      OkMeansWon(s, c, now, later);
      OkGrants(s, c, now, later);
      var g := s.byId[c.approvalId];
      ByIdListed(s, c.approvalId);
      hide Resolve, Inv, Grant, KeepsPlace, Listed, ClickOutcome, MayDecide, ClickAttempted;
      GrantAt(s, g, c, ClickOutcome(s.entries[g].kind, c.action).value, later, h);
      ClosePlace(s, OpResolve(c, now, later), t, g, h);
    } else {
      RejectionTellsWhy(s, c, now, later);
      if r.error.ExpiredNow? {
        ByIdListed(s, c.approvalId);
        hide Resolve, Inv, KeepsPlace, Listed, RejectedBySystem;
        ClosePlace(s, OpResolve(c, now, later), t, s.byId[c.approvalId], h);
      }
    }
  }

  lemma SweepPlace(s: State, op: Op, h: nat)
    requires Inv(s) && h < |s.entries| && (op.OpExpire? || op.OpFailAll? || op.OpFailOne?)
    ensures KeepsPlace(s, op, Apply(s, op), h)
  {
    hide KeepsPlace, Listed, RejectedBySystem, ExpirePending, FailAllLost, FailOneLost, Inv;
    var t := Apply(s, op);
    match op
    case OpExpire(now, maxAge, later) =>
      SweepExpiresDue(s, now, maxAge, later);
      assert IsDue(s, h, now, maxAge) || t.entries[h] == s.entries[h];
      ClosePlace(s, op, t, h, h);
    case OpFailAll(now) =>
      LossClosesPending(s, now, h);
      ClosePlace(s, op, t, h, h);
    case OpFailOne(a, now) =>
      LossClosesOne(s, a, now, h);
      if a in s.byId { ByIdListed(s, a); }
      ClosePlace(s, op, t, h, h);
  }

  lemma QuietPlace(s: State, op: Op, h: nat)
    requires h < |s.entries| && (op.OpHandlerDone? || op.OpBind? || Administrative(op))
    ensures KeepsPlace(s, op, Apply(s, op), h)
  {
    hide KeepsPlace, Listed, Arrive, Continue, Resolve, ExpirePending, FailAllLost, FailOneLost, Prune;
    ClosePlace(s, op, Apply(s, op), h, h);
  }

  lemma StepPlace(s: State, op: Op, h: nat)
    requires Inv(s) && Legal(s, op) && h < |s.entries| && !op.OpPrune?
    ensures KeepsPlace(s, op, Apply(s, op), h)
  {
    hide KeepsPlace, Inv, Legal;
    match op
    case OpArrive(id, m, now) => ArrivePlace(s, id, m, now, h);
    case OpContinue(g) => ContinuePlace(s, g, h);
    case OpResolve(c, now, later) => ResolvePlace(s, c, now, later, h);
    case OpExpire(_, _, _) => SweepPlace(s, op, h);
    case OpFailAll(_) => SweepPlace(s, op, h);
    case OpFailOne(_, _) => SweepPlace(s, op, h);
    case _ => QuietPlace(s, op, h);
  }

  /** A record that came in with this step is listed. */
  lemma NewPlace(s: State, op: Op, h: nat)
    requires Inv(s) && Legal(s, op) && |s.entries| <= h < |Apply(s, op).entries|
    ensures var t := Apply(s, op); !t.entries[h].returned && Listed(h, t.entries, t.pending)
  {
    if op.OpArrive? {
      FreshIsListed(s, op.id, op.m, op.now);
      var t := Apply(s, op);
      hide Inv, Legal, Put, RecordId, DefaultReject;
      assert t.pending[|s.pending|] == (t.entries[h].id, h);
    } else {
      SameLength(s, op);
    }
  }

  lemma SameLength(s: State, op: Op)
    requires !op.OpArrive?
    ensures |Apply(s, op).entries| == |s.entries|
  {
    hide DefaultReject, Put, Drop, RecordId, SortByTime, Terminals, ActorAllowed, MapDecision, SystemClose, Grant,
         ExpireFirst, LoseFirst;
    match op
    case OpExpire(now, maxAge, later) => ExpireFirstLength(s, |s.pending|, now - maxAge, later);
    case OpFailAll(now) => LoseFirstLength(s.(lostFired := true), |s.pending|, now);
    case OpFailOne(a, now) => if a in s.byId && s.byId[a] < |s.entries| { SystemCloseExact(s, s.byId[a], TransportLost, now); }
    case OpResolve(c, now, later) =>
      if c.approvalId in s.byId && s.byId[c.approvalId] < |s.entries| {
        SystemCloseExact(s, s.byId[c.approvalId], Expired, now);
        forall outcome ensures |Grant(s, s.byId[c.approvalId], c, outcome, later).entries| == |s.entries| {
          GrantAt(s, s.byId[c.approvalId], c, outcome, later, s.byId[c.approvalId]);
        }
      }
    case _ =>
  }

  predicate NoPrune(ops: seq<Op>) { forall i :: 0 <= i < |ops| ==> !ops[i].OpPrune? }

  /** Entry `h` has returned exactly if the run made `#handle` go on with it, and is off
      the list exactly if that happened while its record was pending. */
  predicate PlaceOk(s0: State, ops: seq<Op>, h: nat) {
    var s := Run(s0, ops);
    h < |s.entries| ==>
      && (s.entries[h].returned <==> exists k :: 0 <= k < |ops| && ContinuedAt(s0, ops, k, h))
      && (Listed(h, s.entries, s.pending) <==> !(s.entries[h].returned && s.entries[h].status == Pending))
  }

  lemma ContinuedMore(s0: State, ops: seq<Op>, h: nat)
    requires ops != []
    ensures var n, front := |ops| - 1, ops[..|ops| - 1];
      (exists k :: 0 <= k < |ops| && ContinuedAt(s0, ops, k, h))
      <==> (exists k :: 0 <= k < |front| && ContinuedAt(s0, front, k, h)) || ContinuedAt(s0, ops, n, h)
  {
    var n, front := |ops| - 1, ops[..|ops| - 1];
    forall k | 0 <= k < n ensures ContinuedAt(s0, ops, k, h) <==> ContinuedAt(s0, front, k, h) {
      assert front[..k] == ops[..k] && front[k] == ops[k];
    }
  }

  lemma {:induction false} NeverYet(s0: State, ops: seq<Op>, h: nat)
    requires Inv(s0) && LegalRun(s0, ops) && h >= |Run(s0, ops).entries|
    ensures forall k :: 0 <= k < |ops| ==> !ContinuedAt(s0, ops, k, h)
  {
    if ops != [] {
      hide Apply, Inv, Legal;
      var front := ops[..|ops| - 1];
      RunKeeps(s0, front);
      ApplyKeeps(Run(s0, front), ops[|ops| - 1]);
      NeverYet(s0, front, h);
      ContinuedMore(s0, ops, h);
    }
  }

  /** Without prunes, a record stays in the indexes unless its request returned while
      it was still pending: terminal ones wait for a prune, answered ones are cleaned up. */
  lemma {:induction false} ListedUntilReturned(s0: State, ops: seq<Op>, h: nat)
    requires Inv(s0) && s0.entries == [] && LegalRun(s0, ops) && NoPrune(ops)
    ensures PlaceOk(s0, ops, h)
  {
    if ops != [] {
      hide Apply, Inv, Legal, Listed;
      var n := |ops| - 1;
      var front := ops[..n];
      var s, t := Run(s0, front), Run(s0, ops);
      assert NoPrune(front) && !ops[n].OpPrune?;
      ListedUntilReturned(s0, front, h);
      RunKeeps(s0, front);
      ContinuedMore(s0, ops, h);
      if h < |s.entries| {
        StepPlace(s, ops[n], h);
      } else {
        NeverYet(s0, front, h);
        if h < |t.entries| { NewPlace(s, ops[n], h); }
      }
    }
  }
}

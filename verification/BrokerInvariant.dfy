/** What every step of the broker keeps. */
module BrokerInvariant {
  import opened Basics
  import opened OrderedMap
  import opened BrokerModel

  // ---- one entry ------------------------------------------------------

  /** The button behind a decision. */
  function ActionOf(d: Decision): UiAction {
    match d
    case Approved => AllowOnce
    case ApprovedForSession => AllowSession
    case Denied(_) => Decline
    case Aborted => Abort
  }

  /** What the wire gets when a click with this action wins. */
  function ClickOutcome(m: Method, a: UiAction): Option<WireOutcome> {
    match MapDecision(m, a)
    case MapOk(v) => Some(WireResolve(v))
    case MapError(x) => Some(WireReject(x))
    case MapUnsupported => None
  }

  /** Decision, time and actor are set exactly on terminal records, and say why. */
  predicate RecordOk(e: Entry) {
    && (e.status == Pending <==> e.decision == None)
    && (e.status == Pending <==> e.decidedAt == None)
    && (e.status == Pending <==> e.actor == None)
    && (e.status in {Expired, TransportLost} ==>
          e.actor == Some(System(Reason(e.status))) && e.decision == Some(Denied(Some(Reason(e.status)))))
    && (e.status == Resolved ==> e.decision.Some? && e.decision.value == ActionToDecision(ActionOf(e.decision.value)))
  }

  /** For a pending-mode entry, settled and terminal are one, and the record says what was sent. */
  predicate PendingModeOk(e: Entry) {
    e.mode == PendingMode ==>
      && (e.settled <==> e.status != Pending)
      && (e.status in {Expired, TransportLost} ==> e.completion == Some(DefaultReject(e.kind)))
      && (e.status == Resolved ==>
            e.decision.Some? && e.completion.Some? && e.completion == ClickOutcome(e.kind, ActionOf(e.decision.value)))
  }

  predicate EntryOk(e: Entry, ttl: int) {
    && e.recordId == RecordId(e.id) && e.expiresAt == e.createdAt + ttl
    && e.mode != DefaultRejectMode
    && (e.settled <==> e.completion.Some?)
    && (e.status != Pending ==> e.settled)
    && (e.returned ==> e.settled)
    && RecordOk(e) && PendingModeOk(e)
  }

  /** Nothing a later step does to an entry takes back what is settled or decided. */
  predicate Advances(e: Entry, f: Entry) {
    && f.id == e.id && f.recordId == e.recordId && f.kind == e.kind && f.mode == e.mode
    && f.createdAt == e.createdAt && f.expiresAt == e.expiresAt
    && (e.settled ==> f.settled && f.completion == e.completion)
    && (e.status != Pending ==>
          f.status == e.status && f.actor == e.actor && f.decision == e.decision && f.decidedAt == e.decidedAt)
  }

  predicate Forward(s: State, t: State) {
    |s.entries| <= |t.entries| && forall h :: 0 <= h < |s.entries| ==> Advances(s.entries[h], t.entries[h])
  }

  // ---- the indexes ----------------------------------------------------

  predicate EntriesOk(entries: seq<Entry>, ttl: int) {
    forall h :: 0 <= h < |entries| ==> EntryOk(entries[h], ttl)
  }

  predicate Differ(e: Entry, f: Entry) { e.id != f.id && e.recordId != f.recordId }

  predicate IdsUnique(entries: seq<Entry>) {
    forall h, g :: 0 <= h < g < |entries| ==> Differ(entries[h], entries[g])
  }

  /** A listed pair names an entry under its own key, and the other index names the same one. */
  predicate PairOk(p: (RequestId, nat), byId: map<string, nat>, entries: seq<Entry>) {
    && p.1 < |entries| && entries[p.1].id == p.0
    && entries[p.1].recordId in byId && byId[entries[p.1].recordId] == p.1
  }

  predicate KeyOk(k: string, h: nat, pending: seq<(RequestId, nat)>, entries: seq<Entry>) {
    h < |entries| && entries[h].recordId == k && (entries[h].id, h) in pending
  }

  predicate IndexOk(pending: seq<(RequestId, nat)>, byId: map<string, nat>, entries: seq<Entry>) {
    && Distinct(pending)
    && (forall p :: p in pending ==> PairOk(p, byId, entries))
    && (forall k :: k in byId ==> KeyOk(k, byId[k], pending, entries))
  }

  predicate Listed(h: nat, entries: seq<Entry>, pending: seq<(RequestId, nat)>)
    requires h < |entries|
  {
    (entries[h].id, h) in pending
  }

  /** An entry still owed an answer is never dropped from the indexes. */
  predicate UnsettledListed(entries: seq<Entry>, pending: seq<(RequestId, nat)>) {
    forall h :: 0 <= h < |entries| && !entries[h].settled ==> Listed(h, entries, pending)
  }

  predicate NonePending(entries: seq<Entry>, pending: seq<(RequestId, nat)>) {
    forall i :: 0 <= i < |pending| ==> pending[i].1 < |entries| && entries[pending[i].1].status != Pending
  }

  predicate KnownRecord(entries: seq<Entry>, k: string) {
    exists h :: 0 <= h < |entries| && entries[h].recordId == k
  }

  predicate PoliciesOk(policies: map<string, Policy>, entries: seq<Entry>) {
    forall k :: k in policies ==> KnownRecord(entries, k)
  }

  // ---- the history of settling ----------------------------------------

  function FirstAttempt(attempts: seq<Attempt>, h: nat): Option<Attempt> {
    if attempts == [] then None
    else
      var front, z := attempts[..|attempts| - 1], attempts[|attempts| - 1];
      if FirstAttempt(front, h).Some? then FirstAttempt(front, h) else if z.handle == h then Some(z) else None
  }

  /** An attempt won if and only if it was the first on its entry. */
  predicate WinsAreFirst(attempts: seq<Attempt>) {
    attempts == [] ||
    var front, z := attempts[..|attempts| - 1], attempts[|attempts| - 1];
    WinsAreFirst(front) && (z.won <==> FirstAttempt(front, z.handle) == None)
  }

  function Winners(attempts: seq<Attempt>): seq<(nat, ResolvedBy)> {
    if attempts == [] then []
    else
      var front, z := attempts[..|attempts| - 1], attempts[|attempts| - 1];
      Winners(front) + if z.won then [(z.handle, z.who)] else []
  }

  predicate FirstSettles(e: Entry, first: Option<Attempt>) {
    if e.settled then first.Some? && e.completion == Some(first.value.outcome) else first == None
  }

  predicate FirstsOk(entries: seq<Entry>, attempts: seq<Attempt>) {
    forall h :: 0 <= h < |entries| ==> FirstSettles(entries[h], FirstAttempt(attempts, h))
  }

  predicate HistoryOk(entries: seq<Entry>, attempts: seq<Attempt>, observed: seq<(nat, ResolvedBy)>) {
    && WinsAreFirst(attempts) && observed == Winners(attempts) && FirstsOk(entries, attempts)
    && (forall i :: 0 <= i < |attempts| ==> attempts[i].handle < |entries|)
  }

  predicate Inv(s: State) {
    && EntriesOk(s.entries, s.ttl)
    && IdsUnique(s.entries)
    && IndexOk(s.pending, s.byId, s.entries)
    && UnsettledListed(s.entries, s.pending)
    && (s.lostFired ==> NonePending(s.entries, s.pending))
    && PoliciesOk(s.policies, s.entries)
    && HistoryOk(s.entries, s.attempts, s.observed)
  }

  lemma InitInv(client: nat, ttl: int, claimed: set<nat>)
    ensures Inv(Init(client, ttl, claimed))
  {
  }

  lemma ForwardTransitive(s: State, t: State, u: State)
    requires Forward(s, t) && Forward(t, u)
    ensures Forward(s, u)
  {
    forall h | 0 <= h < |s.entries| ensures Advances(s.entries[h], u.entries[h]) {
      assert Advances(s.entries[h], t.entries[h]) && Advances(t.entries[h], u.entries[h]);
    }
  }

  lemma SameEntriesForward(s: State, t: State)
    requires t.entries == s.entries
    ensures Forward(s, t)
  {
    forall h | 0 <= h < |s.entries| ensures Advances(s.entries[h], t.entries[h]) {}
  }

  // ---- one entry advances ---------------------------------------------

  lemma AdvanceIds(entries: seq<Entry>, h: nat, f: Entry)
    requires h < |entries| && Advances(entries[h], f) && IdsUnique(entries)
    ensures IdsUnique(entries[h := f])
  {
    var w := entries[h := f];
    forall a, b | 0 <= a < b < |w| ensures Differ(w[a], w[b]) { assert Differ(entries[a], entries[b]); }
  }

  lemma AdvanceIndex(entries: seq<Entry>, h: nat, f: Entry, pending: seq<(RequestId, nat)>, byId: map<string, nat>)
    requires h < |entries| && Advances(entries[h], f) && IndexOk(pending, byId, entries)
    ensures IndexOk(pending, byId, entries[h := f])
  {
    var w := entries[h := f];
    forall p | p in pending ensures PairOk(p, byId, w) { assert PairOk(p, byId, entries); }
    forall k | k in byId ensures KeyOk(k, byId[k], pending, w) { assert KeyOk(k, byId[k], pending, entries); }
  }

  lemma AdvanceListed(entries: seq<Entry>, h: nat, f: Entry, pending: seq<(RequestId, nat)>)
    requires h < |entries| && Advances(entries[h], f)
    ensures UnsettledListed(entries, pending) ==> UnsettledListed(entries[h := f], pending)
    ensures NonePending(entries, pending) ==> NonePending(entries[h := f], pending)
  {
    var w := entries[h := f];
    if UnsettledListed(entries, pending) {
      forall g | 0 <= g < |w| && !w[g].settled ensures Listed(g, w, pending) { assert Listed(g, entries, pending); }
    }
  }

  lemma AdvancePolicies(entries: seq<Entry>, h: nat, f: Entry, policies: map<string, Policy>)
    requires h < |entries| && Advances(entries[h], f) && PoliciesOk(policies, entries)
    ensures PoliciesOk(policies, entries[h := f])
  {
    forall k | k in policies ensures KnownRecord(entries[h := f], k) {
      assert KnownRecord(entries, k);
      var g :| 0 <= g < |entries| && entries[g].recordId == k;
      assert entries[h := f][g].recordId == k;
    }
  }

  /** Entry `h` advances to `f`; all else but the history stays. */
  predicate Touches(s: State, t: State, h: nat, f: Entry) {
    && h < |s.entries| && Advances(s.entries[h], f) && EntryOk(f, s.ttl)
    && t == s.(entries := s.entries[h := f], attempts := t.attempts, observed := t.observed)
  }

  lemma TouchKeeps(s: State, t: State, h: nat, f: Entry)
    requires Inv(s) && Touches(s, t, h, f) && HistoryOk(t.entries, t.attempts, t.observed)
    ensures Inv(t) && Forward(s, t)
  {
    AdvanceIds(s.entries, h, f);
    AdvanceIndex(s.entries, h, f, s.pending, s.byId);
    AdvanceListed(s.entries, h, f, s.pending);
    AdvancePolicies(s.entries, h, f, s.policies);
    assert EntriesOk(t.entries, t.ttl);
    forall g | 0 <= g < |s.entries| ensures Advances(s.entries[g], t.entries[g]) {}
  }

  lemma AttemptKeepsFirsts(entries: seq<Entry>, attempts: seq<Attempt>, a: Attempt)
    requires FirstsOk(entries, attempts) && a.handle < |entries|
    requires a.won <==> !entries[a.handle].settled
    ensures var e := entries[a.handle];
      FirstsOk(if e.settled then entries else entries[a.handle := e.(settled := true, completion := Some(a.outcome))],
               attempts + [a])
    ensures a.won <==> FirstAttempt(attempts, a.handle) == None
  {
    var h, e, more := a.handle, entries[a.handle], attempts + [a];
    var w := if e.settled then entries else entries[h := e.(settled := true, completion := Some(a.outcome))];
    assert more[..|more| - 1] == attempts;
    assert FirstSettles(entries[h], FirstAttempt(attempts, h));
    forall g | 0 <= g < |w| ensures FirstSettles(w[g], FirstAttempt(more, g)) {
      assert FirstSettles(entries[g], FirstAttempt(attempts, g));
    }
  }

  lemma SettleHistory(s: State, h: nat, outcome: WireOutcome, who: ResolvedBy)
    requires h < |s.entries| && HistoryOk(s.entries, s.attempts, s.observed)
    ensures var t := Settle(s, h, outcome, who); HistoryOk(t.entries, t.attempts, t.observed)
  {
    hide FirstSettles, WinsAreFirst, Winners, FirstAttempt;
    var a := Attempt(h, outcome, who, !s.entries[h].settled);
    var t := Settle(s, h, outcome, who);
    AttemptKeepsFirsts(s.entries, s.attempts, a);
    OneMoreAttempt(s.attempts, a);
    hide FirstsOk;
    assert t.attempts == s.attempts + [a];
  }

  lemma OneMoreAttempt(attempts: seq<Attempt>, a: Attempt)
    requires WinsAreFirst(attempts) && (a.won <==> FirstAttempt(attempts, a.handle) == None)
    ensures WinsAreFirst(attempts + [a])
    ensures Winners(attempts + [a]) == if a.won then Winners(attempts) + [(a.handle, a.who)] else Winners(attempts)
  {
    assert (attempts + [a])[..|attempts|] == attempts;
    var w: seq<(nat, ResolvedBy)> := Winners(attempts);
    assert w + [] == w;
  }

  /** A change of record fields alone leaves the history right. */
  lemma RecordHistory(entries: seq<Entry>, h: nat, f: Entry, attempts: seq<Attempt>, observed: seq<(nat, ResolvedBy)>)
    requires h < |entries| && HistoryOk(entries, attempts, observed)
    requires f.settled == entries[h].settled && f.completion == entries[h].completion
    ensures HistoryOk(entries[h := f], attempts, observed)
  {
    var w := entries[h := f];
    forall g | 0 <= g < |w| ensures FirstSettles(w[g], FirstAttempt(attempts, g)) {
      assert FirstSettles(entries[g], FirstAttempt(attempts, g));
    }
  }

  /** What a settled entry becomes; an earlier completion stays. */
  function Answered(e: Entry, outcome: WireOutcome): Entry {
    if e.settled then e else e.(settled := true, completion := Some(outcome))
  }

  predicate IsDecision(e: Entry, record: Entry, outcome: WireOutcome) {
    && record == e.(status := record.status, actor := record.actor, decision := record.decision, decidedAt := record.decidedAt)
    && record.status != Pending && RecordOk(record)
    && (record.status in {Expired, TransportLost} ==> outcome == DefaultReject(record.kind))
    && (record.status == Resolved ==> Some(outcome) == ClickOutcome(record.kind, ActionOf(record.decision.value)))
  }

  lemma DecisionAdvances(e: Entry, record: Entry, outcome: WireOutcome, ttl: int)
    requires EntryOk(e, ttl) && e.status == Pending && IsDecision(e, record, outcome)
    ensures EntryOk(Answered(record, outcome), ttl) && Advances(e, Answered(record, outcome))
  {
  }

  /** The record closes, and `outcome` settles the completion unless something did before. */
  lemma InvAt(s: State, h: nat)
    requires Inv(s) && h < |s.entries|
    ensures EntryOk(s.entries[h], s.ttl) && HistoryOk(s.entries, s.attempts, s.observed)
  {
  }

  lemma SettleIs(s: State, h: nat, outcome: WireOutcome, who: ResolvedBy)
    requires h < |s.entries|
    ensures var t := Settle(s, h, outcome, who);
      t == s.(entries := s.entries[h := Answered(s.entries[h], outcome)], attempts := t.attempts, observed := t.observed)
  {
  }

  lemma CloseTouches(s: State, h: nat, record: Entry, outcome: WireOutcome, who: ResolvedBy)
    requires Inv(s) && h < |s.entries| && s.entries[h].status == Pending
    requires IsDecision(s.entries[h], record, outcome)
    ensures var t := Settle(s.(entries := s.entries[h := record]), h, outcome, who);
      Touches(s, t, h, Answered(record, outcome)) && HistoryOk(t.entries, t.attempts, t.observed)
  {
    InvAt(s, h);
    DecisionAdvances(s.entries[h], record, outcome, s.ttl);
    assert record.settled == s.entries[h].settled && record.completion == s.entries[h].completion;
    hide Inv, HistoryOk, EntryOk, Advances, IsDecision, Settle, Answered;
    var u := s.(entries := s.entries[h := record]);
    RecordHistory(s.entries, h, record, s.attempts, s.observed);
    SettleHistory(u, h, outcome, who);
    SettleIs(u, h, outcome, who);
    assert u.entries[h := Answered(record, outcome)] == s.entries[h := Answered(record, outcome)];
  }

  lemma CloseKeeps(s: State, h: nat, record: Entry, outcome: WireOutcome, who: ResolvedBy)
    requires Inv(s) && h < |s.entries| && s.entries[h].status == Pending
    requires IsDecision(s.entries[h], record, outcome)
    ensures var t := Settle(s.(entries := s.entries[h := record]), h, outcome, who);
      Inv(t) && Forward(s, t) && Touches(s, t, h, Answered(record, outcome))
  {
    hide Inv, HistoryOk, Touches, Forward, IsDecision, Settle, Answered;
    CloseTouches(s, h, record, outcome, who);
    TouchKeeps(s, Settle(s.(entries := s.entries[h := record]), h, outcome, who), h, Answered(record, outcome));
  }

  function ClosedRecord(e: Entry, status: Status, now: int): Entry {
    e.(status := status, actor := Some(System(Reason(status))),
       decision := Some(Denied(Some(Reason(status)))), decidedAt := Some(now))
  }

  lemma SystemCloseKeeps(s: State, h: nat, status: Status, now: int)
    requires Inv(s) && h < |s.entries| && s.entries[h].status == Pending && status in {Expired, TransportLost}
    ensures var t := SystemClose(s, h, status, now);
      Inv(t) && Forward(s, t)
      && Touches(s, t, h, Answered(ClosedRecord(s.entries[h], status, now), DefaultReject(s.entries[h].kind)))
  {
    var record := ClosedRecord(s.entries[h], status, now);
    CloseKeeps(s, h, record, DefaultReject(record.kind), BySystem(status));
  }

  function GrantedRecord(e: Entry, c: Click, later: int): Entry {
    e.(status := Resolved, actor := Some(c.actor), decision := Some(ActionToDecision(c.action)), decidedAt := Some(later))
  }

  lemma GrantKeeps(s: State, h: nat, c: Click, outcome: WireOutcome, later: int)
    requires Inv(s) && h < |s.entries| && s.entries[h].status == Pending
    requires ClickOutcome(s.entries[h].kind, c.action) == Some(outcome)
    ensures var t := Grant(s, h, c, outcome, later);
      Inv(t) && Forward(s, t) && Touches(s, t, h, Answered(GrantedRecord(s.entries[h], c, later), outcome))
  {
    CloseKeeps(s, h, GrantedRecord(s.entries[h], c, later), outcome, ByUser(c.action, c.actor));
  }

  lemma AnswerAdvances(e: Entry, outcome: WireOutcome, ttl: int)
    requires EntryOk(e, ttl) && e.mode == HandlerMode
    ensures EntryOk(Answered(e, outcome), ttl) && Advances(e, Answered(e, outcome))
  {
  }

  lemma HandlerTouches(s: State, h: nat, outcome: WireOutcome)
    requires Inv(s) && h < |s.entries| && s.entries[h].mode == HandlerMode
    ensures var t := HandlerDone(s, h, outcome);
      Touches(s, t, h, Answered(s.entries[h], outcome)) && HistoryOk(t.entries, t.attempts, t.observed)
  {
    InvAt(s, h);
    hide Inv, HistoryOk, EntryOk, Advances;
    SettleHistory(s, h, outcome, ByHandler);
    AnswerAdvances(s.entries[h], outcome, s.ttl);
  }

  lemma HandlerDoneKeeps(s: State, h: nat, outcome: WireOutcome)
    requires Inv(s)
    ensures Inv(HandlerDone(s, h, outcome)) && Forward(s, HandlerDone(s, h, outcome))
  {
    hide Inv, Forward, Touches, HistoryOk, EntryOk, Advances;
    if h < |s.entries| && s.entries[h].mode == HandlerMode {
      HandlerTouches(s, h, outcome);
      TouchKeeps(s, HandlerDone(s, h, outcome), h, Answered(s.entries[h], outcome));
    } else {
      SameEntriesForward(s, s);
    }
  }

  /** What `resolve` can do to the state: nothing, expire the entry, or grant the click. */
  lemma ResolveCases(s: State, c: Click, now: int, later: int)
    ensures var t := Resolve(s, c, now, later).0;
      t == s ||
      (c.approvalId in s.byId && s.byId[c.approvalId] < |s.entries| &&
       var h := s.byId[c.approvalId];
       s.entries[h].status == Pending &&
       (t == SystemClose(s, h, Expired, now)
        || (ClickOutcome(s.entries[h].kind, c.action).Some?
            && t == Grant(s, h, c, ClickOutcome(s.entries[h].kind, c.action).value, later))))
  {
  }

  lemma ResolveKeeps(s: State, c: Click, now: int, later: int)
    requires Inv(s)
    ensures var t := Resolve(s, c, now, later).0; Inv(t) && Forward(s, t)
  {
    ResolveCases(s, c, now, later);
    var t := Resolve(s, c, now, later).0;
    if t == s {
      SameEntriesForward(s, t);
    } else {
      var h := s.byId[c.approvalId];
      if t == SystemClose(s, h, Expired, now) {
        SystemCloseKeeps(s, h, Expired, now);
      } else {
        GrantKeeps(s, h, c, ClickOutcome(s.entries[h].kind, c.action).value, later);
      }
    }
  }

  // ---- sweeps ---------------------------------------------------------

  /** Only entries and the history differ. */
  predicate SameMaps(s: State, t: State) {
    t == s.(entries := t.entries, attempts := t.attempts, observed := t.observed)
  }

  lemma ExpireStepKeeps(s: State, h: nat, cutoff: int, now: int)
    requires Inv(s)
    ensures var t := ExpireStep(s, h, cutoff, now); Inv(t) && Forward(s, t) && SameMaps(s, t)
  {
    if h < |s.entries| && DueAt(s.entries[h], cutoff) {
      SystemCloseKeeps(s, h, Expired, now);
    } else {
      SameEntriesForward(s, s);
    }
  }

  lemma {:induction false} ExpireFirstKeeps(s: State, n: nat, cutoff: int, now: int)
    requires Inv(s) && n <= |s.pending|
    ensures var t := ExpireFirst(s, n, cutoff, now); Inv(t) && Forward(s, t) && SameMaps(s, t)
  {
    if n == 0 {
      SameEntriesForward(s, s);
    } else {
      ExpireFirstKeeps(s, n - 1, cutoff, now);
      var t := ExpireFirst(s, n - 1, cutoff, now);
      ExpireStepKeeps(t, s.pending[n - 1].1, cutoff, now);
      ForwardTransitive(s, t, ExpireFirst(s, n, cutoff, now));
    }
  }

  lemma LoseStepKeeps(s: State, h: nat, now: int)
    requires Inv(s)
    ensures var t := LoseStep(s, h, now);
      Inv(t) && Forward(s, t) && SameMaps(s, t) && (h < |s.entries| ==> h < |t.entries| && t.entries[h].status != Pending)
  {
    if h < |s.entries| && s.entries[h].status == Pending {
      SystemCloseKeeps(s, h, TransportLost, now);
    } else {
      SameEntriesForward(s, s);
    }
  }

  lemma {:induction false} LoseFirstKeeps(s: State, n: nat, now: int)
    requires Inv(s) && n <= |s.pending|
    ensures var t := LoseFirst(s, n, now); Inv(t) && Forward(s, t) && SameMaps(s, t)
  {
    if n == 0 {
      SameEntriesForward(s, s);
    } else {
      LoseFirstKeeps(s, n - 1, now);
      var t := LoseFirst(s, n - 1, now);
      LoseStepKeeps(t, s.pending[n - 1].1, now);
      ForwardTransitive(s, t, LoseFirst(s, n, now));
    }
  }

  lemma LoseStepCloses(s: State, h: nat, now: int)
    requires h < |s.entries|
    ensures var t := LoseStep(s, h, now); Forward(s, t) && |t.entries| == |s.entries| && t.entries[h].status != Pending
  {
    hide DefaultReject;
  }

  /** The sweep leaves none of the records it passed pending. */
  lemma {:induction false} LoseFirstCloses(s: State, n: nat, now: int)
    requires n <= |s.pending| && forall i :: 0 <= i < |s.pending| ==> s.pending[i].1 < |s.entries|
    ensures var t := LoseFirst(s, n, now);
      NonePending(t.entries, s.pending[..n]) && |t.entries| == |s.entries|
  {
    hide LoseStep, Forward, NonePending;
    if n == 0 {
      NothingPending(s.entries, s.pending);
    } else {
      var t, u := LoseFirst(s, n - 1, now), LoseFirst(s, n, now);
      var h := s.pending[n - 1].1;
      LoseFirstCloses(s, n - 1, now);
      LoseStepCloses(t, h, now);
      StillNonePending(t, u, s.pending[..n - 1]);
      NonePendingSnoc(u.entries, s.pending, n);
    }
  }

  lemma NothingPending(entries: seq<Entry>, pending: seq<(RequestId, nat)>)
    ensures NonePending(entries, pending[..0])
  {
  }

  lemma NonePendingSnoc(entries: seq<Entry>, pending: seq<(RequestId, nat)>, n: nat)
    requires 0 < n <= |pending| && NonePending(entries, pending[..n - 1])
    requires pending[n - 1].1 < |entries| && entries[pending[n - 1].1].status != Pending
    ensures NonePending(entries, pending[..n])
  {
    forall i | 0 <= i < n ensures pending[..n][i].1 < |entries| && entries[pending[..n][i].1].status != Pending {
      if i < n - 1 { assert pending[..n][i] == pending[..n - 1][i]; }
    }
  }

  lemma StillNonePending(s: State, t: State, pending: seq<(RequestId, nat)>)
    requires Forward(s, t) && NonePending(s.entries, pending)
    ensures NonePending(t.entries, pending)
  {
    forall i | 0 <= i < |pending| ensures pending[i].1 < |t.entries| && t.entries[pending[i].1].status != Pending {
      assert Advances(s.entries[pending[i].1], t.entries[pending[i].1]);
    }
  }

  lemma LoseStepFlag(s: State, h: nat, now: int)
    ensures LoseStep(s.(lostFired := true), h, now) == LoseStep(s, h, now).(lostFired := true)
  {
    hide DefaultReject;
    if h < |s.entries| {
      assert SystemClose(s.(lostFired := true), h, TransportLost, now) == SystemClose(s, h, TransportLost, now).(lostFired := true);
    }
  }

  /** The flag is raised before the sweep; the sweep does not read it. */
  lemma {:induction false} LoseFirstFlag(s: State, n: nat, now: int)
    requires n <= |s.pending|
    ensures LoseFirst(s.(lostFired := true), n, now) == LoseFirst(s, n, now).(lostFired := true)
  {
    if n > 0 {
      LoseFirstFlag(s, n - 1, now);
      LoseStepFlag(LoseFirst(s, n - 1, now), s.pending[n - 1].1, now);
    }
  }

  lemma FailAllKeeps(s: State, now: int)
    requires Inv(s)
    ensures var t := FailAllLost(s, now);
      Inv(t) && Forward(s, t) && SameMaps(s.(lostFired := true), t) && t.lostFired
      && NonePending(t.entries, t.pending)
  {
    if !s.lostFired {
      LoseFirstKeeps(s, |s.pending|, now);
      forall i | 0 <= i < |s.pending| ensures s.pending[i].1 < |s.entries| {
        assert s.pending[i] in s.pending && PairOk(s.pending[i], s.byId, s.entries);
      }
      hide LoseFirst, Forward, IdsUnique, IndexOk, EntriesOk, UnsettledListed, PoliciesOk, HistoryOk, NonePending;
      LoseFirstCloses(s, |s.pending|, now);
      LoseFirstFlag(s, |s.pending|, now);
      var t := LoseFirst(s, |s.pending|, now);
      assert s.pending[..|s.pending|] == s.pending;
      assert FailAllLost(s, now) == t.(lostFired := true);
    } else {
      SameEntriesForward(s, s);
    }
  }

  // ---- steps on the maps ----------------------------------------------

  lemma BindKeeps(s: State, approvalId: string, policy: Policy)
    requires Inv(s)
    ensures Inv(Bind(s, approvalId, policy).0) && Forward(s, Bind(s, approvalId, policy).0)
  {
    var t := Bind(s, approvalId, policy).0;
    SameEntriesForward(s, t);
    if t != s {
      assert KeyOk(approvalId, s.byId[approvalId], s.pending, s.entries);
      assert KnownRecord(s.entries, approvalId);
    }
  }

  lemma ArriveIndex(entries: seq<Entry>, pending: seq<(RequestId, nat)>, byId: map<string, nat>, e: Entry)
    requires IndexOk(pending, byId, entries) && e.recordId == RecordId(e.id)
    requires forall h :: 0 <= h < |entries| ==> Differ(entries[h], e)
    ensures Put<RequestId, nat>(pending, e.id, |entries|) == pending + [(e.id, |entries|)]
    ensures IndexOk(pending + [(e.id, |entries|)], byId[e.recordId := |entries|], entries + [e])
  {
    var h, id, w := |entries|, e.id, entries + [e];
    var pending', byId' := pending + [(id, h)], byId[e.recordId := h];
    assert !Has(pending, id) by {
      forall i | 0 <= i < |pending| ensures pending[i].0 != id {
        assert pending[i] in pending && PairOk(pending[i], byId, entries);
        assert Differ(entries[pending[i].1], e);
      }
    }
    PutFresh<RequestId, nat>(pending, id, h);
    PutKeys<RequestId, nat>(pending, id, h, id);
    forall p | p in pending' ensures PairOk(p, byId', w) {
      if p in pending {
        assert PairOk(p, byId, entries);
        assert Differ(entries[p.1], e);
      }
    }
    forall k | k in byId' ensures KeyOk(k, byId'[k], pending', w) {
      if k == e.recordId {
        assert pending'[|pending|] == (id, h);
      } else {
        assert KeyOk(k, byId[k], pending, entries);
      }
    }
  }

  lemma {:induction false} NoAttempt(attempts: seq<Attempt>, h: nat)
    requires forall i :: 0 <= i < |attempts| ==> attempts[i].handle < h
    ensures FirstAttempt(attempts, h) == None
  {
    if attempts != [] { NoAttempt(attempts[..|attempts| - 1], h); }
  }

  lemma ArriveLists(entries: seq<Entry>, pending: seq<(RequestId, nat)>, policies: map<string, Policy>, e: Entry)
    requires UnsettledListed(entries, pending) && PoliciesOk(policies, entries)
    ensures UnsettledListed(entries + [e], pending + [(e.id, |entries|)]) && PoliciesOk(policies, entries + [e])
  {
    var w, pending' := entries + [e], pending + [(e.id, |entries|)];
    forall g | 0 <= g < |w| && !w[g].settled ensures Listed(g, w, pending') {
      if g < |entries| { assert Listed(g, entries, pending); } else { assert pending'[|pending|] == (e.id, g); }
    }
    forall k | k in policies ensures KnownRecord(w, k) {
      assert KnownRecord(entries, k);
      var g :| 0 <= g < |entries| && entries[g].recordId == k;
      assert w[g].recordId == k;
    }
  }

  lemma ArriveHistory(entries: seq<Entry>, attempts: seq<Attempt>, observed: seq<(nat, ResolvedBy)>, e: Entry)
    requires HistoryOk(entries, attempts, observed) && !e.settled
    ensures HistoryOk(entries + [e], attempts, observed)
  {
    var w := entries + [e];
    NoAttempt(attempts, |entries|);
    forall g | 0 <= g < |w| ensures FirstSettles(w[g], FirstAttempt(attempts, g)) {
      if g < |entries| { assert FirstSettles(entries[g], FirstAttempt(attempts, g)); }
    }
  }

  lemma ArriveRest(s: State, e: Entry)
    requires Inv(s) && EntryOk(e, s.ttl) && !e.settled
    requires forall h :: 0 <= h < |s.entries| ==> Differ(s.entries[h], e)
    ensures var w, pending' := s.entries + [e], s.pending + [(e.id, |s.entries|)];
      EntriesOk(w, s.ttl) && IdsUnique(w) && UnsettledListed(w, pending')
      && PoliciesOk(s.policies, w) && HistoryOk(w, s.attempts, s.observed)
  {
    var w := s.entries + [e];
    ArriveLists(s.entries, s.pending, s.policies, e);
    ArriveHistory(s.entries, s.attempts, s.observed, e);
    hide UnsettledListed, PoliciesOk, HistoryOk, IndexOk, NonePending, EntryOk;
    forall a, b | 0 <= a < b < |w| ensures Differ(w[a], w[b]) {
      if b < |s.entries| { assert Differ(s.entries[a], s.entries[b]); }
    }
  }

  lemma ArriveKeeps(s: State, id: RequestId, m: Method, now: int)
    requires Inv(s) && Legal(s, OpArrive(id, m, now))
    ensures Inv(Arrive(s, id, m, now).0) && Forward(s, Arrive(s, id, m, now).0)
  {
    var t := Arrive(s, id, m, now).0;
    if Arrive(s, id, m, now).1.Waiting? {
      var e := FreshEntry(s, id, m, now);
      forall h | 0 <= h < |s.entries| ensures Differ(s.entries[h], e) {}
      ArriveIndex(s.entries, s.pending, s.byId, e);
      ArriveRest(s, e);
      forall h | 0 <= h < |s.entries| ensures Advances(s.entries[h], t.entries[h]) {}
    } else {
      SameEntriesForward(s, t);
    }
  }

  /** Do both sets of keys single out the same listed entries? */
  predicate SameChoice(entries: seq<Entry>, pending: seq<(RequestId, nat)>, ids: set<RequestId>, recordIds: set<string>) {
    forall h :: 0 <= h < |entries| && Listed(h, entries, pending) ==>
      (entries[h].id in ids <==> entries[h].recordId in recordIds)
  }

  lemma RemoveIndex(entries: seq<Entry>, pending: seq<(RequestId, nat)>, byId: map<string, nat>,
                    ids: set<RequestId>, recordIds: set<string>)
    requires IndexOk(pending, byId, entries) && SameChoice(entries, pending, ids, recordIds)
    ensures IndexOk(Without<RequestId, nat>(pending, ids), byId - recordIds, entries)
  {
    var pending', byId' := Without<RequestId, nat>(pending, ids), byId - recordIds;
    WithoutDistinct(pending, ids);
    forall p | p in pending' ensures PairOk(p, byId', entries) {
      WithoutMember(pending, ids, p);
      assert PairOk(p, byId, entries) && Listed(p.1, entries, pending);
    }
    forall k | k in byId' ensures KeyOk(k, byId'[k], pending', entries) {
      assert KeyOk(k, byId[k], pending, entries) && Listed(byId[k], entries, pending);
      WithoutMember(pending, ids, (entries[byId[k]].id, byId[k]));
    }
  }

  lemma RemoveListed(entries: seq<Entry>, pending: seq<(RequestId, nat)>, ids: set<RequestId>)
    requires forall h :: 0 <= h < |entries| && !entries[h].settled ==> entries[h].id !in ids
    ensures UnsettledListed(entries, pending) ==> UnsettledListed(entries, Without<RequestId, nat>(pending, ids))
    ensures NonePending(entries, pending) ==> NonePending(entries, Without<RequestId, nat>(pending, ids))
  {
    var pending' := Without<RequestId, nat>(pending, ids);
    if UnsettledListed(entries, pending) {
      forall h | 0 <= h < |entries| && !entries[h].settled ensures Listed(h, entries, pending') {
        assert Listed(h, entries, pending);
        WithoutMember<RequestId, nat>(pending, ids, (entries[h].id, h));
      }
    }
    if NonePending(entries, pending) {
      forall i | 0 <= i < |pending'| ensures pending'[i].1 < |entries| && entries[pending'[i].1].status != Pending {
        WithoutMember(pending, ids, pending'[i]);
        assert pending'[i] in pending;
        var j :| 0 <= j < |pending| && pending[j] == pending'[i];
        assert pending[j].1 < |entries| && entries[pending[j].1].status != Pending;
      }
    }
  }

  /** Entries leave the indexes; nothing unsettled among them. */
  lemma RemoveKeeps(s: State, ids: set<RequestId>, recordIds: set<string>, t: State)
    requires Inv(s) && SameChoice(s.entries, s.pending, ids, recordIds)
    requires forall h :: 0 <= h < |s.entries| && !s.entries[h].settled ==> s.entries[h].id !in ids
    requires t == s.(pending := Without(s.pending, ids), byId := s.byId - recordIds, policies := t.policies)
    requires t.policies.Keys <= s.policies.Keys
    ensures Inv(t) && Forward(s, t)
  {
    RemoveIndex(s.entries, s.pending, s.byId, ids, recordIds);
    RemoveListed(s.entries, s.pending, ids);
    forall k | k in t.policies ensures KnownRecord(t.entries, k) { assert k in s.policies; }
    SameEntriesForward(s, t);
  }

  lemma OneChoice(entries: seq<Entry>, pending: seq<(RequestId, nat)>, h: nat)
    requires IdsUnique(entries) && h < |entries|
    ensures SameChoice(entries, pending, {entries[h].id}, {entries[h].recordId})
    ensures forall g :: 0 <= g < |entries| && g != h ==> entries[g].id != entries[h].id
  {
    forall g | 0 <= g < |entries| && g != h ensures Differ(entries[g], entries[h]) {
      if g < h { assert Differ(entries[g], entries[h]); } else { assert Differ(entries[h], entries[g]); }
    }
  }

  lemma ContinueKeeps(s: State, h: nat)
    requires Inv(s)
    ensures Inv(Continue(s, h)) && Forward(s, Continue(s, h))
  {
    if h < |s.entries| && s.entries[h].settled && !s.entries[h].returned {
      var e := s.entries[h];
      var f := e.(returned := true);
      var u := s.(entries := s.entries[h := f]);
      assert EntryOk(e, s.ttl);
      RecordHistory(s.entries, h, f, s.attempts, s.observed);
      TouchKeeps(s, u, h, f);
      if e.status == Pending {
        DropIsWithout(s.pending, e.id);
        OneChoice(u.entries, u.pending, h);
        RemoveKeeps(u, {e.id}, {e.recordId}, Continue(s, h));
        ForwardTransitive(s, u, Continue(s, h));
      }
    } else {
      SameEntriesForward(s, s);
    }
  }
}

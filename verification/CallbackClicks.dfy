/** Which clicks the daemon accepts, and how a token's status moves. */
module CallbackClicks {
  import opened Basics
  import opened BrokerModel
  import opened BrokerInvariant
  import opened BrokerRuns
  import opened BrokerEffects
  import opened CallbackModel

  // ---- good clicks ----------------------------------------------------

  /** The broker grants the click this row stands for, made by this actor. */
  predicate RowGranted(b: State, t: Token, actor: Actor, now: int) {
    t.approvalId in b.byId
    && Grants(b, Click(t.approvalId, t.action, actor, t.target, t.callbackNonce), now, b.byId[t.approvalId])
  }

  /** The row is bound to the pressed card. */
  predicate OnCard(t: Token, p: Press) {
    && t.status == Bound
    && p.messageRef.Some? && p.messageRef.value.messageId != "<unknown>" && t.messageRef == p.messageRef
  }

  /** The press tells who and where, and that user may press there. */
  predicate FromAllowed(p: Press) { p.actor.Some? && p.target.Some? && p.senderAllowed }

  predicate GoodPress(s: Protocol, hash: string, p: Press, now: int) {
    && hash in s.tokens && OnCard(s.tokens[hash], p) && FromAllowed(p) && p.target.value == s.tokens[hash].target
    && RowGranted(s.broker, s.tokens[hash], p.actor.value, now)
  }

  /** Same chat, missing parts read as empty. */
  predicate SameChat(a: Target, b: Target) {
    && a.platform == b.platform && a.chatId == b.chatId
    && (if a.threadKey.Some? then a.threadKey.value else "") == (if b.threadKey.Some? then b.threadKey.value else "")
    && (if a.topicId.Some? then a.topicId.value else "") == (if b.topicId.Some? then b.topicId.value else "")
  }

  predicate ForApproval(t: Token, approvalId: string, target: Target, action: UiAction) {
    t.status == Bound && t.approvalId == approvalId && t.action == action && SameChat(t.target, target) && t.messageRef.Some?
  }

  predicate ForCard(t: Token, target: Target, ref: MessageRef, action: UiAction) {
    t.status == Bound && t.action == action && SameChat(t.target, target) && t.messageRef == Some(ref)
  }

  /** The one bound row for this approval, chat and action. */
  predicate OnlyForApproval(s: Store, hash: string, approvalId: string, target: Target, action: UiAction) {
    && hash in s && ForApproval(s[hash], approvalId, target, action)
    && forall h :: h in s && ForApproval(s[h], approvalId, target, action) ==> h == hash
  }

  predicate OnlyForCard(s: Store, hash: string, target: Target, ref: MessageRef, action: UiAction) {
    && hash in s && ForCard(s[hash], target, ref, action)
    && forall h :: h in s && ForCard(s[h], target, ref, action) ==> h == hash
  }

  /** The store's two lookups find exactly such rows. */
  lemma LookupsFindOnlyRow(s: Store, hash: string, approvalId: string, target: Target, ref: MessageRef, action: UiAction)
    ensures FoundByApproval(s, hash, approvalId, target, action) <==> OnlyForApproval(s, hash, approvalId, target, action)
    ensures FoundByRef(s, hash, target, ref, action) <==> OnlyForCard(s, hash, target, ref, action)
  {
    forall h | h in s
      ensures ApprovalRow(s[h], approvalId, target, action) <==> ForApproval(s[h], approvalId, target, action)
      ensures RefRow(s[h], target, ref, action) <==> ForCard(s[h], target, ref, action)
    {
    }
    hide ApprovalRow, RefRow, ForApproval, ForCard;
  }

  predicate GoodApprove(s: Protocol, approvalId: string, action: UiAction, target: Target, actor: Option<Actor>,
                        hash: string, now: int)
  {
    && OnlyForApproval(s.tokens, hash, approvalId, target, action) && s.tokens[hash].target == target
    && actor.Some? && RowGranted(s.broker, s.tokens[hash], actor.value, now)
  }

  /** From `s` to `t` the click of row `hash` was accepted and awaits its follow-up. */
  predicate Accepts(s: Protocol, t: Protocol, hash: string, actor: Actor) {
    && hash in s.tokens && t.tokens == s.tokens
    && t.accepted == s.accepted + [Accepted(hash, s.tokens[hash].approvalId, s.tokens[hash].action, actor, Marking)]
  }

  lemma TryResolveIff(s: Protocol, hash: string, actor: Actor, now: int, later: int)
    requires Inv(s.broker) && hash in s.tokens
    ensures var (t, r) := TryResolve(s, hash, actor, now, later);
      && (r == Recorded <==> RowGranted(s.broker, s.tokens[hash], actor, now))
      && (r == Recorded ==> Accepts(s, t, hash, actor))
      && (r != Recorded ==>
            && r.Failed? && t == s.(broker := t.broker)
            && Explains(s.broker, Click(s.tokens[hash].approvalId, s.tokens[hash].action, actor, s.tokens[hash].target,
                                        s.tokens[hash].callbackNonce), now, r.error)
            && (!r.error.ExpiredNow? ==> t == s))
  {
    hide Inv, Resolve, Grants, Explains, ClosedFor, ClickAttempted;
    var c := ClickOf(s.tokens[hash], actor);
    var (b, r) := Resolve(s.broker, c, now, later);
    OkMeansWon(s.broker, c, now, later);
    RejectionTellsWhy(s.broker, c, now, later);
    if r.Err? { assert Explains(s.broker, c, now, r.error) && (!r.error.ExpiredNow? ==> b == s.broker); }
  }

  /** A press is recorded if and only if its row is bound to the pressed card in its
      chat, the sender may write there, and the broker grants the row's click. Every
      other answer names its cause and leaves the protocol as it was, but for a click
      that finds its approval expired. */
  lemma PressAccepted(s: Protocol, hash: string, p: Press, now: int, later: int)
    requires Inv(s.broker)
    ensures var (t, r) := HandlePress(s, hash, p, now, later);
      && (r == Recorded <==> GoodPress(s, hash, p, now))
      && (r == Recorded ==> p.actor.Some? && Accepts(s, t, hash, p.actor.value))
      && (r != Recorded ==> t == s.(broker := t.broker))
      && (r != Recorded && !(r.Failed? && r.error.ExpiredNow?) ==> t == s)
      && (r != Recorded ==> PressRefused(s, hash, p, now, r))
  {
    hide TryResolve, Inv, RowGranted, Explains;
    if hash in s.tokens && p.actor.Some? { TryResolveIff(s, hash, p.actor.value, now, later); }
  }

  predicate PressRefused(s: Protocol, hash: string, p: Press, now: int, r: Answer) {
    match r
    case Unknown => hash !in s.tokens
    case NotBound(status) => hash in s.tokens && s.tokens[hash].status == status != Bound
    case StaleMessage => hash in s.tokens && s.tokens[hash].status == Bound && !OnCard(s.tokens[hash], p)
    case Unauthorized => hash in s.tokens && OnCard(s.tokens[hash], p) && !FromAllowed(p)
    case WrongChat => hash in s.tokens && OnCard(s.tokens[hash], p) && FromAllowed(p) && p.target.value != s.tokens[hash].target
    case Failed(error) =>
      && hash in s.tokens && OnCard(s.tokens[hash], p) && FromAllowed(p) && p.target.value == s.tokens[hash].target
      && var t := s.tokens[hash];
         Explains(s.broker, Click(t.approvalId, t.action, p.actor.value, t.target, t.callbackNonce), now, error)
    case Recorded => false
  }

  /** Some listed record with this id is pending. */
  predicate Awaits(b: State, approvalId: string) {
    exists h: nat :: h < |b.entries| && Listed(h, b.entries, b.pending) && b.entries[h].status == Pending
      && b.entries[h].recordId == approvalId
  }

  lemma IsPendingAwaits(b: State, approvalId: string)
    requires Inv(b)
    ensures IsPending(b, approvalId) <==> Awaits(b, approvalId)
  {
    if i :| 0 <= i < |b.pending| && PendingUnder(b.pending[i], b.entries, approvalId) {
      HandlesDistinct(b);
      assert Listed(b.pending[i].1, b.entries, b.pending);
    }
    if h: nat :| h < |b.entries| && Listed(h, b.entries, b.pending) && b.entries[h].status == Pending
                && b.entries[h].recordId == approvalId {
      var i :| 0 <= i < |b.pending| && b.pending[i] == (b.entries[h].id, h);
      assert PendingUnder(b.pending[i], b.entries, approvalId);
    }
  }

  lemma GrantedIsPending(b: State, t: Token, actor: Actor, now: int)
    requires Inv(b) && RowGranted(b, t, actor, now)
    ensures Awaits(b, t.approvalId)
  {
    ByIdListed(b, t.approvalId);
    assert KeyOk(t.approvalId, b.byId[t.approvalId], b.pending, b.entries);
  }

  lemma OnlyRowIs(s: Store, hash: string, approvalId: string, target: Target, action: UiAction)
    ensures OnlyForApproval(s, hash, approvalId, target, action) ==>
      hash in s && s[hash].approvalId == approvalId && s[hash].action == action
  {
  }

  predicate ApproveRefused(s: Protocol, approvalId: string, action: UiAction, target: Target, actor: Option<Actor>,
                           hash: string, now: int, r: Answer)
  {
    match r
    case Unknown => !Awaits(s.broker, approvalId) || !OnlyForApproval(s.tokens, hash, approvalId, target, action)
    case WrongChat => Fits(s, approvalId, action, target, hash) && s.tokens[hash].target != target
    case Unauthorized => Fits(s, approvalId, action, target, hash) && s.tokens[hash].target == target && actor == None
    case Failed(error) =>
      && Fits(s, approvalId, action, target, hash) && s.tokens[hash].target == target && actor.Some?
      && var t := s.tokens[hash];
         Explains(s.broker, Click(t.approvalId, t.action, actor.value, t.target, t.callbackNonce), now, error)
    case _ => false
  }

  /** The approval awaits its answer, and the row is the only bound one for the command. */
  predicate Fits(s: Protocol, approvalId: string, action: UiAction, target: Target, hash: string) {
    Awaits(s.broker, approvalId) && OnlyForApproval(s.tokens, hash, approvalId, target, action)
  }

  lemma ApproveIs(s: Protocol, approvalId: string, action: UiAction, target: Target, actor: Option<Actor>,
                  hash: string, now: int, later: int)
    requires Inv(s.broker)
    ensures Fits(s, approvalId, action, target, hash) ==>
      hash in s.tokens && s.tokens[hash].approvalId == approvalId && s.tokens[hash].action == action
    ensures HandleApprove(s, approvalId, action, target, actor, hash, now, later) ==
      if !Fits(s, approvalId, action, target, hash) then (s, Unknown)
      else if s.tokens[hash].target != target then (s, WrongChat)
      else if actor == None then (s, Unauthorized)
      else TryResolve(s, hash, actor.value, now, later)
  {
    hide TryResolve, Inv, IsPending, Awaits, FoundByApproval, OnlyForApproval, FoundByRef, OnlyForCard;
    LookupsFindOnlyRow(s.tokens, hash, approvalId, target, MessageRef("", ""), action);
    IsPendingAwaits(s.broker, approvalId);
    OnlyRowIs(s.tokens, hash, approvalId, target, action);
  }

  /** The text command is recorded if and only if its row is the only bound one for the
      approval, chat and action, is of this very chat, and the broker grants its click. */
  lemma ApproveAccepted(s: Protocol, approvalId: string, action: UiAction, target: Target, actor: Option<Actor>,
                        hash: string, now: int, later: int)
    requires Inv(s.broker)
    ensures var (t, r) := HandleApprove(s, approvalId, action, target, actor, hash, now, later);
      && (r == Recorded <==> GoodApprove(s, approvalId, action, target, actor, hash, now))
      && (r == Recorded ==>
            && actor.Some? && Accepts(s, t, hash, actor.value)
            && s.tokens[hash].action == action && s.tokens[hash].approvalId == approvalId)
      && (r != Recorded ==> t == s.(broker := t.broker))
      && (r != Recorded && !(r.Failed? && r.error.ExpiredNow?) ==> t == s)
      && (r != Recorded ==> ApproveRefused(s, approvalId, action, target, actor, hash, now, r))
  {
    hide HandleApprove, TryResolve, Inv, Awaits, OnlyForApproval, RowGranted, Explains;
    ApproveIs(s, approvalId, action, target, actor, hash, now, later);
    OnlyRowIs(s.tokens, hash, approvalId, target, action);
    if hash in s.tokens && actor.Some? {
      TryResolveIff(s, hash, actor.value, now, later);
      if RowGranted(s.broker, s.tokens[hash], actor.value, now) { GrantedIsPending(s.broker, s.tokens[hash], actor.value, now); }
    }
  }

  // ---- over runs ------------------------------------------------------

  /** `step`, taken in state `s`, was the good click that `a` records. */
  predicate ClickBehind(s: Protocol, step: Step, a: Accepted) {
    && a.hash in s.tokens && s.tokens[a.hash].approvalId == a.approvalId && s.tokens[a.hash].action == a.action
    && match step
       case StepPress(hash, p, now, _) => hash == a.hash && GoodPress(s, hash, p, now) && p.actor == Some(a.actor)
       case StepApprove(approvalId, action, target, actor, hash, now, _) =>
         && hash == a.hash && approvalId == a.approvalId && action == a.action && actor == Some(a.actor)
         && GoodApprove(s, approvalId, action, target, actor, hash, now)
       case _ => false
  }

  predicate SameClick(a: Accepted, b: Accepted) {
    a.hash == b.hash && a.approvalId == b.approvalId && a.action == b.action && a.actor == b.actor
  }

  lemma StepAccepts(s: Protocol, step: Step)
    requires Inv(s.broker)
    ensures var t, n := Take(s, step), |s.accepted|;
      && n <= |t.accepted| <= n + 1
      && (forall i :: 0 <= i < n ==> SameClick(s.accepted[i], t.accepted[i]))
      && (|t.accepted| == n + 1 ==> ClickBehind(s, step, t.accepted[n]))
  {
    hide HandlePress, HandleApprove, Inv, GoodPress, GoodApprove, PressRefused;
    match step
    case StepPress(h, p, now, later) =>
      PressAccepted(s, h, p, now, later);
    case StepApprove(a, action, t, actor, h, now, later) =>
      ApproveAccepted(s, a, action, t, actor, h, now, later);
    case _ =>
  }

  /** Step `k` of the run was the good click that `a` records. */
  predicate ClickedAt(s0: Protocol, steps: seq<Step>, k: int, a: Accepted)
    requires 0 <= k < |steps|
  {
    ClickBehind(TakeAll(s0, steps[..k]), steps[k], a)
  }

  lemma SameClickBehind(s: Protocol, step: Step, a: Accepted, b: Accepted)
    requires ClickBehind(s, step, a) && SameClick(a, b)
    ensures ClickBehind(s, step, b)
  {
    hide GoodPress, GoodApprove;
  }

  lemma LastStep(s0: Protocol, steps: seq<Step>)
    requires ProtocolInv(s0) && LegalSteps(s0, steps) && steps != []
    ensures var n := |steps| - 1;
      && LegalSteps(s0, steps[..n]) && Inv(TakeAll(s0, steps[..n]).broker)
      && TakeAll(s0, steps) == Take(TakeAll(s0, steps[..n]), steps[n])
  {
    hide Take, LegalStep, Inv;
    TakeAllKeeps(s0, steps[..|steps| - 1]);
  }

  /** Some step of the run was the good click that `a` records. */
  predicate WasGood(s0: Protocol, steps: seq<Step>, a: Accepted) {
    exists k :: 0 <= k < |steps| && ClickedAt(s0, steps, k, a)
  }

  /** Every accepted click of a run goes back to one press or command, good at its time. */
  lemma {:induction false} AcceptedWasGood(s0: Protocol, steps: seq<Step>, i: nat)
    requires ProtocolInv(s0) && s0.accepted == [] && LegalSteps(s0, steps) && i < |TakeAll(s0, steps).accepted|
    ensures WasGood(s0, steps, TakeAll(s0, steps).accepted[i])
  {
    hide *;
    NothingAccepted(s0);
    if steps != [] {
      LastStep(s0, steps);
      var n := |steps| - 1;
      var s, t := TakeAll(s0, steps[..n]), TakeAll(s0, steps);
      StepAccepts(s, steps[n]);
      if i < |s.accepted| {
        AcceptedWasGood(s0, steps[..n], i);
        ClickedBefore(s0, steps, s.accepted[i], t.accepted[i]);
      } else {
        ClickedNow(s0, steps, t.accepted[i]);
      }
    }
  }

  lemma NothingAccepted(s0: Protocol)
    ensures TakeAll(s0, []) == s0
  {
  }

  lemma ClickedNow(s0: Protocol, steps: seq<Step>, a: Accepted)
    requires steps != [] && ClickBehind(TakeAll(s0, steps[..|steps| - 1]), steps[|steps| - 1], a)
    ensures WasGood(s0, steps, a)
  {
    hide ClickBehind, TakeAll;
    assert ClickedAt(s0, steps, |steps| - 1, a);
  }

  lemma ClickedBefore(s0: Protocol, steps: seq<Step>, a: Accepted, b: Accepted)
    requires steps != [] && WasGood(s0, steps[..|steps| - 1], a) && SameClick(a, b)
    ensures WasGood(s0, steps, b)
  {
    hide TakeAll, ClickBehind, SameClick;
    var front := steps[..|steps| - 1];
    var k :| 0 <= k < |front| && ClickedAt(s0, front, k, a);
    assert front[..k] == steps[..k] && front[k] == steps[k];
    SameClickBehind(TakeAll(s0, steps[..k]), steps[k], a, b);
    assert ClickedAt(s0, steps, k, b);
  }

  /** A used token of a run was clicked by a good press or command. */
  lemma UsedWasClicked(s0: Protocol, steps: seq<Step>, hash: string)
    requires ProtocolInv(s0) && s0.accepted == [] && LegalSteps(s0, steps)
    requires hash in TakeAll(s0, steps).tokens && TakeAll(s0, steps).tokens[hash].status == Used
    ensures exists a: Accepted :: a.hash == hash && WasGood(s0, steps, a)
  {
    TakeAllKeeps(s0, steps);
    var s := TakeAll(s0, steps);
    assert WasAccepted(s.accepted, hash);
    var i :| 0 <= i < |s.accepted| && s.accepted[i].hash == hash && s.accepted[i].phase != Marking;
    AcceptedWasGood(s0, steps, i);
  }

  // ---- the life of a token --------------------------------------------

  /** This step gives this row the status `to`. */
  predicate Moves(s: Protocol, step: Step, hash: string, to: TokenStatus)
    requires hash in s.tokens
  {
    var t := s.tokens[hash];
    match step
    case StepBind(h, _) => h == hash && t.status == Issued && to == Bound
    case StepMark(i) => i < |s.accepted| && s.accepted[i].phase == Marking && s.accepted[i].hash == hash && to == Used
    case StepFinalize(i) =>
      && i < |s.accepted| && s.accepted[i].phase == Finalizing && s.accepted[i].approvalId == t.approvalId
      && s.accepted[i].hash != hash && t.status == Bound && to == Revoked
    case StepRevokeActive => (t.status == Issued || t.status == Bound) && to == Revoked
    case StepExpireTokens(chosen) => hash in chosen && (t.status == Issued || t.status == Bound) && to == TokenExpired
    case StepRevokeStuck(chosen) => hash in chosen && t.status == Issued && to == Revoked
    case _ => false
  }

  /** Rows are never lost and keep what they are for; a status moves exactly as these
      steps say, and the card is set once, by binding. */
  lemma StatusMoves(s: Protocol, step: Step, hash: string)
    requires hash in s.tokens
    ensures var s', t := Take(s, step), s.tokens[hash];
      && hash in s'.tokens
      && var u := s'.tokens[hash];
      && u.approvalId == t.approvalId && u.action == t.action && u.callbackNonce == t.callbackNonce && u.target == t.target
      && u.messageRef == (if step.StepBind? && step.hash == hash && t.status == Issued then Some(step.ref) else t.messageRef)
      && (forall to :: to != t.status ==> (u.status == to <==> Moves(s, step, hash, to)))
  {
    hide Apply, Resolve, IssueAll;
    match step
    case StepIssue(a, n, t, actions, hashes) => if |actions| == |hashes| { IssueKeepsRows(s.tokens, a, n, t, actions, hashes); }
    case _ =>
  }

  lemma {:induction false} IssueKeepsRows(s: Store, approvalId: string, nonce: string, target: Target,
                                          actions: seq<UiAction>, hashes: seq<string>)
    requires |actions| == |hashes|
    ensures var t := IssueAll(s, approvalId, nonce, target, actions, hashes);
      forall h :: h in s ==> h in t && t[h] == s[h]
    decreases |actions|
  {
    if actions != [] && hashes[0] !in s {
      IssueKeepsRows(s[hashes[0] := Token(approvalId, actions[0], nonce, target, Issued, None)],
                     approvalId, nonce, target, actions[1..], hashes[1..]);
    }
  }

  /** How many hashes in front are neither taken nor repeated. */
  function FreshHashes(taken: set<string>, hashes: seq<string>): (n: nat)
    ensures n <= |hashes|
    decreases |hashes|
  {
    if hashes == [] || hashes[0] in taken then 0 else 1 + FreshHashes(taken + {hashes[0]}, hashes[1..])
  }

  lemma {:induction false} FreshHashesMeans(taken: set<string>, hashes: seq<string>)
    ensures var n := FreshHashes(taken, hashes);
      && (forall i :: 0 <= i < n ==> hashes[i] !in taken)
      && (forall i, j :: 0 <= i < j < n ==> hashes[i] != hashes[j])
      && (n < |hashes| ==> hashes[n] in taken || hashes[n] in hashes[..n])
    decreases |hashes|
  {
    if hashes != [] && hashes[0] !in taken {
      var rest := hashes[1..];
      FreshHashesMeans(taken + {hashes[0]}, rest);
      var m := FreshHashes(taken + {hashes[0]}, rest);
      assert forall i :: 0 <= i < m ==> rest[i] == hashes[i + 1];
      if m < |rest| && rest[m] in rest[..m] {
        var i :| 0 <= i < m && rest[i] == rest[m];
        assert hashes[..m + 1][i + 1] == hashes[m + 1];
      }
      if m < |rest| && rest[m] == hashes[0] { assert hashes[..m + 1][0] == hashes[m + 1]; }
    }
  }

  /** Issuing adds one row per action, issued and not yet on a card, up to the first hash
      that is taken or repeated, and no other row. */
  lemma {:induction false} IssueAddsRows(s: Store, approvalId: string, nonce: string, target: Target,
                                         actions: seq<UiAction>, hashes: seq<string>)
    requires |actions| == |hashes|
    ensures var t, n := IssueAll(s, approvalId, nonce, target, actions, hashes), FreshHashes(s.Keys, hashes);
      && (forall i :: 0 <= i < n ==>
            hashes[i] in t && t[hashes[i]] == Token(approvalId, actions[i], nonce, target, Issued, None))
      && (forall h :: h in t <==> h in s || h in hashes[..n])
    decreases |actions|
  {
    if actions != [] && hashes[0] !in s {
      var u := s[hashes[0] := Token(approvalId, actions[0], nonce, target, Issued, None)];
      var rest := hashes[1..];
      assert u.Keys == s.Keys + {hashes[0]};
      IssueAddsRows(u, approvalId, nonce, target, actions[1..], rest);
      IssueKeepsRows(u, approvalId, nonce, target, actions[1..], rest);
      var m := FreshHashes(u.Keys, rest);
      var t := IssueAll(s, approvalId, nonce, target, actions, hashes);
      forall i | 0 <= i < m + 1
        ensures hashes[i] in t && t[hashes[i]] == Token(approvalId, actions[i], nonce, target, Issued, None)
      {
        if i > 0 { assert rest[i - 1] == hashes[i] && actions[1..][i - 1] == actions[i]; }
      }
      assert hashes[..m + 1] == [hashes[0]] + rest[..m];
    }
  }
}

/** The callback-token protocol on top of the broker: tokens are issued, bound
    to a sent card, and at most one of an approval's tokens gets used.

    A click is one atomic step up to the broker's answer. What follows an
    accepted click, marking its token and then revoking the siblings, comes in
    steps of its own, so that anything can happen in between. */
module CallbackModel {
  import opened Basics
  import opened BrokerModel
  import opened BrokerInvariant
  import opened BrokerRuns

  datatype TokenStatus = Issued | Bound | Used | TokenExpired | Revoked

  datatype MessageRef = MessageRef(chatId: string, messageId: string)

  datatype Token = Token(
    approvalId: string,
    action: UiAction,
    callbackNonce: string,
    target: Target,
    status: TokenStatus,
    messageRef: Option<MessageRef>)

  type Store = map<string, Token>

  datatype Phase = Marking | Finalizing | Finished

  /** An accepted click: the token row as it was read, the actor, and how far the follow-up got. */
  datatype Accepted = Accepted(hash: string, approvalId: string, action: UiAction, actor: Actor, phase: Phase)

  datatype Protocol = Protocol(broker: State, tokens: Store, accepted: seq<Accepted>)

  // ---- the store ------------------------------------------------------

  predicate CanCas(s: Store, hash: string, from: TokenStatus) { hash in s && s[hash].status == from }

  function WithStatus(s: Store, hash: string, status: TokenStatus): Store {
    if hash in s then s[hash := s[hash].(status := status)] else s
  }

  /** Compare and set: the row changes only if its status is `from`. */
  function CasToken(s: Store, hash: string, from: TokenStatus, to: TokenStatus): Store {
    if CanCas(s, hash, from) then WithStatus(s, hash, to) else s
  }

  function BindToken(s: Store, hash: string, ref: MessageRef): Store {
    if CanCas(s, hash, Issued) then s[hash := s[hash].(status := Bound, messageRef := Some(ref))] else s
  }

  function RevokeSiblings(s: Store, approvalId: string, except: string): Store {
    map h | h in s :: if s[h].approvalId == approvalId && h != except && s[h].status == Bound then s[h].(status := Revoked) else s[h]
  }

  /** Rows of `chosen` that are still in one of the `from` statuses go to `to`. */
  function Retire(s: Store, chosen: set<string>, from: set<TokenStatus>, to: TokenStatus): Store {
    map h | h in s :: if h in chosen && s[h].status in from then s[h].(status := to) else s[h]
  }

  function OrEmpty(o: Option<string>): string { if o.Some? then o.value else "" }

  /** The store compares targets with missing parts read as empty. */
  predicate SameTargetRow(a: Target, b: Target) {
    a.platform == b.platform && a.chatId == b.chatId
    && OrEmpty(a.threadKey) == OrEmpty(b.threadKey) && OrEmpty(a.topicId) == OrEmpty(b.topicId)
  }

  predicate RefRow(t: Token, target: Target, ref: MessageRef, action: UiAction) {
    t.status == Bound && t.action == action && SameTargetRow(t.target, target) && t.messageRef == Some(ref)
  }

  predicate ApprovalRow(t: Token, approvalId: string, target: Target, action: UiAction) {
    t.status == Bound && t.approvalId == approvalId && t.action == action
    && SameTargetRow(t.target, target) && t.messageRef.Some?
  }

  /** `hash` is the only bound row for this message and action. */
  predicate FoundByRef(s: Store, hash: string, target: Target, ref: MessageRef, action: UiAction) {
    hash in s && RefRow(s[hash], target, ref, action)
    && forall h :: h in s && RefRow(s[h], target, ref, action) ==> h == hash
  }

  predicate FoundByApproval(s: Store, hash: string, approvalId: string, target: Target, action: UiAction) {
    hash in s && ApprovalRow(s[hash], approvalId, target, action)
    && forall h :: h in s && ApprovalRow(s[h], approvalId, target, action) ==> h == hash
  }

  // ---- issuing --------------------------------------------------------

  /** One row per action, in order; a hash that is taken ends the loop with an exception. */
  function IssueAll(s: Store, approvalId: string, nonce: string, target: Target,
                    actions: seq<UiAction>, hashes: seq<string>): Store
    requires |actions| == |hashes|
    decreases |actions|
  {
    if actions == [] || hashes[0] in s then s
    else IssueAll(s[hashes[0] := Token(approvalId, actions[0], nonce, target, Issued, None)],
                  approvalId, nonce, target, actions[1..], hashes[1..])
  }

  // ---- clicks ---------------------------------------------------------

  /** An inbound button press; the parts an adapter may fail to supply are options. */
  datatype Press = Press(messageRef: Option<MessageRef>, target: Option<Target>, actor: Option<Actor>, senderAllowed: bool)

  datatype Answer =
    | Unknown | NotBound(status: TokenStatus) | StaleMessage | Unauthorized | WrongChat
    | Failed(error: ResolveError) | Recorded

  function ClickOf(t: Token, actor: Actor): Click {
    Click(t.approvalId, t.action, actor, t.target, t.callbackNonce)
  }

  /** Hand the token's click to the broker; remember it if it was accepted. */
  function TryResolve(s: Protocol, hash: string, actor: Actor, now: int, later: int): (Protocol, Answer)
    requires hash in s.tokens
  {
    var t := s.tokens[hash];
    var (b, r) := Resolve(s.broker, ClickOf(t, actor), now, later);
    if r.Ok? then
      (s.(broker := b, accepted := s.accepted + [Accepted(hash, t.approvalId, t.action, actor, Marking)]), Recorded)
    else (s.(broker := b), Failed(r.error))
  }

  /** A press that found the token row `hash`. */
  function HandlePress(s: Protocol, hash: string, p: Press, now: int, later: int): (Protocol, Answer) {
    if hash !in s.tokens then (s, Unknown)
    else
      var t := s.tokens[hash];
      if t.status != Bound then (s, NotBound(t.status))
      else if p.messageRef == None || p.messageRef.value.messageId == "<unknown>" || t.messageRef != p.messageRef then
        (s, StaleMessage)
      else if p.actor == None || p.target == None then (s, Unauthorized)
      else if !p.senderAllowed then (s, Unauthorized)
      else if t.target != p.target.value then (s, WrongChat)
      else TryResolve(s, hash, p.actor.value, now, later)
  }

  predicate IsPending(b: State, approvalId: string) {
    exists i :: 0 <= i < |b.pending| && PendingUnder(b.pending[i], b.entries, approvalId)
  }

  /** `/approve` with the row its lookup found. */
  function HandleApprove(s: Protocol, approvalId: string, action: UiAction, target: Target, actor: Option<Actor>,
                         hash: string, now: int, later: int): (Protocol, Answer)
  {
    if !IsPending(s.broker, approvalId) then (s, Unknown)
    else if !FoundByApproval(s.tokens, hash, approvalId, target, action) then (s, Unknown)
    else if s.tokens[hash].target != target then (s, WrongChat)
    else if actor == None then (s, Unauthorized)
    else TryResolve(s, hash, actor.value, now, later)
  }

  // ---- follow-up ------------------------------------------------------

  /** The token becomes used: by compare-and-set, or by force if that fails. */
  function MarkAccepted(s: Protocol, i: nat): Protocol {
    if i >= |s.accepted| || s.accepted[i].phase != Marking then s
    else s.(tokens := WithStatus(s.tokens, s.accepted[i].hash, Used),
            accepted := s.accepted[i := s.accepted[i].(phase := Finalizing)])
  }

  function FinalizeAccepted(s: Protocol, i: nat): Protocol {
    if i >= |s.accepted| || s.accepted[i].phase != Finalizing then s
    else s.(tokens := RevokeSiblings(s.tokens, s.accepted[i].approvalId, s.accepted[i].hash),
            accepted := s.accepted[i := s.accepted[i].(phase := Finished)])
  }

  // ---- runs -----------------------------------------------------------

  datatype Step =
    | StepBroker(op: Op)
    | StepIssue(approvalId: string, nonce: string, target: Target, actions: seq<UiAction>, hashes: seq<string>)
    | StepBind(hash: string, ref: MessageRef)
    | StepPress(hash: string, press: Press, now: int, later: int)
    | StepApprove(approvalId: string, action: UiAction, target: Target, actor: Option<Actor>, hash: string, now: int, later: int)
    | StepMark(i: nat)
    | StepFinalize(i: nat)
    | StepRevokeActive
    | StepExpireTokens(chosen: set<string>)
    | StepRevokeStuck(chosen: set<string>)

  function Take(s: Protocol, step: Step): Protocol {
    match step
    case StepBroker(op) => s.(broker := Apply(s.broker, op))
    case StepIssue(a, n, t, actions, hashes) =>
      if |actions| == |hashes| then s.(tokens := IssueAll(s.tokens, a, n, t, actions, hashes)) else s
    case StepBind(h, ref) => s.(tokens := BindToken(s.tokens, h, ref))
    case StepPress(h, p, now, later) => HandlePress(s, h, p, now, later).0
    case StepApprove(a, action, t, actor, h, now, later) => HandleApprove(s, a, action, t, actor, h, now, later).0
    case StepMark(i) => MarkAccepted(s, i)
    case StepFinalize(i) => FinalizeAccepted(s, i)
    case StepRevokeActive => s.(tokens := Retire(s.tokens, s.tokens.Keys, {Issued, Bound}, Revoked))
    case StepExpireTokens(chosen) => s.(tokens := Retire(s.tokens, chosen, {Issued, Bound}, TokenExpired))
    case StepRevokeStuck(chosen) => s.(tokens := Retire(s.tokens, chosen, {Issued}, Revoked))
  }

  predicate LegalStep(s: Protocol, step: Step) { step.StepBroker? ==> Legal(s.broker, step.op) }

  function TakeAll(s: Protocol, steps: seq<Step>): Protocol {
    if steps == [] then s else Take(TakeAll(s, steps[..|steps| - 1]), steps[|steps| - 1])
  }

  predicate LegalSteps(s: Protocol, steps: seq<Step>) {
    steps == [] ||
    (LegalSteps(s, steps[..|steps| - 1]) && LegalStep(TakeAll(s, steps[..|steps| - 1]), steps[|steps| - 1]))
  }

  // ---- invariant ------------------------------------------------------

  /** The broker resolved this approval by this click. */
  predicate Decided(e: Entry, a: Accepted) {
    && e.recordId == a.approvalId && e.status == Resolved
    && e.actor == Some(a.actor) && e.decision == Some(ActionToDecision(a.action))
  }

  predicate AcceptedOk(a: Accepted, entries: seq<Entry>, tokens: Store) {
    && (exists h :: 0 <= h < |entries| && Decided(entries[h], a))
    && a.hash in tokens
    && tokens[a.hash].approvalId == a.approvalId && tokens[a.hash].action == a.action
    && (a.phase != Marking ==> tokens[a.hash].status == Used)
  }

  predicate AllAcceptedOk(accepted: seq<Accepted>, entries: seq<Entry>, tokens: Store) {
    forall i :: 0 <= i < |accepted| ==> AcceptedOk(accepted[i], entries, tokens)
  }

  predicate OnePerApproval(accepted: seq<Accepted>) {
    forall i, j :: 0 <= i < j < |accepted| ==> accepted[i].approvalId != accepted[j].approvalId
  }

  predicate UsedOk(accepted: seq<Accepted>, tokens: Store) {
    forall h :: h in tokens && tokens[h].status == Used ==> WasAccepted(accepted, h)
  }

  predicate WasAccepted(accepted: seq<Accepted>, hash: string) {
    exists i :: 0 <= i < |accepted| && accepted[i].hash == hash && accepted[i].phase != Marking
  }

  predicate ProtocolInv(s: Protocol) {
    && Inv(s.broker)
    && AllAcceptedOk(s.accepted, s.broker.entries, s.tokens)
    && OnePerApproval(s.accepted)
    && UsedOk(s.accepted, s.tokens)
  }

  /** Rows keep what they are for, and used stays used. */
  predicate StoreForward(s: Store, t: Store) {
    forall h :: h in s ==>
      && h in t && t[h].approvalId == s[h].approvalId && t[h].action == s[h].action
      && (s[h].status == Used ==> t[h].status == Used)
  }

  predicate NoNewUsed(s: Store, t: Store) {
    forall h :: h in t && t[h].status == Used ==> h in s && s[h].status == Used
  }

  lemma StoreStepKeeps(s: Protocol, t: Protocol)
    requires ProtocolInv(s) && t == s.(tokens := t.tokens) && StoreForward(s.tokens, t.tokens) && NoNewUsed(s.tokens, t.tokens)
    ensures ProtocolInv(t)
  {
    forall i | 0 <= i < |t.accepted| ensures AcceptedOk(t.accepted[i], t.broker.entries, t.tokens) {
      assert AcceptedOk(s.accepted[i], s.broker.entries, s.tokens);
    }
  }

  lemma {:induction false} IssueForward(s: Store, approvalId: string, nonce: string, target: Target,
                                        actions: seq<UiAction>, hashes: seq<string>)
    requires |actions| == |hashes|
    ensures var t := IssueAll(s, approvalId, nonce, target, actions, hashes); StoreForward(s, t) && NoNewUsed(s, t)
    decreases |actions|
  {
    if actions != [] && hashes[0] !in s {
      var u := s[hashes[0] := Token(approvalId, actions[0], nonce, target, Issued, None)];
      IssueForward(u, approvalId, nonce, target, actions[1..], hashes[1..]);
    }
  }

  lemma ForwardAccepted(a: Accepted, s: State, t: State, tokens: Store)
    requires AcceptedOk(a, s.entries, tokens) && Forward(s, t)
    ensures AcceptedOk(a, t.entries, tokens)
  {
    var h :| 0 <= h < |s.entries| && Decided(s.entries[h], a);
    assert Advances(s.entries[h], t.entries[h]);
    assert Decided(t.entries[h], a);
  }

  lemma BrokerStepKeeps(s: Protocol, b: State)
    requires ProtocolInv(s) && Inv(b) && Forward(s.broker, b)
    ensures ProtocolInv(s.(broker := b))
  {
    forall i | 0 <= i < |s.accepted| ensures AcceptedOk(s.accepted[i], b.entries, s.tokens) {
      ForwardAccepted(s.accepted[i], s.broker, b, s.tokens);
    }
  }

  /** An accepted click was the first for its approval. */
  lemma FreshAcceptance(s: Protocol, c: Click, now: int)
    requires ProtocolInv(s) && c.approvalId in s.broker.byId && Grants(s.broker, c, now, s.broker.byId[c.approvalId])
    ensures forall i :: 0 <= i < |s.accepted| ==> s.accepted[i].approvalId != c.approvalId
  {
    var b, h := s.broker, s.broker.byId[c.approvalId];
    assert KeyOk(c.approvalId, h, b.pending, b.entries);
    forall i | 0 <= i < |s.accepted| ensures s.accepted[i].approvalId != c.approvalId {
      assert AcceptedOk(s.accepted[i], b.entries, s.tokens);
      var g :| 0 <= g < |b.entries| && Decided(b.entries[g], s.accepted[i]);
      RecordIdsTell(b.entries, g, h);
    }
  }

  lemma RecordIdsTell(entries: seq<Entry>, g: nat, h: nat)
    requires IdsUnique(entries) && g < |entries| && h < |entries|
    ensures entries[g].recordId == entries[h].recordId ==> g == h
  {
    assert g < h ==> Differ(entries[g], entries[h]);
    assert h < g ==> Differ(entries[h], entries[g]);
  }

  lemma TryResolveKeeps(s: Protocol, hash: string, actor: Actor, now: int, later: int)
    requires ProtocolInv(s) && hash in s.tokens
    ensures ProtocolInv(TryResolve(s, hash, actor, now, later).0)
  {
    var t := s.tokens[hash];
    var c := ClickOf(t, actor);
    var (b, r) := Resolve(s.broker, c, now, later);
    ResolveKeeps(s.broker, c, now, later);
    BrokerStepKeeps(s, b);
    if r.Ok? {
      OkMeansWon(s.broker, c, now, later);
      FreshAcceptance(s, c, now);
      var a := Accepted(hash, t.approvalId, t.action, actor, Marking);
      GrantedIsDecided(s.broker, c, now, later, a);
      AcceptMore(s.accepted, a, b.entries, s.tokens);
    }
  }

  lemma OkIsGrant(b: State, c: Click, now: int, later: int)
    requires Resolve(b, c, now, later).1.Ok?
    ensures c.approvalId in b.byId && b.byId[c.approvalId] < |b.entries|
    ensures var h := b.byId[c.approvalId];
      ClickOutcome(b.entries[h].kind, c.action).Some?
      && Resolve(b, c, now, later).0 == Grant(b, h, c, ClickOutcome(b.entries[h].kind, c.action).value, later)
  {
  }

  lemma GrantedIsDecided(b: State, c: Click, now: int, later: int, a: Accepted)
    requires Inv(b) && Resolve(b, c, now, later).1.Ok?
    requires a.approvalId == c.approvalId && a.action == c.action && a.actor == c.actor
    ensures var t := Resolve(b, c, now, later).0; exists h :: 0 <= h < |t.entries| && Decided(t.entries[h], a)
  {
    OkIsGrant(b, c, now, later);
    var h, t := b.byId[c.approvalId], Resolve(b, c, now, later).0;
    assert KeyOk(c.approvalId, h, b.pending, b.entries);
    GrantDecides(b, h, c, ClickOutcome(b.entries[h].kind, c.action).value, later);
    assert Decided(t.entries[h], a);
  }

  lemma GrantDecides(b: State, h: nat, c: Click, outcome: WireOutcome, later: int)
    requires h < |b.entries|
    ensures var t := Grant(b, h, c, outcome, later);
      && |t.entries| == |b.entries| && t.entries[h].recordId == b.entries[h].recordId && t.entries[h].status == Resolved
      && t.entries[h].actor == Some(c.actor) && t.entries[h].decision == Some(ActionToDecision(c.action))
  {
  }

  lemma AcceptMore(accepted: seq<Accepted>, a: Accepted, entries: seq<Entry>, tokens: Store)
    requires AllAcceptedOk(accepted, entries, tokens) && OnePerApproval(accepted) && UsedOk(accepted, tokens)
    requires AcceptedOk(a, entries, tokens)
    requires forall i :: 0 <= i < |accepted| ==> accepted[i].approvalId != a.approvalId
    ensures AllAcceptedOk(accepted + [a], entries, tokens) && OnePerApproval(accepted + [a]) && UsedOk(accepted + [a], tokens)
  {
    forall h | h in tokens && tokens[h].status == Used ensures WasAccepted(accepted + [a], h) {
      assert WasAccepted(accepted, h);
      var i :| 0 <= i < |accepted| && accepted[i].hash == h && accepted[i].phase != Marking;
      assert (accepted + [a])[i] == accepted[i];
    }
  }

  lemma PhaseKeeps(s: Protocol, i: nat, phase: Phase, tokens: Store)
    requires ProtocolInv(s) && i < |s.accepted| && phase != Marking
    requires StoreForward(s.tokens, tokens) && s.accepted[i].hash in tokens && tokens[s.accepted[i].hash].status == Used
    requires forall h :: h in tokens && tokens[h].status == Used ==>
      h == s.accepted[i].hash || (h in s.tokens && s.tokens[h].status == Used)
    ensures ProtocolInv(s.(tokens := tokens, accepted := s.accepted[i := s.accepted[i].(phase := phase)]))
  {
    hide Inv;
    var accepted := s.accepted[i := s.accepted[i].(phase := phase)];
    forall k | 0 <= k < |accepted| ensures AcceptedOk(accepted[k], s.broker.entries, tokens) {
      assert AcceptedOk(s.accepted[k], s.broker.entries, s.tokens);
      var h :| 0 <= h < |s.broker.entries| && Decided(s.broker.entries[h], s.accepted[k]);
      assert Decided(s.broker.entries[h], accepted[k]);
    }
    forall h | h in tokens && tokens[h].status == Used ensures WasAccepted(accepted, h) {
      if h == s.accepted[i].hash {
        assert accepted[i].hash == h;
      } else {
        assert WasAccepted(s.accepted, h);
        var k :| 0 <= k < |s.accepted| && s.accepted[k].hash == h && s.accepted[k].phase != Marking;
        assert accepted[k].hash == h && accepted[k].phase != Marking;
      }
    }
  }

  lemma MarkKeeps(s: Protocol, i: nat)
    requires ProtocolInv(s)
    ensures ProtocolInv(MarkAccepted(s, i))
  {
    if i < |s.accepted| && s.accepted[i].phase == Marking {
      assert AcceptedOk(s.accepted[i], s.broker.entries, s.tokens);
      PhaseKeeps(s, i, Finalizing, WithStatus(s.tokens, s.accepted[i].hash, Used));
    }
  }

  lemma FinalizeKeeps(s: Protocol, i: nat)
    requires ProtocolInv(s)
    ensures ProtocolInv(FinalizeAccepted(s, i))
  {
    if i < |s.accepted| && s.accepted[i].phase == Finalizing {
      assert AcceptedOk(s.accepted[i], s.broker.entries, s.tokens);
      PhaseKeeps(s, i, Finished, RevokeSiblings(s.tokens, s.accepted[i].approvalId, s.accepted[i].hash));
    }
  }

  lemma RetireForward(s: Store, chosen: set<string>, from: set<TokenStatus>, to: TokenStatus)
    requires Used !in from && to != Used
    ensures StoreForward(s, Retire(s, chosen, from, to)) && NoNewUsed(s, Retire(s, chosen, from, to))
  {
  }

  lemma RetireKeeps(s: Protocol, chosen: set<string>, from: set<TokenStatus>, to: TokenStatus)
    requires ProtocolInv(s) && Used !in from && to != Used
    ensures ProtocolInv(s.(tokens := Retire(s.tokens, chosen, from, to)))
  {
    RetireForward(s.tokens, chosen, from, to);
    StoreStepKeeps(s, s.(tokens := Retire(s.tokens, chosen, from, to)));
  }

  lemma BindTokenKeeps(s: Protocol, hash: string, ref: MessageRef)
    requires ProtocolInv(s)
    ensures ProtocolInv(s.(tokens := BindToken(s.tokens, hash, ref)))
  {
    StoreStepKeeps(s, s.(tokens := BindToken(s.tokens, hash, ref)));
  }

  lemma IssueKeeps(s: Protocol, approvalId: string, nonce: string, target: Target, actions: seq<UiAction>, hashes: seq<string>)
    requires ProtocolInv(s) && |actions| == |hashes|
    ensures ProtocolInv(s.(tokens := IssueAll(s.tokens, approvalId, nonce, target, actions, hashes)))
  {
    IssueForward(s.tokens, approvalId, nonce, target, actions, hashes);
    StoreStepKeeps(s, s.(tokens := IssueAll(s.tokens, approvalId, nonce, target, actions, hashes)));
  }

  lemma PressKeeps(s: Protocol, hash: string, p: Press, now: int, later: int)
    requires ProtocolInv(s)
    ensures ProtocolInv(HandlePress(s, hash, p, now, later).0)
  {
    if hash in s.tokens && p.actor.Some? { TryResolveKeeps(s, hash, p.actor.value, now, later); }
  }

  lemma ApproveKeeps(s: Protocol, approvalId: string, action: UiAction, target: Target, actor: Option<Actor>,
                     hash: string, now: int, later: int)
    requires ProtocolInv(s)
    ensures ProtocolInv(HandleApprove(s, approvalId, action, target, actor, hash, now, later).0)
  {
    if hash in s.tokens && actor.Some? { TryResolveKeeps(s, hash, actor.value, now, later); }
  }

  lemma TakeKeeps(s: Protocol, step: Step)
    requires ProtocolInv(s) && LegalStep(s, step)
    ensures ProtocolInv(Take(s, step))
  {
    match step
    case StepBroker(op) =>
      ApplyKeeps(s.broker, op);
      BrokerStepKeeps(s, Apply(s.broker, op));
    case StepIssue(a, n, t, actions, hashes) => if |actions| == |hashes| { IssueKeeps(s, a, n, t, actions, hashes); }
    case StepBind(h, ref) => BindTokenKeeps(s, h, ref);
    case StepPress(h, p, now, later) => PressKeeps(s, h, p, now, later);
    case StepApprove(a, action, t, actor, h, now, later) => ApproveKeeps(s, a, action, t, actor, h, now, later);
    case StepMark(i) => MarkKeeps(s, i);
    case StepFinalize(i) => FinalizeKeeps(s, i);
    case StepRevokeActive => RetireKeeps(s, s.tokens.Keys, {Issued, Bound}, Revoked);
    case StepExpireTokens(chosen) => RetireKeeps(s, chosen, {Issued, Bound}, TokenExpired);
    case StepRevokeStuck(chosen) => RetireKeeps(s, chosen, {Issued}, Revoked);
  }

  lemma {:induction false} TakeAllKeeps(s: Protocol, steps: seq<Step>)
    requires ProtocolInv(s) && LegalSteps(s, steps)
    ensures ProtocolInv(TakeAll(s, steps))
  {
    if steps != [] {
      TakeAllKeeps(s, steps[..|steps| - 1]);
      TakeKeeps(TakeAll(s, steps[..|steps| - 1]), steps[|steps| - 1]);
    }
  }

  // ---- main results ---------------------------------------------------

  predicate BothUsed(tokens: Store, h: string, g: string) {
    && h in tokens && g in tokens && tokens[h].status == Used && tokens[g].status == Used
    && tokens[h].approvalId == tokens[g].approvalId
  }

  ghost predicate OneUsedPerApproval(tokens: Store) {
    forall h, g :: BothUsed(tokens, h, g) ==> h == g
  }

  /** After any run at most one token of an approval is used. */
  lemma AtMostOneUsed(s0: Protocol, steps: seq<Step>)
    requires ProtocolInv(s0) && LegalSteps(s0, steps)
    ensures OneUsedPerApproval(TakeAll(s0, steps).tokens)
  {
    hide TakeAll, LegalSteps, Inv;
    var s := TakeAll(s0, steps);
    TakeAllKeeps(s0, steps);
    forall h, g | BothUsed(s.tokens, h, g) ensures h == g {
      assert WasAccepted(s.accepted, h) && WasAccepted(s.accepted, g);
      var i :| 0 <= i < |s.accepted| && s.accepted[i].hash == h && s.accepted[i].phase != Marking;
      var j :| 0 <= j < |s.accepted| && s.accepted[j].hash == g && s.accepted[j].phase != Marking;
      assert AcceptedOk(s.accepted[i], s.broker.entries, s.tokens) && AcceptedOk(s.accepted[j], s.broker.entries, s.tokens);
      assert i == j;
    }
  }

  predicate UsedFor(e: Entry, t: Token) {
    && e.recordId == t.approvalId && e.status == Resolved && e.decision == Some(ActionToDecision(t.action))
    && (e.mode == PendingMode ==> e.completion == ClickOutcome(e.kind, t.action))
  }

  predicate EveryUsedDecided(entries: seq<Entry>, tokens: Store) {
    forall h :: h in tokens && tokens[h].status == Used ==>
      exists i :: 0 <= i < |entries| && UsedFor(entries[i], tokens[h])
  }

  /** A used token names the decision on the record, and for a request created in
      pending mode the wire got exactly that token's answer. */
  lemma UsedMatchesDecision(s0: Protocol, steps: seq<Step>)
    requires ProtocolInv(s0) && LegalSteps(s0, steps)
    ensures EveryUsedDecided(TakeAll(s0, steps).broker.entries, TakeAll(s0, steps).tokens)
  {
    hide TakeAll, LegalSteps;
    var s := TakeAll(s0, steps);
    TakeAllKeeps(s0, steps);
    forall hash | hash in s.tokens && s.tokens[hash].status == Used
      ensures exists i :: 0 <= i < |s.broker.entries| && UsedFor(s.broker.entries[i], s.tokens[hash])
    {
      UsedIsDecided(s, hash);
    }
  }

  lemma UsedIsDecided(s: Protocol, hash: string)
    requires ProtocolInv(s) && hash in s.tokens && s.tokens[hash].status == Used
    ensures exists i :: 0 <= i < |s.broker.entries| && UsedFor(s.broker.entries[i], s.tokens[hash])
  {
    var entries, ttl := s.broker.entries, s.broker.ttl;
    assert EntriesOk(entries, ttl);
    hide Inv, OnePerApproval, UsedFor, EntryOk;
    assert WasAccepted(s.accepted, hash);
    var i :| 0 <= i < |s.accepted| && s.accepted[i].hash == hash && s.accepted[i].phase != Marking;
    assert AcceptedOk(s.accepted[i], entries, s.tokens);
    var h :| 0 <= h < |entries| && Decided(entries[h], s.accepted[i]);
    assert EntryOk(entries[h], ttl);
    DecidedIsUsedFor(entries[h], ttl, s.accepted[i], s.tokens[hash]);
  }

  lemma DecidedIsUsedFor(e: Entry, ttl: int, a: Accepted, t: Token)
    requires EntryOk(e, ttl) && Decided(e, a) && t.approvalId == a.approvalId && t.action == a.action
    ensures UsedFor(e, t)
  {
    hide ClickOutcome, DefaultReject;
  }

  /** Finalizing leaves no bound token of the approval, and the winner used. */
  lemma FinalizeRevokesSiblings(s: Protocol, i: nat)
    requires ProtocolInv(s) && i < |s.accepted| && s.accepted[i].phase == Finalizing
    ensures var a, t := s.accepted[i], FinalizeAccepted(s, i);
      && (forall h :: h in t.tokens && t.tokens[h].approvalId == a.approvalId ==> t.tokens[h].status != Bound)
      && a.hash in t.tokens && t.tokens[a.hash].status == Used
      && (forall h :: h in t.tokens && t.tokens[h].approvalId != a.approvalId ==> h in s.tokens && t.tokens[h] == s.tokens[h])
  {
    assert AcceptedOk(s.accepted[i], s.broker.entries, s.tokens);
  }
}

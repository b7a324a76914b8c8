/** The daemon's side of the callback protocol: a token table and the clicks
    that were accepted, around a broker object. */
module Callback {
  import opened Basics
  import opened BrokerModel
  import opened BrokerInvariant
  import opened BrokerRuns
  import opened Broker
  import opened CallbackModel
  import opened CallbackClicks

  /** What the wire payload of a press decoded to. */
  datatype Payload = RawToken(hash: string) | TemplateAction(action: UiAction) | Undecodable

  datatype InboundAnswer = Malformed | Replied(answer: Answer)

  class CallbackDaemon {
    const broker: ApprovalBroker
    var tokens: Store
    var accepted: seq<Accepted>

    ghost function Now(): Protocol
      reads this, broker
    {
      Protocol(broker.Now(), tokens, accepted)
    }

    ghost predicate Valid()
      reads this, broker
    {
      ProtocolInv(Now())
    }

    constructor (broker: ApprovalBroker)
      requires broker.Valid()
      ensures this.broker == broker && Valid() && Now() == Protocol(broker.Now(), map[], [])
    {
      this.broker := broker;
      tokens, accepted := map[], [];
    }

    /** Inserts one row per action; a taken hash throws and ends the loop. */
    method IssueCallbackTokens(approvalId: string, nonce: string, target: Target,
                               actions: seq<UiAction>, hashes: seq<string>) returns (ok: bool)
      requires Valid() && |actions| == |hashes|
      modifies this`tokens
      ensures Now() == Take(old(Now()), StepIssue(approvalId, nonce, target, actions, hashes)) && Valid()
      ensures ok <==> Untaken(old(tokens.Keys), hashes)
    {
      hide ProtocolInv;
      IssueKeeps(Now(), approvalId, nonce, target, actions, hashes);
      ghost var s := tokens;
      var i := 0;
      while i < |actions|
        invariant 0 <= i <= |actions|
        invariant IssueAll(tokens, approvalId, nonce, target, actions[i..], hashes[i..])
               == IssueAll(s, approvalId, nonce, target, actions, hashes)
        invariant Untaken(tokens.Keys, hashes[i..]) == Untaken(s.Keys, hashes)
      {
        assert actions[i..][1..] == actions[i + 1..] && hashes[i..][1..] == hashes[i + 1..];
        if hashes[i] in tokens { return false; }
        var row := tokens[hashes[i] := Token(approvalId, actions[i], nonce, target, Issued, None)];
        assert row.Keys == tokens.Keys + {hashes[i]};
        tokens := row;
        i := i + 1;
      }
      return true;
    }

    /** One attempt of the bind loop: compare-and-set from issued to bound. */
    method TryBindIssued(hash: string, ref: MessageRef) returns (bound: bool)
      requires Valid()
      modifies this`tokens
      ensures Now() == Take(old(Now()), StepBind(hash, ref)) && Valid()
      ensures bound <==> hash in old(tokens) && old(tokens)[hash].status == Issued
    {
      BindTokenKeeps(Now(), hash, ref);
      if hash !in tokens || tokens[hash].status != Issued { return false; }
      tokens := tokens[hash := tokens[hash].(status := Bound, messageRef := Some(ref))];
      return true;
    }

    /** The broker's answer to a token's click, remembered if it was ok. */
    method ResolveToken(hash: string, actor: Actor, now: int, later: int) returns (answer: Answer)
      requires Valid() && hash in tokens
      modifies this`accepted, broker`entries, broker`attempts, broker`observed
      ensures (Now(), answer) == TryResolve(old(Now()), hash, actor, now, later) && Valid()
    {
      TryResolveKeeps(Now(), hash, actor, now, later);
      var t := tokens[hash];
      var r := broker.ResolveClick(Click(t.approvalId, t.action, actor, t.target, t.callbackNonce), now, later);
      if r.Ok? {
        accepted := accepted + [Accepted(hash, t.approvalId, t.action, actor, Marking)];
        return Recorded;
      }
      return Failed(r.error);
    }

    method HandleInboundAction(payload: Payload, p: Press, now: int, later: int) returns (answer: InboundAnswer)
      requires Valid()
      modifies this`accepted, broker`entries, broker`attempts, broker`observed
      ensures Valid()
      ensures NoLookup(payload, p) ==> Now() == old(Now()) && answer == Malformed
      ensures !NoLookup(payload, p) ==>
        match RowOf(old(tokens), payload, p)
        case None => Now() == old(Now()) && answer == Replied(Unknown)
        case Some(hash) =>
          Now() == HandlePress(old(Now()), hash, p, now, later).0
          && answer == Replied(HandlePress(old(Now()), hash, p, now, later).1)
      ensures answer == Replied(Recorded) ==>
        |accepted| == |old(accepted)| + 1 && Pressed(old(tokens), payload, p, accepted[|old(accepted)|])
    {
      var hash: string;
      match payload {
        case Undecodable => return Malformed;
        case RawToken(h) => hash := h;
        case TemplateAction(action) =>
          if p.messageRef == None || p.target == None { return Malformed; }
          var row := LookUpByRef(p.target.value, p.messageRef.value, action);
          if row == None { return Replied(Unknown); }
          hash := row.value;
          LookupsFindOnlyRow(tokens, hash, "", p.target.value, p.messageRef.value, action);
      }
      PressKeeps(Now(), hash, p, now, later);
      PressAccepted(Now(), hash, p, now, later);
      if hash !in tokens { return Replied(Unknown); }
      var t := tokens[hash];
      if t.status != Bound { return Replied(NotBound(t.status)); }
      if p.messageRef == None || p.messageRef.value.messageId == "<unknown>" { return Replied(StaleMessage); }
      if t.messageRef != p.messageRef { return Replied(StaleMessage); }
      if p.actor == None || p.target == None { return Replied(Unauthorized); }
      if !p.senderAllowed { return Replied(Unauthorized); }
      if t.target != p.target.value { return Replied(WrongChat); }
      var a := ResolveToken(hash, p.actor.value, now, later);
      return Replied(a);
    }

    /** The store answers only if exactly one row matches. */
    method LookUpByRef(target: Target, ref: MessageRef, action: UiAction) returns (row: Option<string>)
      ensures row.Some? ==> FoundByRef(tokens, row.value, target, ref, action)
      ensures row == None ==> forall h :: !FoundByRef(tokens, h, target, ref, action)
    {
      var rows := set h | h in tokens && RefRow(tokens[h], target, ref, action);
      forall h | FoundByRef(tokens, h, target, ref, action) ensures h in rows && rows == {h} {}
      if h :| h in rows && rows == {h} {
        forall g | g in tokens && RefRow(tokens[g], target, ref, action) ensures g == h { assert g in rows; }
        return Some(h);
      }
      return None;
    }

    method LookUpByApproval(approvalId: string, target: Target, action: UiAction) returns (row: Option<string>)
      ensures row.Some? ==> FoundByApproval(tokens, row.value, approvalId, target, action)
      ensures row == None ==> forall h :: !FoundByApproval(tokens, h, approvalId, target, action)
    {
      var rows := set h | h in tokens && ApprovalRow(tokens[h], approvalId, target, action);
      forall h | FoundByApproval(tokens, h, approvalId, target, action) ensures h in rows && rows == {h} {}
      if h :| h in rows && rows == {h} {
        forall g | g in tokens && ApprovalRow(tokens[g], approvalId, target, action) ensures g == h { assert g in rows; }
        return Some(h);
      }
      return None;
    }

    /** The text command `/approve <id> <action>`. */
    method RouteApproveCommand(approvalId: string, action: UiAction, target: Target, actor: Option<Actor>, now: int, later: int)
      returns (answer: Answer)
      requires Valid()
      modifies this`accepted, broker`entries, broker`attempts, broker`observed
      ensures Valid()
      ensures forall hash :: FoundByApproval(old(tokens), hash, approvalId, target, action) ==>
        (Now(), answer) == HandleApprove(old(Now()), approvalId, action, target, actor, hash, now, later)
      ensures (forall hash :: !FoundByApproval(old(tokens), hash, approvalId, target, action)) ==>
        Now() == old(Now()) && answer == Unknown
      ensures answer == Recorded ==>
        && |accepted| == |old(accepted)| + 1
        && accepted[|old(accepted)|].approvalId == approvalId && accepted[|old(accepted)|].action == action
    {
      var listed := broker.IsListedPending(approvalId);
      if !listed { return Unknown; }
      var row := LookUpByApproval(approvalId, target, action);
      if row == None { return Unknown; }
      var hash := row.value;
      ApproveKeeps(Now(), approvalId, action, target, actor, hash, now, later);
      ApproveAccepted(Now(), approvalId, action, target, actor, hash, now, later);
      if tokens[hash].target != target { return WrongChat; }
      if actor == None { return Unauthorized; }
      answer := ResolveToken(hash, actor.value, now, later);
    }

    /** Marks the token of an accepted click: compare-and-set from bound, else by force. */
    method MarkAcceptedApprovalRecord(i: nat)
      requires Valid() && i < |accepted| && accepted[i].phase == Marking
      modifies this`tokens, this`accepted
      ensures Now() == Take(old(Now()), StepMark(i)) && Valid()
      ensures old(accepted)[i].hash in tokens && tokens[old(accepted)[i].hash].status == Used
    {
      MarkKeeps(Now(), i);
      assert AcceptedOk(accepted[i], broker.entries, tokens);
      var hash := accepted[i].hash;
      if hash in tokens && tokens[hash].status == Bound {
        tokens := CasToken(tokens, hash, Bound, Used);
      } else {
        tokens := WithStatus(tokens, hash, Used);
      }
      accepted := accepted[i := accepted[i].(phase := Finalizing)];
    }

    method FinalizeAcceptedApproval(i: nat)
      requires Valid() && i < |accepted| && accepted[i].phase == Finalizing
      modifies this`tokens, this`accepted
      ensures Now() == Take(old(Now()), StepFinalize(i)) && Valid()
    {
      FinalizeKeeps(Now(), i);
      tokens := RevokeSiblings(tokens, accepted[i].approvalId, accepted[i].hash);
      accepted := accepted[i := accepted[i].(phase := Finished)];
    }
  }

  /** None of them is taken, and none comes twice. */
  predicate Untaken(taken: set<string>, hashes: seq<string>)
    decreases |hashes|
  {
    hashes == [] || (hashes[0] !in taken && Untaken(taken + {hashes[0]}, hashes[1..]))
  }

  predicate NoLookup(payload: Payload, p: Press) {
    payload.Undecodable? || (payload.TemplateAction? && (p.messageRef == None || p.target == None))
  }

  /** The accepted click is of the token the press carried, or of the pressed action on
      the pressed card. */
  predicate Pressed(tokens: Store, payload: Payload, p: Press, a: Accepted) {
    match payload
    case RawToken(hash) => a.hash == hash
    case TemplateAction(action) =>
      && p.target.Some? && p.messageRef.Some? && a.action == action
      && OnlyForCard(tokens, a.hash, p.target.value, p.messageRef.value, action)
    case Undecodable => false
  }

  /** The row a press is about: named by its token, or the only bound one for its message and action. */
  ghost function RowOf(tokens: Store, payload: Payload, p: Press): (row: Option<string>)
    requires !NoLookup(payload, p)
    ensures payload.RawToken? ==> row == Some(payload.hash)
    ensures payload.TemplateAction? ==>
      match row
      case Some(h) => FoundByRef(tokens, h, p.target.value, p.messageRef.value, payload.action)
      case None => forall h :: !FoundByRef(tokens, h, p.target.value, p.messageRef.value, payload.action)
  {
    if payload.RawToken? then Some(payload.hash)
    else if exists h :: FoundByRef(tokens, h, p.target.value, p.messageRef.value, payload.action) then
      var h :| FoundByRef(tokens, h, p.target.value, p.messageRef.value, payload.action);
      Some(h)
    else None
  }
}

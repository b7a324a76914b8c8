# Verified model of the codex-im bridge

The bridge connects a Codex app server to instant-messaging chats. This project
models the parts of it that keep state under races and limits, and proves what
they promise:

- **Event queue** (`Normalizer*.dfy`). The bounded, lossy queue between the app
  server's notifications and one consumer: soft cap, hard cap, overflow markers,
  parked `next()` calls, two ways to close, and the failures synthesized for open
  turns when the transport dies.
- **Approval broker** (`Broker*.dfy`). One completion per server request that a
  handler, a click, two sweeps and a transport loss race to settle; two indexes,
  bound actor policies, client generations, batched pruning.
- **Callback tokens** (`Callback*.dfy`). Issued, bound, used, revoked: the
  daemon's protocol on top of the broker.
- **Supervisor** (`Supervisor*.dfy`). The bounded recovery, and the system of
  supervisor, broker and event stream together, spawns that overlap a close included.
- **Request correlation** (`Request*.dfy`), **JSONL framing** (`Json*.dfy`),
  **command rules** (`Shell*.dfy`), **chat text and turn output** (`ImText.dfy`,
  `TurnOutput*.dfy`) and **raw callback tokens** (`Base32.dfy`).

Each stateful class comes twice. `XModel.dfy` holds one pure function per atomic
step, a stretch of code between two awaits, and `Run`, which takes any list of
steps in any order; the theorems quantify over all such lists, so over every
interleaving. The class itself (`Normalizer.dfy`, `Broker.dfy`, ...) updates its
fields as the TypeScript does, with the same loops, and every method is proved
to move the object's value exactly as its step function says and to keep the
invariant. A model's state ends in history components (accepted events,
deliveries, settle attempts, observer calls, scheduled delays) on which no branch
and no result depends; theorems refer to them. `XRuns.dfy` and the like hold what every run
keeps; `NormalizerCalls.dfy`, `BrokerAnswers.dfy`, `BrokerEffects.dfy`, `BrokerPruned.dfy`,
`CallbackClicks.dfy`, `RequestOutcomes.dfy` and `ShellSpellings.dfy` say in terms of their
own what each call answers, changes and was caused by. `Basics.dfy` and `OrderedMap.dfy`
hold shared vocabulary, among it the insertion-ordered map.

## Assumptions

- Request ids are never reused and stay distinct as `approval-<id>`
  (`BrokerModel.Legal`); `BrokerRuns.RecordIdCollision` says which ids would
  collide otherwise. A client whose transport was lost delivers no further requests.
- No thread id continues another one behind a NUL where a theorem needs turns told
  apart by key, as is so when ids contain no NUL; `NormalizerRuns.TurnKeyCollision`
  and `TurnOutputModel.NulMixesTurns` show that this is exactly what is needed.
- Events given to `endWithSynthetic` are not overflow markers (`Legal`).
- Audit sinks and observers neither throw nor call back into the broker. Audit
  records are not modelled; an observer call is a history entry.
- Clock readings are arguments, two where the code reads the clock twice. Clients
  are numbers. Object references held by a map are positions in a list.
- The token store's compare-and-set honours its from-status, and its primary key
  refuses a second insert of a hash.
- `JSON.parse` undoes `JSON.stringify` for the messages sent; numbers in messages
  are whole.
- A character stands for one UTF-16 code unit. Dafny's `char` has no surrogate code
  units; no statement about lengths or positions depends on which unit a character is.

## Where comments and code disagree

The code is followed.

- The queue is said to report every drop by an overflow marker. The hard cap removes
  markers too, and inserts none in a round that removes only markers.
  `NormalizerDrops.DropsReportedIff` says for every run exactly when all drops stay
  reported, `NormalizerDrops.EnqueueReports` does so for one enqueue from the queue
  before it, and `NormalizerRuns.DropWithoutMarker` gives a run that loses a delta and
  every trace of it.
- `resolve` is described as settling the wire when it answers ok. For an entry
  with a handler it may answer ok after the handler has settled it:
  `BrokerRuns.OkMeansWon` says exactly when the click wins,
  `BrokerRuns.OkMayLose` gives a run where it does not.
- The supervisor's backoff sequence lists an 8 s delay; the halt on the fifth
  close makes it unreachable (`SupervisorModel.RecoveryBounds`).
- Transport loss is said to hand the consumer one failure per open turn. The hard
  cap applies to these too: none is dropped if and only if at most `hardCap` turns
  are open (`NormalizerRuns.LostTurnsSurvive`), and for all caps some run opens more
  (`NormalizerRuns.LostTurnsCanBeDropped`).

## Model

| member | source | states |
|---|---|---|
| `NormalizerModel.SanitizeCap` | packages/codex-runtime/src/event-normalizer.ts:105-111 | a cap is always a whole number from 1 to the largest safe one; a good option is taken as given, anything else becomes the default |
| `NormalizerRuns.FifoRefinement` | packages/codex-runtime/src/event-normalizer.ts:245-320 | over every run: until the hard cap first sheds, delivered-then-queued matches the unbounded accepted log position by position, each slot the accepted event or, for a delta only, a delta marker; with shedding and cancellation the real events are still a subsequence of the log |
| `NormalizerRuns.QueueShape` | packages/codex-runtime/src/event-normalizer.ts:245-320 | in every reachable state the delta count is the number of queued deltas and at most the soft cap, at the cap the victim scan finds one; length is at most `hardCap + 1`, reached only under a lifecycle marker at the head; no lifecycle marker stands elsewhere; every delta marker precedes every delta |
| `NormalizerRuns.MarkerCountsRise` | packages/codex-runtime/src/event-normalizer.ts:252-317 | per class, the counts on the markers strictly rise along delivered-then-queued |
| `NormalizerRuns.Conservation` | packages/codex-runtime/src/event-normalizer.ts:293-319 | before cancellation, accepted events are the delivered ones, the queued ones and the two drop counters; a re-dropped marker is never counted |
| `NormalizerRuns.DeliveryInCallOrder` | packages/codex-runtime/src/event-normalizer.ts:553-621 | every `next()` made in a run is settled or parked, counted from the calls alone; each settles once and in call order; call j yields delivered event j or else is done; calls are parked only on an open stream with an empty queue; one done call means all later ones are done |
| `NormalizerRuns.HistoryGrows` | packages/codex-runtime/src/event-normalizer.ts:553-621 | what a run accepted, delivered and settled is a prefix of what every continuation of it does |
| `NormalizerCalls.ParkedCallIsServed` | packages/codex-runtime/src/event-normalizer.ts:211-217 | over every run: an event that comes in while a call is parked settles the oldest parked call with that event in the same step, and no other call |
| `NormalizerCalls.BatchServesParked` | packages/codex-runtime/src/event-normalizer.ts:181-188 | a closing batch within the hard cap gives the parked calls its events in order, one each, and finishes the rest; what is left over stays buffered |
| `NormalizerCalls.LogIsWhatCameIn` | packages/codex-runtime/src/event-normalizer.ts:153-217 | the log of any run is the notifications up to the first closing call, then exactly what that call adds: its events, one failure per open turn, or nothing; later calls add nothing |
| `NormalizerRuns.EndDrains` | packages/codex-runtime/src/event-normalizer.ts:153-173 | after the source ended, n further calls get the buffered events in order and then only done |
| `NormalizerRuns.TransportLossCloses` | packages/codex-runtime/src/event-normalizer.ts:190-207 | on an open stream a transport loss accepts, in table order, exactly one synthetic `turn_failed` with cause transport loss per turn that is started and not ended in the log, empties the table, and nothing is accepted afterwards whatever is called |
| `NormalizerRuns.LostTurnsSurvive` | packages/codex-runtime/src/event-normalizer.ts:181-207 | every synthetic failure is delivered or buffered, at the end and in table order, if and only if the open turns number at most the hard cap |
| `NormalizerRuns.LostTurnsCanBeDropped` | packages/codex-runtime/src/event-normalizer.ts:196-207 | for all caps there is a legal run after which a transport loss drops a synthetic failure |
| `NormalizerRuns.ClosedAcceptsNothing` | packages/codex-runtime/src/event-normalizer.ts:211-217 | no list of calls makes a closed stream accept an event or change its turn table |
| `NormalizerRuns.TrackKeepsTable` | packages/codex-runtime/src/event-normalizer.ts:593-609 | the turn table holds exactly the keys with a start and no later terminal event in the accepted log, event by event |
| `NormalizerCalls.TableOrder` | packages/codex-runtime/src/event-normalizer.ts:593-609 | on an open stream a start puts its turn last or in its old place, each of the three terminal events takes its turn out, the rest keep their order |
| `NormalizerRuns.TurnKeyInjective` | packages/codex-runtime/src/event-normalizer.ts:611-613 | for NUL-free thread ids two turns have the same key if and only if they are the same turn |
| `NormalizerRuns.NulFreeApart` | packages/codex-runtime/src/event-normalizer.ts:611-613 | ids without NUL are such that their turns never share a key |
| `NormalizerRuns.TurnKeyCollision` | packages/codex-runtime/src/event-normalizer.ts:611-613 | two different threads have turns with one key if and only if one id continues the other behind a NUL |
| `NormalizerRuns.RoundLeavesMarker` | packages/codex-runtime/src/event-normalizer.ts:304-318 | one round of the hard cap puts a lifecycle marker at the head if and only if a real event was among the entries it removed, and otherwise leaves none in the queue |
| `NormalizerRuns.DropWithoutMarker` | packages/codex-runtime/src/event-normalizer.ts:304-318 | a run that loses a delta and keeps no marker of it |
| `NormalizerDrops.ShedReports` | packages/codex-runtime/src/event-normalizer.ts:298-319 | for every queue, a round of the hard cap keeps the delta count reported if and only if it was and the marker naming it is not removed, and the total if and only if a real event is removed, or it was reported and its marker is not removed |
| `NormalizerDrops.EvictReports` | packages/codex-runtime/src/event-normalizer.ts:248-265 | an eviction is reported by its own marker, which stands at the victim's place and nowhere else, and takes no report away |
| `NormalizerDrops.EnqueueReports` | packages/codex-runtime/src/event-normalizer.ts:245-320 | the same for a whole enqueue, as conditions on the queue before it: how many entries fall, whether the victim is among them, and which markers are |
| `NormalizerCalls.DropsExactly` | packages/codex-runtime/src/event-normalizer.ts:245-320 | an enqueue drops a delta if and only if it brings one while the soft cap is full, and a real event falls to the hard cap if and only if one stands among the entries over it |
| `NormalizerDrops.CancelReports` | packages/codex-runtime/src/event-normalizer.ts:627-638 | a cancellation keeps the drops reported if and only if their markers were handed out |
| `NormalizerDrops.DropsReportedIff` | packages/codex-runtime/src/event-normalizer.ts:164-320 | over every run: each drop counter is named by a delivered or queued marker at every moment, also between the enqueues of a batch, if and only if every operation spares the markers |
| `NormalizerRuns.RunInv` | packages/codex-runtime/src/event-normalizer.ts:117-639 | queue shape, log refinement, turn table and call bookkeeping hold together after any list of operations |
| `Normalizer.EventNormalizer.constructor` | packages/codex-runtime/src/event-normalizer.ts:136-140 | a fresh queue with sanitized caps satisfies the invariant |
| `Normalizer.EventNormalizer.TrackTurnState` | packages/codex-runtime/src/event-normalizer.ts:593-609 | the table moves as the model says, an existing key keeping its place |
| `Normalizer.EventNormalizer.EvictOldestDelta` | packages/codex-runtime/src/event-normalizer.ts:248-265 | the walk replaces the first delta, and it only, by a marker with the next count |
| `Normalizer.EventNormalizer.EnforceHardCap` | packages/codex-runtime/src/event-normalizer.ts:298-319 | the shift loop removes just the excess from the front, counts the real entries among it, and puts one marker there if there were any |
| `Normalizer.EventNormalizer.EnqueueEvent` | packages/codex-runtime/src/event-normalizer.ts:245-320 | evict, push and shed compose to the model's enqueue |
| `Normalizer.EventNormalizer.DrainQueue` | packages/codex-runtime/src/event-normalizer.ts:615-621 | the loop pairs parked calls with queued events, oldest with oldest, until one side runs out |
| `Normalizer.EventNormalizer.OnNotification` | packages/codex-runtime/src/event-normalizer.ts:211-217 | the notification step, ignored on a closed stream; keeps the invariant |
| `Normalizer.EventNormalizer.End` | packages/codex-runtime/src/event-normalizer.ts:164-173 | the source-ended step: parked calls finish only if the buffer is empty |
| `Normalizer.EventNormalizer.EndWith` | packages/codex-runtime/src/event-normalizer.ts:181-188 | given events are enqueued in order before the end; keeps the invariant |
| `Normalizer.EventNormalizer.EndWithTransportLost` | packages/codex-runtime/src/event-normalizer.ts:196-207 | the same with one failure per open turn |
| `Normalizer.EventNormalizer.NextCall` | packages/codex-runtime/src/event-normalizer.ts:559-572 | a call is answered from the buffer, finished, or parked |
| `Normalizer.EventNormalizer.CancelConsumer` | packages/codex-runtime/src/event-normalizer.ts:627-638 | cancellation drops the buffer and finishes every parked call, once |
| `BrokerRuns.SingleWinner` | packages/core/src/approval-broker.ts:250-277 | over every run and every continuation of it: an entry is settled if and only if some attempt was made, its completion is the first attempt's outcome and never changes, the resolved observer fired exactly once for it, and in pending mode settled means terminal |
| `BrokerRuns.OkMeansWon` | packages/core/src/approval-broker.ts:880-1068 | `resolve` answers ok if and only if the entry is pending and unexpired, its policy lists this actor's platform and user (or system reason), whatever the chats, and has this target and nonce, and the button is supported; it then made one attempt with the mapped outcome, which won exactly if nothing had settled the entry, always so in pending mode |
| `BrokerRuns.OkMayLose` | packages/core/src/approval-broker.ts:802-848 | a legal run from a fresh broker, whatever its handler answers, after which `resolve` answers ok and the wire carries the handler's answer |
| `BrokerRuns.Provenance` | packages/core/src/approval-broker.ts:880-1068 | a resolved record of any run goes back to one earlier click before its expiry, by an actor whose platform and user (or system reason) are on the bound list, at the bound target with the bound nonce, and carries that click's actor and decision |
| `BrokerRuns.OnlyClicksResolve` | packages/core/src/approval-broker.ts:913-1045 | the only step that turns a record resolved is a good click for it |
| `BrokerRuns.ApprovalNeedsClick` | packages/core/src/approval-broker.ts:1019-1066 | if a pending-mode request was answered with leave to go ahead, some click of the run with an allowing action granted it, and the answer is that button's |
| `BrokerAnswers.EveryAnswerHasACause` | packages/core/src/approval-broker.ts:714-1184 | every answered request of a run goes back to one step: its handler, a granted click, a sweep or click after its time, or a lost transport; the answer is that step's and the observers were told that cause |
| `BrokerAnswers.LeaveNeedsClickOrHandler` | packages/core/src/approval-broker.ts:714-1066 | no answer of a run gives leave to go ahead but a handler's own and that of a granted click with an allowing button; no immediate answer does |
| `BrokerAnswers.ArrivalAnswers` | packages/core/src/approval-broker.ts:714-776 | a request is answered at once if and only if its method is unknown or its last mode setting in the run is absent or rejecting; the answer is then a rejection and nothing changes; otherwise the request gets a fresh pending record with this mode, creation time and expiry in both indexes |
| `BrokerAnswers.ImmediateIsExpiry` | packages/core/src/approval-broker.ts:733-740 | the immediate answer is the one an expiry sweep gives a waiting request of that kind |
| `BrokerAnswers.ClickIsHeard` | packages/core/src/decision-mapper.ts:83-107 | read in the agent's terms, a click's answer means the pressed button, and so does the recorded decision; exactly the offered buttons have one |
| `BrokerAnswers.RecordAndWireAgree` | packages/core/src/approval-broker.ts:1019-1066 | over every run: what a waiting request was told means what its record says, and a record closed by the broker was told a rejection |
| `BrokerEffects.RejectionTellsWhy` | packages/core/src/approval-broker.ts:880-1038 | each rejection of a click names the first check that failed, with the record's own decision and time; nothing changes, except that a click after the expiry expires that one record, now |
| `BrokerRuns.PolicyFixed` | packages/core/src/approval-broker.ts:677-694 | a bound policy stays the same through every run without a prune |
| `BrokerEffects.BindTellsWhy` | packages/core/src/approval-broker.ts:677-694 | binding is ok if and only if the record is listed and pending and its policy afterwards is this one; each refusal names its cause; no other policy changes |
| `BrokerEffects.PolicyWasBound` | packages/core/src/approval-broker.ts:677-694 | every policy in force was bound by an accepted call of the run |
| `BrokerRuns.TerminalAbsorbing` | packages/core/src/approval-broker.ts:913-941 | status, decision, actor and time of a terminal record never change again; decision and time are set exactly on terminal records |
| `BrokerRuns.RejectedClicksVanish` | packages/core/src/approval-broker.ts:881-1038 | deleting from any run every click that failed for another reason than the wall-clock expiry leads to the same state |
| `BrokerRuns.ExpireExact` | packages/core/src/approval-broker.ts:1146-1184 | a sweep expires exactly the listed records that are pending and old enough, answers them with the default rejection unless a handler already had, and leaves every other record and all maps alone |
| `BrokerEffects.SweepExpiresDue` | packages/core/src/approval-broker.ts:1146-1184 | a sweep closes exactly the due records, as expired, and returns how many there were |
| `BrokerEffects.LossClosesPending` | packages/core/src/approval-broker.ts:1097-1105 | the first loss of a client closes exactly the listed pending records, as lost; a second one changes nothing |
| `BrokerEffects.LossClosesOne` | packages/core/src/approval-broker.ts:1112-1116 | failing one approval closes its record exactly if that is listed and pending, and touches no other |
| `BrokerRuns.IndexAgreement` | packages/core/src/approval-broker.ts:714-848 | in every reachable state the record-id index is the request-id index re-keyed, an unanswered request is listed, and once transport loss has fired nothing is pending or unanswered |
| `BrokerRuns.ReattachRearms` | packages/core/src/approval-broker.ts:575-605 | a new client changes no record, index or policy, frees the old client, and re-arms transport loss so that the next loss again leaves nothing pending |
| `BrokerEffects.OneClient` | packages/core/src/approval-broker.ts:528-605 | after any run the broker serves the client its attach and reattach calls say and holds that one only, never one of another broker |
| `BrokerEffects.ListedUntilReturned` | packages/core/src/approval-broker.ts:833-847 | over every run without a prune: a record is off the indexes if and only if its request returned while it was pending, and it has returned if and only if that step was taken after its answer |
| `BrokerRuns.RecordIdCollision` | packages/core/src/approval-broker.ts:759 | two request ids give one record id if and only if they are equal or one is a number and the other its decimal spelling |
| `BrokerRuns.RunKeeps` | packages/core/src/approval-broker.ts:714-1222 | every legal run keeps the broker's invariant, and records only move forward |
| `BrokerInvariant.FailAllKeeps` | packages/core/src/approval-broker.ts:1097-1105 | the transport-loss sweep keeps the invariant and leaves no listed record pending |
| `BrokerPrune.SortSorts` | packages/core/src/approval-broker.ts:1194-1196 | the sort orders by time, is a permutation, and keeps the order of equal times |
| `BrokerPrune.PruneClosedForm` | packages/core/src/approval-broker.ts:1186-1222 | a sweep removes exactly the min(batch, max(aged, total - maxCount, 0)) oldest terminal records in stable order, from all three maps, never a pending one, and returns that number |
| `BrokerPruned.PruneTakesOldest` | packages/core/src/approval-broker.ts:1186-1222 | told by the records: a sweep takes min(batch, max(records past the age, records over the count, 0)) decided records off the list and returns that number; none of them was decided later than one that stays |
| `BrokerPrune.PruneShrinks` | packages/core/src/approval-broker.ts:1186-1222 | each sweep lowers the excess by its batch, down to none |
| `BrokerPrune.SweepsReachLimits` | packages/core/src/approval-broker.ts:1186-1222 | enough sweeps with no new terminals leave at most `maxCount` of them and none too old |
| `Broker.SanitizeAtLeast` | packages/core/src/approval-broker.ts:356-366 | an option that is whole and large enough is kept, anything else becomes the default |
| `Broker.IsActorAllowed` | packages/core/src/approval-broker.ts:324-340 | the loop finds an allowed entry with the same platform and user, or the same system reason; chats are not compared |
| `Broker.PoliciesEqual` | packages/core/src/approval-broker.ts:306-318 | field-wise comparison is equality of policies, actor order and chats included |
| `Broker.ApprovalBroker.SettleOnce` | packages/core/src/approval-broker.ts:265-274 | wins exactly on an unsettled entry and then stores the outcome |
| `Broker.ApprovalBroker.SettleEntry` | packages/core/src/approval-broker.ts:1406-1437 | the observer fires exactly for the winner |
| `Broker.ApprovalBroker.CloseRecord` | packages/core/src/approval-broker.ts:1362-1382 | a system close sets the four record fields and attempts the default rejection |
| `Broker.ApprovalBroker.HandleRequest` | packages/core/src/approval-broker.ts:714-831 | arrival: immediate answer for unknown or rejecting methods, otherwise a fresh pending entry in both indexes; keeps the invariant |
| `Broker.ApprovalBroker.HandlerCompletes` | packages/core/src/approval-broker.ts:803-829 | a handler's result or error is one settle attempt |
| `Broker.ApprovalBroker.ContinueHandle` | packages/core/src/approval-broker.ts:833-847 | clean-up of both indexes only while the record is still pending |
| `Broker.ApprovalBroker.BindActorPolicy` | packages/core/src/approval-broker.ts:677-694 | binds first, accepts the same policy again, refuses another |
| `Broker.ApprovalBroker.ResolveClick` | packages/core/src/approval-broker.ts:880-1068 | the ordered checks and the grant move the state as the model's `Resolve`; keeps the invariant |
| `Broker.ApprovalBroker.ExpirePendingOlder` | packages/core/src/approval-broker.ts:1146-1184 | the sweep loop is the model's sweep and returns its count |
| `Broker.ApprovalBroker.FailPendingAsTransportLost` | packages/core/src/approval-broker.ts:1097-1105 | the loss sweep, once per generation |
| `Broker.ApprovalBroker.FailPendingApprovalAsTransportLost` | packages/core/src/approval-broker.ts:1112-1116 | the same for one record; unknown or terminal ids change nothing |
| `Broker.ApprovalBroker.AttachToClient` | packages/core/src/approval-broker.ts:528-538 | refused for an attached broker or a claimed client |
| `Broker.ApprovalBroker.ReattachToClient` | packages/core/src/approval-broker.ts:575-605 | refused when unattached, for the same client, or for a claimed one |
| `Broker.ApprovalBroker.SetMethodMode` | packages/core/src/approval-broker.ts:643-656 | the mode of one known method changes; entries already there keep theirs |
| `Broker.ApprovalBroker.IsListedPending` | packages/core/src/approval-broker.ts:1250-1257 | the id of some pending record |
| `Broker.ApprovalBroker.ChooseOldest` | packages/core/src/approval-broker.ts:1197-1211 | the two passes together pick exactly a prefix of the sorted records, as long as batch and excess allow |
| `Broker.ApprovalBroker.PruneTerminalRecords` | packages/core/src/approval-broker.ts:1186-1222 | filter, sort, two passes and the delete loop are the model's prune with sanitized options; keeps the invariant |
| `CallbackModel.AtMostOneUsed` | packages/daemon/src/daemon.ts:1151-1356 | after any run of the protocol, with any clicks between an answer and its follow-up, at most one token of an approval is used |
| `CallbackModel.UsedMatchesDecision` | packages/daemon/src/daemon.ts:1270-1322 | a used token's approval is resolved with that token's action as decision, and in pending mode the wire got exactly that action's answer, by button or by `/approve` |
| `CallbackModel.FinalizeRevokesSiblings` | packages/daemon/src/daemon.ts:1324-1356 | after finalizing, the approval has no bound token, the winner is used, and tokens of other approvals are untouched |
| `CallbackClicks.PressAccepted` | packages/daemon/src/daemon.ts:1151-1284 | a press is recorded if and only if its row is bound, to the pressed card, in its chat, the sender is allowed, and the broker grants the row's click; every other answer names its cause and leaves the protocol as it was, but for a click that finds its approval expired |
| `CallbackClicks.ApproveAccepted` | packages/daemon/src/daemon.ts:3283-3345 | `/approve` is recorded if and only if its row is the only bound one for approval, chat and action, is of this very chat, and the broker grants its click; the same about its other answers |
| `CallbackClicks.AcceptedWasGood` | packages/daemon/src/daemon.ts:1151-1322 | every accepted click of a run goes back to one press or command that was good in the state it met |
| `CallbackClicks.UsedWasClicked` | packages/daemon/src/daemon.ts:1305-1322 | every used token of a run was clicked by such a press or command |
| `CallbackClicks.StatusMoves` | packages/daemon/src/daemon.ts:958-1356 | a row is never lost and keeps what it is for; each step moves its status exactly as listed, and only binding sets its card |
| `CallbackClicks.IssueAddsRows` | packages/daemon/src/daemon.ts:958-989 | issuing adds one issued row per action up to the first hash that is taken or repeated, and no other row |
| `CallbackClicks.LookupsFindOnlyRow` | packages/storage-sqlite/src/callback-tokens.ts:256-320 | a lookup finds a row if and only if it is the only bound one for that action, chat and approval or card |
| `CallbackModel.TakeAllKeeps` | packages/daemon/src/daemon.ts:958-1356 | every legal run keeps the protocol's invariant |
| `Callback.CallbackDaemon.IssueCallbackTokens` | packages/daemon/src/daemon.ts:958-989 | one issued row per action until a hash is taken; completes exactly if all hashes are new and distinct |
| `Callback.CallbackDaemon.TryBindIssued` | packages/daemon/src/daemon.ts:1131-1149 | a bind attempt succeeds exactly on an issued row |
| `Callback.CallbackDaemon.HandleInboundAction` | packages/daemon/src/daemon.ts:1151-1284 | decoding, the lookups and the ordered checks before the broker is asked; a recorded press is of the token it carried, or of the pressed action on the pressed card |
| `Callback.CallbackDaemon.RouteApproveCommand` | packages/daemon/src/daemon.ts:3283-3345 | the text command clicks for the one bound row of its approval, target and action, and otherwise changes nothing; a recorded one is of this approval and action |
| `Callback.CallbackDaemon.LookUpByRef` | packages/storage-sqlite/src/callback-tokens.ts:256-287 | the row is found if and only if exactly one bound row matches |
| `Callback.CallbackDaemon.LookUpByApproval` | packages/storage-sqlite/src/callback-tokens.ts:289-320 | the same for approval, target and action |
| `Callback.CallbackDaemon.MarkAcceptedApprovalRecord` | packages/daemon/src/daemon.ts:1305-1322 | the accepted token ends up used, by compare-and-set or by force |
| `Callback.CallbackDaemon.FinalizeAcceptedApproval` | packages/daemon/src/daemon.ts:1345-1355 | bound siblings are revoked; keeps the invariant |
| `SupervisorModel.RecoveryBounds` | packages/daemon/src/supervisor.ts:467-535 | in every run failures stay within five, five means halted, every delay is 500, 1000, 2000 or 4000 ms, and a live supervisor handling a close has its respawn scheduled |
| `SupervisorModel.FifthCloseHalts` | packages/daemon/src/supervisor.ts:486-500 | four closes in a row wait 500, 1000, 2000, 4000 ms; the fifth halts without a delay |
| `SupervisorModel.SpawnForgives` | packages/daemon/src/supervisor.ts:330-336 | in every run a completed spawn forgives all failures: unless halted it takes five closes in a row again, with the same four delays |
| `SupervisorModel.HaltedForGood` | packages/daemon/src/supervisor.ts:468-470 | no event ends a halt or schedules another delay |
| `SupervisorModel.HaltedSystemStaysDown` | packages/daemon/src/supervisor.ts:467-520 | once halted, no list of steps begins a spawn, schedules a delay or moves the broker |
| `SupervisorModel.StartsOnce` | packages/daemon/src/supervisor.ts:102-110 | a start is refused without a trace on a started or halted supervisor or without an attached broker; otherwise the broker moves or the supervisor halts |
| `SupervisorModel.TimerBeginsSpawn` | packages/daemon/src/supervisor.ts:500-520 | a respawn timer that fires begins a spawn with close handling open again, unless the supervisor is halted; without an attached broker or on a refused client it halts |
| `SupervisorModel.SpawnsEnd` | packages/daemon/src/supervisor.ts:330-422 | an awaited spawn that completes brings an open, empty stream with its caps and forgets the failures; one that fails halts and leaves no stream |
| `SupervisorModel.HaltCancelsRespawn` | packages/daemon/src/supervisor.ts:133-146 | a stop cancels the respawn whose timer is held, and none that fires later begins a spawn |
| `SupervisorModel.CloseLeavesNothing` | packages/daemon/src/supervisor.ts:467-481 | a handled close leaves no approval pending or unanswered and a closed stream, which has no open turn if and only if it was open or had none |
| `SupervisorModel.CloseSettlesEverything` | packages/daemon/src/supervisor.ts:241-521 | over every run of supervisor, broker and stream, with closes during a spawn and overlapping spawns: from a handled close until the next respawn begins or completes nothing is pending or unanswered, the stream accepts nothing, and unless its consumer left no turn is open; the recovery keeps its bounds |
| `SupervisorModel.HandledCloseSettles` | packages/daemon/src/supervisor.ts:467-481 | a close is handled if and only if the supervisor has built a transport, is not halted and is not handling one; a handled one brings that state about and counts, any other changes nothing |
| `Supervisor.ProcessSupervisor.BackoffDelay` | packages/daemon/src/supervisor.ts:532-535 | doubling per failure, capped |
| `Supervisor.ProcessSupervisor.OnTransportClose` | packages/daemon/src/supervisor.ts:467-521 | an unhandled close changes nothing; a handled one fails the broker's approvals, closes the stream and halts or schedules |
| `Supervisor.ProcessSupervisor.RespawnTimerFires` | packages/daemon/src/supervisor.ts:500-520 | drops the handle, and unless halted re-opens close handling and begins a spawn |
| `Supervisor.ProcessSupervisor.SpawnBegins` | packages/daemon/src/supervisor.ts:285-316 | before the first await the broker moves to the new client; a refused reattach halts and forgets the runtime |
| `Supervisor.ProcessSupervisor.StartFirst` | packages/daemon/src/supervisor.ts:102-110 | refused on a halted or started supervisor |
| `Supervisor.ProcessSupervisor.SpawnSucceeds` | packages/daemon/src/supervisor.ts:330-336 | a completed spawn brings a fresh stream, re-opens close handling and resets the counter |
| `Supervisor.ProcessSupervisor.SpawnThrows` | packages/daemon/src/supervisor.ts:337-422 | a failed spawn halts, clears the held timer and forgets the runtime |
| `Supervisor.ProcessSupervisor.Stop` | packages/daemon/src/supervisor.ts:133-146 | stopping halts and clears the timer whose handle is held |
| `RequestModel.Conservation` | packages/app-server-client/src/client.ts:128-161 | after any order of requests, responses, timeouts, send failures, stop and close, each id handed out is either pending or settled, never both and settled once; a timer is armed exactly for a pending id; a closed client has none |
| `RequestModel.SettledForGood` | packages/app-server-client/src/client.ts:205-225 | settlements are only ever added, and closed stays closed |
| `RequestModel.ResponseSettlesItsOwn` | packages/app-server-client/src/client.ts:205-225 | a response settles the pending request that used its id and no other; a late, repeated, null or unknown id changes nothing |
| `RequestOutcomes.OutcomeHasCause` | packages/app-server-client/src/client.ts:119-307 | every settlement of a run was caused by one call, with that call's value: an answer for this id while it was pending, its own timer, its own failed send, or a close |
| `RequestOutcomes.RequestSettles` | packages/app-server-client/src/client.ts:128-161 | over every run: a request is refused exactly on a closed client; otherwise it gets the next id and is pending or settled as its send went |
| `RequestOutcomes.EndingsSettle` | packages/app-server-client/src/client.ts:119-138 | a timeout ends its own pending request and no other, a close or stop rejects every pending one, oldest first |
| `RequestOutcomes.IdsCountRequests` | packages/app-server-client/src/client.ts:128-133 | the client is closed if and only if some call closed it, and ids count the requests made before |
| `RequestClient.AppServerClient.SendRequest` | packages/app-server-client/src/client.ts:128-161 | the request step with a send that works, throws, or before throwing closes the client or delivers the answer |
| `RequestClient.AppServerClient.CompletePending` | packages/app-server-client/src/client.ts:205-225 | the response step; keeps the invariant |
| `RequestClient.AppServerClient.TimerFires` | packages/app-server-client/src/client.ts:135-138 | the timeout step, possible only for an armed timer |
| `RequestClient.AppServerClient.RejectAllPending` | packages/app-server-client/src/client.ts:301-307 | the deleting loop settles every pending request, oldest first, and disarms its timer |
| `RequestClient.AppServerClient.HandleClose` | packages/app-server-client/src/client.ts:296-299 | the close step; keeps the invariant |
| `RequestClient.AppServerClient.StopClient` | packages/app-server-client/src/client.ts:119-126 | the stop step, a no-op once closed |
| `JsonlModel.ChunkingDoesNotMatter` | packages/app-server-client/src/jsonl.ts:22-50 | any split of a text yields the same values and leftover as one push of the whole, and throws if and only if that does |
| `JsonlModel.RoundTrip` | packages/app-server-client/src/jsonl.ts:66-68 | any chunking of encoded messages decodes to the messages with nothing left over, if each of them encodes to one line that parses back |
| `JsonlModel.WhiteSpaceDoesNotMatter` | packages/app-server-client/src/jsonl.ts:27-39 | any chunking of messages with white space around them and blank lines between decodes to the messages |
| `JsonlModel.TrimIs` | packages/app-server-client/src/jsonl.ts:33 | trimming takes the white space off both ends and nothing else |
| `JsonlModel.ThrowLosesChunk` | packages/app-server-client/src/jsonl.ts:33-37 | after a throw the split does matter: the bad line takes the rest of its chunk with it |
| `Json.ShowIsFramed` | packages/app-server-client/src/jsonl.ts:66-68 | every value's JSON text is one non-blank line with nothing to trim, because strings escape control characters (section 7 of RFC 8259) |
| `Json.MessagesSurviveChunking` | packages/app-server-client/src/jsonl.ts:22-68 | the round trip for JSON values, given only that parsing undoes stringifying for the messages sent |
| `Jsonl.JsonlDecoder.TakeLine` | packages/app-server-client/src/jsonl.ts:42-50 | the buffered pieces and the tail as one line, the buffer emptied |
| `Jsonl.JsonlDecoder.PushChunk` | packages/app-server-client/src/jsonl.ts:22-40 | the scanning loop over pieces computes the values and leftover of the buffered text |
| `ShellModel.TokensConcat` | packages/core/src/security-policy.ts:309-372 | white space between two texts splits their tokens if the first ends outside quotes and without a dangling backslash |
| `ShellModel.SplitsIffClosed` | packages/core/src/security-policy.ts:309-372 | that condition is exact: it holds for every continuation if and only if the text ends so |
| `ShellModel.QuoteRoundTrip` | packages/core/src/security-policy.ts:325-340 | any list of tokens, empty ones included, comes back from its double-quoted spelling |
| `ShellSpellings.AnySpelling` | packages/core/src/security-policy.ts:309-372 | words pieced together from bare text, single quotes, double quotes and backslashes in any way come back as the contents of their pieces, one token each |
| `ShellSpellings.OpenEnds` | packages/core/src/security-policy.ts:309-372 | quotes left open close at the end, and a last backslash stands for itself |
| `ShellModel.DenySurvives` | packages/core/src/security-policy.ts:181-189 | a denied command is denied in every spelling with the same tokens and inside every longer command that sets it off with white space |
| `ShellModel.QuotingDoesNotHelp` | packages/core/src/security-policy.ts:269-296 | quoting every token changes no verdict, and the quoted form of a denied command stays denied when embedded |
| `ShellSpellings.VerdictIff` | packages/core/src/security-policy.ts:181-189 | each of the three verdicts by the tokens alone: denied if and only if a deny rule's tokens stand side by side in it, for admins if and only if not so but an admin rule's do, else allowed |
| `ShellSpellings.EmbeddingNeverHelps` | packages/core/src/security-policy.ts:181-189 | respelling the words of a command changes no verdict, and setting it off within a longer command never makes the verdict milder |
| `Shell.TokenizeShell` | packages/core/src/security-policy.ts:309-372 | the character loop with its four variables computes the tokens |
| `Shell.ContainsTokenSubsequence` | packages/core/src/security-policy.ts:374-383 | true exactly if the non-empty needle is a contiguous slice |
| `Shell.MatchesAny` | packages/core/src/security-policy.ts:287-296 | true exactly if some pattern's tokens are a contiguous slice of the command's |
| `Shell.CheckCommandLine` | packages/core/src/security-policy.ts:181-189 | deny rules before admin rules before allow |
| `ImText.TruncateImText` | packages/daemon/src/format.ts:109-114 | never longer than 3800, the text itself exactly if that fits, and in any case starting with the text's first 3776 characters |
| `ImText.StreamedBounds` | packages/daemon/src/format.ts:116-122 | for any deltas the buffer stays within 22800 characters, is the concatenation when that fits, and otherwise keeps its first 22776 characters followed by the notice |
| `ImText.SplitImText` | packages/daemon/src/format.ts:147-167 | the loop produces exactly the chunks of the closed form |
| `ImText.SplitLosesNothingIff` | packages/daemon/src/format.ts:147-167 | one to six chunks of at most 3800, continuation chunks prefixed; without the prefixes they are the text if and only if it has at most 22740 characters |
| `ImText.SplitTruncates` | packages/daemon/src/format.ts:159-163 | a longer text keeps its first 22720 characters and ends in the notice |
| `TurnOutputModel.TextIsItsOwnDeltas` | packages/daemon/src/turn-output.ts:133-181 | with any turns interleaved, a turn is in the table exactly while its own steps say so, and its text is the bounded fold of its own deltas since it was last opened |
| `TurnOutputModel.TurnsDoNotInterfere` | packages/daemon/src/turn-output.ts:171-256 | a turn's entry and its postings are what they would be had it run alone |
| `TurnOutputModel.PostedIsTold` | packages/daemon/src/turn-output.ts:236-274 | over a whole run, one message per ending of an open turn, to that turn's chat, with that turn's text and ending |
| `TurnOutputModel.EndingIsShown` | packages/daemon/src/turn-output.ts:515-535 | in every run an ending turn posts one message to its chat: its text with the ending told behind it unless it completed, or the ending alone; it is then forgotten |
| `TurnOutputModel.EachOpeningPostsOnce` | packages/daemon/src/turn-output.ts:236-274 | a turn posts no more often than it is opened, and one fewer while it is open |
| `TurnOutputModel.CompletedTurnArrivesIff` | packages/daemon/src/turn-output.ts:515-538 | the messages of a completed turn (no summaries, no path redaction), prefixes removed, are the concatenation of its deltas if and only if that has at most 22740 characters |
| `TurnOutputModel.NulMixesTurns` | packages/daemon/src/format.ts:105-107 | turns of two threads keep their texts apart in every run if and only if neither id continues the other behind a NUL |
| `TurnOutput.TurnOutputManager.OpenTurn` | packages/daemon/src/turn-output.ts:133-157 | opening sets a fresh entry, replacing an old one |
| `TurnOutput.TurnOutputManager.HandleDelta` | packages/daemon/src/turn-output.ts:171-180 | a known turn's text grows by the delta; an unknown turn changes nothing |
| `TurnOutput.TurnOutputManager.HandleTerminal` | packages/daemon/src/turn-output.ts:236-274 | the entry is gone, one body is posted, and the chunks are that body's split |
| `TurnOutput.TurnOutputManager.ClearAll` | packages/daemon/src/turn-output.ts:276-278 | every open turn is forgotten, nothing is posted |
| `Base32.GenerateRawCallbackToken` | packages/daemon/src/format.ts:35-49 | the loop on a register that wraps at 32 bits spells the full five-bit groups, cut to 16; all 16 for ten bytes |
| `Base32.LetterIsGroup` | packages/daemon/src/format.ts:43-46 | letter i stands for bits 5i to 5i+4 of the bytes in binary (section 6 of RFC 4648) |
| `Base32.EncodeLength` | packages/daemon/src/format.ts:43-46 | floor(8n/5) letters, all from the alphabet |
| `Base32.RoundTripIff` | packages/daemon/src/format.ts:35-49 | decoding gives the bytes back if and only if their number is a multiple of five |
| `Base32.TokensDiffer` | packages/daemon/src/format.ts:35-49 | different draws of ten bytes give different tokens |
| `Base32.TokensFitTheWire` | packages/daemon/src/daemon.ts:113 | a ten-byte token behind `v1:` matches the wire pattern |
| `Base32.ShiftInKeeps` | packages/daemon/src/format.ts:41 | the wrapped register holds the low 32 bits of everything shifted in |
| `Base32.CutFive` | packages/daemon/src/format.ts:44 | unsigned shift and mask cut the right five bits although the high ones are lost |

## Left out

- Promises, timers and the event loop: a step is a stretch between awaits, and time is an argument.
- Field-by-field mapping of notifications to events: mapped events with their class are the input.
- Sending of messages, cards, files and edits by the chat adapters, and the progress-edit throttle: I/O; a turn's terminal body and its chunks are modelled.
- Status and item summaries, files and local-path redaction of a turn: they would only add sections to a body; the turns modelled have none.
- `JsonlDecoder` on byte buffers: UTF-8 decoding per chunk breaks the chunking law for split multibyte characters.
- `JSON.parse` itself: a parameter of the decoder.
- Audit records, logs, snapshots and their observers' own behaviour.
- The SQLite store beyond the token rows, statuses and lookups used here; row actor fields and row limits of its sweeps are not modelled, the rows a sweep picks are arbitrary.
- The awaits inside a spawn after the reattach, and those of a failed generation's clean-up: one step each.
- Server-request dispatch and its timeout in the client, notifications, `respond` and `reject`.
- Regex redaction, the mutation rate limit, configuration, slash commands other than `/approve`, rendering, status pages.
- Allow and deny tables of `SecurityPolicy` and the Computer Use policy: single lookups without state.
- The stuck-token prune's liveness: it does not follow from the code, which un-flags ids when a sweep revokes nothing.
- Callback.CallbackDaemon.TryBindIssued: one attempt of the retry loop; the delays and the stuck flag are left out because the loop repeats this step.
- Supervisor.ProcessSupervisor.Stop: does not detach the close listener or stop the client, because a halted supervisor ignores closes anyway and the client is its own model.
- Callback.CallbackDaemon.MarkAcceptedApprovalRecord: does not record the actor on the row, because no step reads it.
- BrokerModel.Approves: knows the wire words that grant leave; other payloads are opaque.

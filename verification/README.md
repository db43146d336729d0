# Durable delivery and maintenance fencing

This project models the parts of the Silicon runtime that must agree, across crashes and concurrent
processes, on who owns each piece of work, and proves what they promise.

* **Maintenance coordinator** (`Maintenance*.dfy`): leases, the root queue, receipts, the drain fence and
  `safe_to_stop` as one atomically updated document. Every public call prunes first, then mutates; a call
  that raises writes nothing. `MaintenanceEffects.dfy` says what each call does without the functions that
  compute it, and the coordinator's methods promise that.
* **Two durable sources**: work-call hand-offs through the manager queue (`Manager*.dfy`) and the Interface
  inbox cursor (`Inbox*.dfy`), both joined to the coordinator and both with crash and ambiguous-failure steps.
  `IdentityFrames.dfy` holds what a coordinator call leaves alone; `ManagerHandoffSends.dfy` and
  `InboxEffects.dfy` prove that a send and a pass nothing disturbs get there, and what each step does.
* **One concurrent consumer** (`Dispatcher*.dfy`, `ManagerDispatcher.dfy`): bounded capacity, one thread per
  contact, mid-run injection and settlement, interleaved at lock granularity. Registering a thread and starting
  it are two steps (`DispatcherStarts.dfy`); `DispatcherInjection.dfy` says what becomes of injected messages,
  `DispatcherSettlement.dfy` how each admission is settled, and that a message gets through.
* **Long tasks**: the first-in-first-out fence with its lifecycle half (`RootQueue*.dfy`), accuracy reviews
  (`ReviewSchedule.dfy`) and the final-reply barrier (`FinalReply.dfy`).
* **Diagnostics**: the trace log against its crash replay (`DiagnosticsModel.dfy`, `DiagnosticsTrace.dfy`) and
  against the calls made (`DiagnosticsEffects.dfy`), and the attempt-bounded delivery queue
  (`DiagnosticsQueue.dfy`, `RollupQueue.dfy`, `RollupEffects.dfy`), also drained by several at once
  (`DiagnosticsDrains.dfy`).
* **Best-effort outbox** (`OutboxModel.dfy`, `BestEffortOutbox.dfy`), **key rotation** (`KeyRotation.dfy`) and
  the **data policy** (`Glob*.dfy`, `PathOrder.dfy`, `DataPolicy.dfy`, `PolicyResolution.dfy`).

Each component is given twice where it changes state: as functions on values, about which the run-level
theorems are proved, and as a class or a method with the source's own loops, proved to compute those functions and
to have the effects stated without them.

Assumptions, each a parameter or an enabling condition of the models: the state store performs atomic locked
read-modify-write; UUIDs are fresh; SHA-256 identities are injective; activity tokens are genuine; times are
arbitrary at every step; at-most-once of one item is claimed while the calls made spare the receipts of that
item, those of all others being free to go; message texts are a function of the message or event; starting a
registered thread succeeds; `fnmatch`, the temporary-name pattern and the forbidden names are parameters.

## What the proofs turned up

* The docstring of `ManagerDispatcher` (`main.py:2117-2122`) says a message for an active contact is coalesced
  into its next turn. The code injects it into the running turn or hands it back; a pending list never holds
  two admissions (`DispatcherRuns.TurnsStartFromOneAdmission`).
* If `retry_roots`, the replay between two batches, or the completion of stranded roots raises, `_run_contact`
  ends without releasing the slots of what it held, and the dispatcher's capacity is lowered for good.
  Conservation holds exactly when that never happens (`DispatcherRuns.SlotsLeakExactlyWhenCallsRaise`). A message
  injected into such a turn also stays in `_injected` without a thread until the contact runs again;
  `DispatcherStarts.InjectedWorkHasAThread` gives the exact condition. It needs an offer accepted after the turn's
  own runner returned, by another live run of the contact or a runner that registers otherwise: offers accepted
  only while the runner is going are never lost or stranded (`DispatcherInjection.OffersInTheRunAreTaken`).
* `submit` starts its threads only after its loop. When a later contact raises (its `enqueue_root`, the closed
  test or the hand-back of an overflow), the threads of the earlier contacts are never started: those contacts
  stay busy, keep their slots and are left out of replay for as long as the process lives
  (`DispatcherStarts.NeverStartedExactlyWhenSubmitRaised`, `DispatcherStarts.AbandonedContactIsLost`).
  An admission whose hand-back raised stays claimed until its lease runs out.
* A diagnostics row can be sent six times, one more than `MAX_DELIVERY_ATTEMPTS`: a stored acknowledgement
  deletes the attempt counter while a drain still has the row ahead (`DiagnosticsQueue.SixthSend`); exactly
  then, and only if that drain goes on to send it (`DiagnosticsQueue.DeliveryIsBounded`). A row with an empty
  run id is never counted, so the bound is stated for the others. A crash between counting and dead-lettering
  leaves a row with six attempts pending, so the decreasing measure gives such a row one drain more.
* Between the decision of a flush and the hand-over of its reply a worker can be journaled, the task deferred, or
  a first task prepared where none was required; the barrier then no longer holds at the hand-over
  (`FinalReply.WorkerSlipsIn`, `FinalReply.DeferralSlipsIn`, `FinalReply.TaskSlipsIn`). A worker already journaled,
  for a card named explicitly, when a decision required no task is a fourth way, once a task of its own comes
  up: it may still be pending though that task is confirmed and done (`FinalReply.EarlierWorkerStays`).
  `FinalReply.BarrierAtHandOver` gives the exact condition.
* In the stop window, adopting legacy work dated before the fence is the one call that ends idleness
  (`MaintenanceProperties.StopWindowStep`, `MaintenanceProperties.NothingRunsDuringAnUpdate`).
* A pattern such as `a/**` protects `a` itself only when `a` is a directory; the matcher states this.
* Rotation is safe only if the server never acts on a request after a probe was answered
  (`KeyRotation.LateRequestLosesTheKey`). A success status other than 200 is taken for a rejection of the probed
  key: recovery may then give up on a key the server accepts, or report a rotation with an old copy left behind
  (`KeyRotation.OddAnswerGivesUp`, `KeyRotation.OddAnswerLeavesACopy`); the key itself is never lost.

## Model

| member | source | states |
|---|---|---|
| `MaintenanceInvariant.ApplyKeepsInv` | core/maintenance.py:336-347 | every operation, pruning included, keeps one inductive invariant: distinct queue ids, exclusive claims, fenced epochs, spent transfers, kept lineages, bounded receipts, and `safe_to_stop` only when quiescent |
| `MaintenanceInvariant.PruneKeepsInv` | core/maintenance.py:237-334 | pruning keeps the invariant, brings the receipts under their bounds, and leaves a root claimed only under a live lease with an unexpired claim |
| `MaintenanceInvariant.ClaimedExactlyWhenLive` | core/maintenance.py:292-302 | after a prune a root is claimed if and only if its lease lives and its claim has not run out |
| `MaintenanceInvariant.ReceiptRetention` | core/maintenance.py:253-290 | a receipt leaves only by age, or because the full complement of receipts accepted no earlier is kept instead |
| `MaintenanceInvariant.NewestKeepsTheLatest` | core/maintenance.py:262-270 | eviction by count keeps exactly the limit and drops nothing accepted later than what it keeps |
| `MaintenanceProperties.RunKeepsInv` | core/maintenance.py:336-347 | the invariant holds after every run of operations at arbitrary times |
| `MaintenanceProperties.QuiescenceIsReal` | core/maintenance.py:328-334 | in every reachable document `safe_to_stop` means draining, no lease, no claimed root and no pending continuation |
| `MaintenanceProperties.AcknowledgedExactlyWhenQuiescent` | core/maintenance.py:1163-1185 | the quiescence acknowledgement is granted if and only if the pruned document is quiescent, of the acknowledged epoch, with secured inputs |
| `MaintenanceProperties.StopBoundary` | core/maintenance.py:447-504 | `updating` is entered if and only if the drain is acknowledged, unexpired and named correctly, and then nothing runs |
| `MaintenanceProperties.StopWindowStep` | core/maintenance.py:919-960 | in the stop window an idle document stays idle under every call except exactly the adoption of pre-fence work |
| `MaintenanceProperties.NothingRunsDuringAnUpdate` | core/maintenance.py:885-960 | over any run inside the stop window nothing is leased, claimed or waiting to continue at any moment, if and only if no call of it adopts work dated before the fence |
| `MaintenanceProperties.ReportedUpdateWasStopped` | core/maintenance.py:459-500 | a document that is updating, validating or reports an update got there through a quiescent, unexpired stop boundary |
| `MaintenanceProperties.FenceAdmitsNothingNew` | core/maintenance.py:669-745 | while the fence is up no lineage appears except by adoption, and every lease and continuation was admitted in an earlier epoch |
| `MaintenanceProperties.EpochStep` | core/maintenance.py:403-423 | one call moves the epoch only forwards, and only by raising the fence |
| `MaintenanceProperties.EpochNeverDecreases` | core/maintenance.py:403-423 | over any run the epoch never decreases |
| `MaintenanceRoots.BackoffIsMonotoneAndCapped` | core/maintenance.py:47-54 | the retry delay grows with the failures, is at least the requested delay up to the cap, and never exceeds 300 s |
| `MaintenanceRoots.BackoffDoubles` | core/maintenance.py:47-54 | each of the first six further failures doubles the delay below the cap; later ones leave it |
| `MaintenanceRoots.OnlyCompletionRemoves` | core/maintenance.py:980-998 | no other operation removes, reorders or renames a queued root |
| `MaintenanceRoots.CompletionRemovesExactlyTheHeld` | core/maintenance.py:980-998 | completion removes exactly the roots whose current token and lease were presented, with their leases, and keeps the rest in order |
| `MaintenanceRoots.NoRootIsLost` | core/maintenance.py:980-998 | along any run a root that is gone was completed by a caller holding the claim current at that moment |
| `MaintenanceRoots.SettlementNeedsACurrentClaim` | core/maintenance.py:980-1057 | complete, retry and defer change the document if and only if the admission is current |
| `MaintenanceRoots.StaleForever` | core/maintenance.py:1002-1057 | an admission whose token is spent can never settle anything again, whatever happens later |
| `MaintenanceRoots.SettlingSpendsTheToken` | core/maintenance.py:980-1057 | each settlement spends the token it used |
| `MaintenanceRoots.ClaimedAdmissionsAreCurrent` | core/maintenance.py:710-745 | every admission a claim hands out is current under a live lease with its own identity, and no two share a root, token or lease |
| `MaintenanceRoots.DrainCannotBeWedged` | core/maintenance.py:720-745 | once every pending continuation is due, an unlimited claim leaves none pending |
| `MaintenanceRoots.DelaysComeFromRetries` | core/maintenance.py:1002-1031 | every delay on a root stems from a retry naming it and reaches at most 300 s past it |
| `MaintenanceRoots.DrainEmptiesAfterTheCap` | core/maintenance.py:47-54 | 300 s after the last call of any run one claim empties a drain of pending continuations |
| `MaintenanceRoots.IngressIsIdempotent` | core/maintenance.py:595-664 | accepting a source identity again changes nothing and agrees, unless its contact or text differs, which is refused |
| `MaintenanceRoots.IngressAppendsExactlyOnce` | core/maintenance.py:595-664 | a root is appended if and only if its identity has neither receipt nor queued root; the rest of the queue is untouched |
| `MaintenanceCoordinator.PruneDocument` | core/maintenance.py:237-334 | the pruning loops compute the pruning function: exactly the expired leases go, exactly the claims without a live lease or past their time are dropped, receipts leave by age or by the count limit, and a drain past its deadline reopens |
| `MaintenanceCoordinator.Coordinator.RequestDrain` | core/maintenance.py:395-426 | raises the fence in a new epoch with the deadline asked for, keeps a fence that is up under its own id and raises on another, and changes nothing when it raises |
| `MaintenanceCoordinator.Coordinator.CancelDrain` | core/maintenance.py:428-445 | reopens exactly a drain under way that is the one named, or whichever it is when none is named, and reports whether it did |
| `MaintenanceCoordinator.Coordinator.Transition` | core/maintenance.py:447-505 | moves along exactly the listed edges, under the guard of each, or raises and writes nothing |
| `MaintenanceCoordinator.Coordinator.EnqueueRoot` | core/maintenance.py:507-565 | the queue has exactly one root more, at its end, with the given contact and text, an id not queued before, no transfer and no delay; it is claimed if and only if no fence is up and the caller admits it, and then the admission returned carries its id, texts and claim |
| `MaintenanceCoordinator.Coordinator.EnqueueIngressRoot` | core/maintenance.py:567-667 | a known identity is recognised by its texts, or refused with nothing written; an unknown one is queued once, at the end, with its receipt |
| `MaintenanceCoordinator.Coordinator.ClaimPendingRoots` | core/maintenance.py:710-745 | exactly the ready roots with the fewest before them are claimed while there is room, one per contact where asked, each under a new lease, and returned in queue order with their current claims |
| `MaintenanceCoordinator.Coordinator.EnqueueContinuation` | core/maintenance.py:747-835 | a known identity is recognised by its texts; a lease that does not live is refused; a live one leaves and becomes one root with its lineage and epoch, with its receipt; the result says whether the transfer stands |
| `MaintenanceCoordinator.Coordinator.Heartbeat` | core/maintenance.py:837-858 | exactly the lease named, if it lives, and the claims under it last until now plus their times, and the result says whether it lived |
| `MaintenanceCoordinator.Coordinator.AcquireActivity` | core/maintenance.py:872-917 | admitted if and only if no fence is up or a live parent was admitted before it; then exactly one lease is added, of this kind, lineage, epoch and time, and its token returned |
| `MaintenanceCoordinator.Coordinator.AdoptPrefenceActivity` | core/maintenance.py:919-963 | adopted if and only if no fence is up or the work is not dated after the fence was raised; then it counts as admitted before it |
| `MaintenanceCoordinator.Coordinator.Release` | core/maintenance.py:965-978 | drops exactly this lease and reports whether it was there |
| `MaintenanceCoordinator.Coordinator.CompleteRoots` | core/maintenance.py:980-1000 | exactly the roots whose current token and lease are presented leave with their leases, and the rest stay in order |
| `MaintenanceCoordinator.Coordinator.RetryRoots` | core/maintenance.py:1002-1031 | exactly those roots lose claim and lease, count one failure more, and wait the requested delay doubled per earlier failure up to six times and at most 300 s; the others are untouched |
| `MaintenanceCoordinator.Coordinator.DeferRoots` | core/maintenance.py:1033-1057 | exactly those roots lose claim and lease, and nothing else about them changes |
| `MaintenanceCoordinator.Coordinator.AcknowledgeRuntimeQuiescent` | core/maintenance.py:1141-1188 | granted if and only if the pruned document is draining in this epoch with inputs secured, nothing leased and no continuation waiting; it is then, and only then, marked safe to stop |
| `MaintenanceCoordinator.RaiseFence` | core/maintenance.py:403-426 | the fence goes up in the next epoch, not yet safe to stop, under the id and deadline given |
| `MaintenanceEffects.PruneTidies` | core/maintenance.py:237-334 | what a prune removes and keeps, field by field, without the pruning functions |
| `MaintenanceEffects.SubmitStores` | core/maintenance.py:507-565 | a submitted message is stored as the last root whatever the phase, and claimed only where it is admitted at once |
| `MaintenanceEffects.IngressTakes` | core/maintenance.py:567-667 | a source identity is recognised by its texts or queued once, with its receipt |
| `MaintenanceEffects.ContinuationTakes` | core/maintenance.py:747-835 | a transfer is recognised by its texts, refused without a live lease, and otherwise becomes one root in the lease's lineage and epoch |
| `MaintenanceEffects.ClaimTakes` | core/maintenance.py:710-745 | a claim takes a root if and only if it is ready and fewer than the limit before it were taken, one per contact where asked, and issues lease and token for each |
| `MaintenanceEffects.HeartbeatReaches` | core/maintenance.py:837-858 | the lease and its claims last until now plus their times |
| `MaintenanceEffects.AcquireAdmits` | core/maintenance.py:872-917 | who is admitted while the fence is down and while it is up, and what the new lease holds |
| `MaintenanceEffects.AdoptAdmits` | core/maintenance.py:919-963 | which legacy work is adopted, and in which epoch |
| `MaintenanceEffects.CompleteRemoves` | core/maintenance.py:980-1000 | completion removes the presented roots and their leases, and nothing else |
| `MaintenanceEffects.RetryPenalises` | core/maintenance.py:1002-1031 | a retry counts the failure and sets the delay of the presented roots, and nothing else |
| `MaintenanceEffects.BackoffIsTheDelay` | core/maintenance.py:47-54 | the backoff is the requested delay times two to the number of earlier failures, six at most, capped at 300 s |
| `MaintenanceEffects.DeferHandsBack` | core/maintenance.py:1033-1057 | handing back gives up claim and lease of the presented roots, and nothing else |
| `MaintenanceEffects.RequestRaises` | core/maintenance.py:395-426 | when a drain request raises the fence, keeps it or is refused |
| `MaintenanceEffects.TransitionMoves` | core/maintenance.py:447-505 | which transitions are taken, under which guards, and what they record |
| `MaintenanceEffects.AcknowledgeGrants` | core/maintenance.py:1141-1188 | when the stop is acknowledged |
| `ManagerQueue.QueueFile.AppendItem` | core/messages.py:74-116 | an item already there is recognised, another of its id refused, a full file refused and counted; otherwise the item is appended; nothing else changes |
| `ManagerQueue.QueueFile.RemoveIds` | core/messages.py:119-140 | exactly the items with the given ids leave, and of the others whatever was ahead of another still is |
| `ManagerQueue.WithoutKeepsTheRest` | core/messages.py:119-140 | removal keeps exactly the items of other ids and never duplicates an id |
| `ManagerQueue.WithoutKeepsOrder` | core/messages.py:119-140 | removal never puts an item ahead of one it was behind |
| `ManagerHandoffSteps.StepKeepsBase` | core/messages.py:247-562 | every step of senders, drainer, deaths, ambiguous exceptions and foreign traffic, evictions of any receipts included, keeps the documents consistent with the texts of the hand-offs and no queue identity reused |
| `ManagerHandoffSteps.StepKeepsHandoff` | core/messages.py:247-562 | every such step keeps the invariant of one hand-off as long as the step's own coordinator call spares that hand-off's two receipts, whatever becomes of the others |
| `IdentityFrames.YoungIsKept` | core/maintenance.py:253-290 | a call spares an identity whose receipts are younger than their lifetimes when the receipt lists are within their bounds |
| `ManagerHandoffTheorem.ExactlyOnceHandoff` | core/messages.py:247-355 | in every run whose calls spare this hand-off's own receipts, evictions of all others allowed, it never creates two roots, and once reported done it has created one or is still journalled |
| `ManagerHandoffTheorem.UndisturbedPassDelivers` | core/messages.py:449-562 | every drainer pass that runs from its snapshot to its end without a raising call or a skipped item empties the queue it found, and each hand-off in it, prepared or plain, whose receipts are spared has exactly one root |
| `ManagerHandoffTheorem.JournalledIsDeliverable` | core/messages.py:449-562 | for a journalled item such a pass exists at any clock, and after every such pass the item is out of the queue with exactly one root |
| `ManagerHandoffTheorem.FallBackNeverConflicts` | core/messages.py:358-434 | in every run, whatever receipts were evicted, falling back to the ordinary queue never conflicts: it fails if and only if the queue is full |
| `ManagerHandoffSends.AnAdmittedSendArrives` | core/messages.py:247-355 | from any reachable system a send the coordinator admits, offered while its lease lasts and with room in the queue file, goes through in four steps and leaves one root of its own identity, recipient, text and lineage, and no record |
| `ManagerHandoffSends.SendBecomesTheContinuation` | core/messages.py:303-345 | in any reachable system a sender with a live activity and room in the queue file journals, hands over and finishes; that leaves one continuation, no plain delivery, and a root carrying the activity's lineage and epoch |
| `ManagerHandoffSends.JournalWrites` | core/messages.py:303-318 | the prepared record is written if and only if there is room for it |
| `ManagerHandoffSends.OrdinaryOnlyForAReason` | core/messages.py:247-434 | a plain record or a fall-back of a hand-off exists in a reachable system only if it was sent plainly, no activity was admitted for it, the queue file was full, or its lease had run out when it was offered |
| `ManagerHandoffSends.RootsCarryTheMessage` | core/messages.py:319-345 | whatever root of a hand-off is queued carries its recipient and its text |
| `ManagerHandoffSends.RefusedFallsBack` | core/messages.py:346-434 | a refused send, from any reachable system, gives up its activity, removes its prepared record and ends in the ordinary queue unless that is full |
| `ManagerHandoffSends.RaisingHandsLeaveTheRecord` | core/messages.py:319-345 | a hand-over that raises after its effect leaves the coordinator as one that returns, one that raises before leaves it untouched, and either leaves the prepared record in place |
| `ManagerHandoffSends.InterruptionsLeaveTheDocuments` | core/messages.py:247-562 | a death or a crash ends what was going on and leaves queue file and coordinator as they are |
| `InboxModel.PipelineRefinesTheFile` | core/interface.py:2147-2257 | under the invariant the records after the committed offset are batch in hand, retry, queue, just-read and unread records, in order |
| `InboxModel.DrainKeepsInv` | core/interface.py:2537-2552 | draining takes the front of what is in flight and reorders nothing |
| `InboxModel.CommitKeepsInv` | core/interface.py:2240-2257 | committing moves the offset strictly forward past exactly the first record in hand |
| `InboxModel.InboxConsumer.ReadLines` | core/interface.py:2190-2237 | the scanning loop returns consecutive complete lines and stops only at its record bound, at its byte bound or when no complete line is left |
| `InboxModel.InboxConsumer.ReadNewRecords` | core/interface.py:2147-2237 | the scan continues where the last one ended, or at the committed offset after a restart, passes over exactly the lines it returns, and puts them behind those read before |
| `InboxModel.InboxConsumer.QueueRecords` | core/interface.py:2260-2265 | just-read records join the queue in order |
| `InboxModel.InboxConsumer.DrainListenerEvents` | core/interface.py:2537-2552 | the batch is the front of the retried and then the queued records, as many as the limit and they allow; queued ones only once no retried one is left |
| `InboxModel.InboxConsumer.CommitRecord` | core/interface.py:2240-2257 | the durable offset moves forward to the end of the first record in hand, which leaves the batch |
| `InboxModel.InboxConsumer.RetryInboxBatch` | core/interface.py:2555-2562 | the whole unhandled rest of the batch goes back ahead of everything newer, in order, and none stays in hand |
| `InboxHandoff.ExactlyOnceInbox` | core/interface.py:2684-2769 | over any interleaving with crashes and failed hand-offs: once the cursor passed an event it became a root or an explicit branch skipped it, whatever was evicted; and as long as the event's own receipt is spared it became at most one root |
| `InboxHandoff.InboxPipeline` | core/interface.py:2684-2769 | at every reachable moment the four places in flight and the unread rest hold exactly the uncommitted records in file order |
| `InboxHandoff.HandOverNeverConflicts` | core/interface.py:2718-2745 | with texts fixed by the event a hand-over is never refused as a conflict, in any run and whatever receipts were evicted |
| `InboxEffects.AnUndisturbedPassHandsOverEverything` | core/interface.py:2684-2769 | in any reachable state, crashed or not, let more bytes arrive: at any clock and with any batch size there is a pass in which nothing fails; it commits every complete line of the file, drops no event, and each event has become a root unless an explicit branch had dropped it before |
| `InboxEffects.HandHandsOver` | core/interface.py:2718-2745 | an event handed over is with the coordinator under its own identity and texts; the reader moves on once it is marked and holds the whole batch back otherwise |
| `InboxEffects.FailureHoldsBack` | core/interface.py:2736-2766 | a hand-over or bookkeeping that raises, before or after its effect, puts the whole batch back and drops nothing |
| `InboxEffects.FrameFailureMovesOn` | core/interface.py:2760-2769 | a malformed frame can be committed at once; exactly its events count as dropped |
| `DispatcherInvariant.SplitLosesNothing` | main.py:2305-2319 | splitting a turn into batches loses and reorders nothing and leaves every review alone in its batch |
| `DispatcherInvariant.SplitRunsTogether` | main.py:2305-2319 | of two neighbouring batches one is a review: the roots between reviews are run together |
| `DispatcherTheorem.StepKeepsInv` | main.py:2139-2373 | every locked section of submit, replay and contact threads, every thread start and every coordinator call keeps the conservation invariant |
| `DispatcherRuns.DispatcherConservation` | main.py:2217-2284 | in every interleaving the claimed count equals the admissions pending, injected, in hand and leaked, stays within the limit, and no admission is in two places |
| `DispatcherRuns.SlotsLeakExactlyWhenCallsRaise` | main.py:2344-2373 | the claimed count equals the admissions really held if and only if no coordinator call ever raised out of a thread that held some |
| `DispatcherRuns.OneThreadPerContact` | main.py:2217-2251 | a contact has one registered thread or none, and one whenever it has pending work, or injected work while no call raised out of a thread |
| `DispatcherStarts.NeverStartedExactlyWhenSubmitRaised` | main.py:2139-2171 | a thread registered by a submit is not started in any continuation if and only if a later contact of that same submit raised |
| `DispatcherStarts.AbandonedContactIsLost` | main.py:2139-2171 | the contact of such a thread stays busy in every continuation, its pending work keeps its slots, and the dispatcher is never idle again |
| `DispatcherStarts.SecondContactRaises` | main.py:2139-2171 | a run in which a submit of two contacts raises for the second and the first one's thread never starts |
| `DispatcherStarts.InjectedWorkHasAThread` | main.py:2184-2215 | injected messages of a contact have exactly one thread of its own to take them if and only if no call raised out of the turn that held them without a thread being registered for the contact since |
| `DispatcherStarts.InjectedBeforeRetryRaises` | main.py:2344-2373 | a run in which a message is left without a thread: it is injected, by an offer accepted after the turn's own runner returned, into a turn whose retry raises |
| `DispatcherInjection.OffersInTheRunAreTaken` | core/iwantto/injection.py:33-72 | when every accepted offer comes while the contact's runner is going, injected messages always have the turn they were put into as the one thread of their contact and still to take them, nothing is ever stranded, and no raising call loses any |
| `DispatcherRuns.TurnsStartFromOneAdmission` | main.py:2233-2250 | a contact never has more than one pending admission |
| `DispatcherRuns.SettledOnce` | main.py:2286-2373 | over any stretch of any run a settlement once made is never changed, and no admission is forgotten or issued again |
| `DispatcherSettlement.SettledAsItWent` | main.py:2321-2366 | over any run an admission is completed if and only if the runner of the turn that held it returned cleanly and its completion did not raise, or it was completed as stranded; retried if and only if that runner or that completion raised; handed back if and only if it was turned away; left to lapse if and only if handing it back raised |
| `DispatcherSettlement.AttemptGoesThrough` | main.py:2321-2366 | an attempt at a batch goes through whatever its runner and the coordinator do, settles the batch with what was injected meanwhile, and gives back exactly their slots, or gives the contact up |
| `DispatcherSettlement.ATurnCompletesItsMessage` | main.py:2286-2366 | in any reachable world the pending message of a started thread is completed by one clean turn |
| `DispatcherSettlement.AMessageGoesThrough` | main.py:2139-2373 | in any reachable open dispatcher with room a new message of an idle contact is registered, started, run, completed, and its thread gone, with every slot free again |
| `DispatcherRuns.IdleMeansAllSettled` | main.py:2286-2373 | with no thread left and no call raised out of one, every admission ever issued has its one settlement and every slot is free |
| `DispatcherRuns.ReplayNeverOverflows` | main.py:2263-2279 | replaying the durable queue starts a thread for every admission it claims |
| `DispatcherRuns.WorldFollowsSchedule` | main.py:2217-2261 | the world's slots follow the scheduling loop and exactly what overflows is deferred |
| `ManagerDispatcherClass.ManagerDispatcher.AssignLocked` | main.py:2223-2249 | turned away if and only if there is no slot, or the contact runs and the offer was not taken; injected if and only if the running turn took it; otherwise pending with one new thread registered; one slot more unless turned away |
| `ManagerDispatcherClass.ManagerDispatcher.ScheduleAdmissionsLocked` | main.py:2217-2251 | the scheduling loop computes the schedule and its overflow, uses one slot for each admission that does not overflow, and returns exactly the threads it registered for the caller to start, or raises unchanged when closed |
| `ManagerDispatcherClass.ManagerDispatcher.NextTurn` | main.py:2290-2297 | takes all pending admissions of the contact, or, when there are none, what was injected, and takes contact and thread out of the dispatcher |
| `ManagerDispatcherClass.PoppedIsThePopStep` | main.py:2290-2297 | that section is the step the interleavings take, in every world of the invariant |
| `ManagerDispatcherClass.ManagerDispatcher.TakeInjected` | main.py:2213-2215 | the contact's injected admissions leave together |
| `ManagerDispatcherClass.ManagerDispatcher.ReleaseClaimedRoots` | main.py:2281-2284 | the count drops by the released roots and never below zero |
| `ManagerDispatcherClass.ManagerDispatcher.RunBatch` | main.py:2321-2373 | one attempt at a batch: what was injected is settled with it; completed if and only if runner and completion return, else retried, with the slots given back; when the retry raises too the contact is given up and the slots are not |
| `ManagerDispatcherClass.ManagerDispatcher.SplitBatches` | main.py:2305-2319 | the batching loop computes the split, keeps every admission in order, isolates reviews and runs the roots between them together |
| `RootQueueFence.QueueBounds` | core/long_task_updates.py:532-570 | reachable queues hold no duplicate id, one review at most, 16 roots per contact and 128 in all |
| `RootQueueFence.OnlyTheOldestCrosses` | core/long_task_updates.py:517-530 | a root is let through only past a backlog that was empty when read, or under the name of the oldest root queued for its contact when the head was read, and then, from a caller that presents the root whose text it runs, with that oldest root's own text; whatever the queue did between the two readings |
| `RootQueueEffects.CrossesExactlyWhen` | core/long_task_updates.py:477-530 | a root is let through if and only if no other run's lifecycle has a reply pending, a settlement requested or a terminal card, and its contact's backlog is empty, or its head is leased by this live caller under this root |
| `RootQueueEffects.NothingCrossesTheLifecycle` | core/long_task_updates.py:492-499 | while another run's reply is pending, its settlement requested or its card terminal, nothing is let through, whatever backlog, head or claim |
| `RootQueueFence.NoneCrossesBefore` | core/long_task_updates.py:477-530 | while an accepted root waits, whoever is let through for its contact crosses as a head accepted no later, so neither a later root nor one that was never queued crosses before it |
| `RootQueueFence.HeadLeaseIsExclusive` | core/long_task_updates.py:427-453 | over any run in which a leased head is not removed and its worker lives and its lease has not run out at every claim, only that worker, and only with that root, counts as the claimed head |
| `RootQueueFence.NoOvertaking` | core/long_task_updates.py:673-696 | an accepted root waits until it is acknowledged or is a review replaced by a newer one, and no later root is the head meanwhile |
| `RootQueueFence.ClaimLeavesOthers` | core/long_task_updates.py:583-626 | a claim leaves alone busy contacts, contacts not asked for, and heads another live process holds, and stays within its limit |
| `RootQueueFence.ClaimsAreHeads` | core/long_task_updates.py:583-626 | every claimed root is the leased head of its idle contact for the worker that claimed it |
| `RootQueueModel.EnqueueKeepsInv` | core/long_task_updates.py:532-570 | queueing keeps the bounds, the arrival order, and claims on heads only |
| `RootQueueModel.AcknowledgeKeepsInv` | core/long_task_updates.py:673-696 | acknowledging keeps the bounds, the arrival order, and claims on heads only |
| `RootQueueFence.LongTaskQueue.QueueRoot` | core/long_task_updates.py:532-570 | the root waits at the end of its contact's queue once, a newer review having replaced an older one, or at capacity the call raises and writes nothing |
| `RootQueueFence.LongTaskQueue.ClaimReadyRoots` | core/long_task_updates.py:583-626 | exactly the ready or abandoned heads of idle contacts asked for are leased to the worker, in order, while there is room, and returned; nothing else changes |
| `RootQueueFence.LongTaskQueue.AcknowledgeRoot` | core/long_task_updates.py:673-696 | the root leaves every queue, emptied queues disappear, and nothing else changes |
| `RootQueueFence.LongTaskQueue.QueueIfBlocked` | core/long_task_updates.py:477-570 | answers blocked if and only if another run's lifecycle holds the fence or the backlog does; when it does the root waits in the queue, or it raised at capacity without writing |
| `RootQueueFence.LongTaskQueue.ClaimOldestReady` | core/long_task_updates.py:583-626 | claims over all contacts, the one whose head waits longest first |
| `RootQueueEffects.QueueingQueues` | core/long_task_updates.py:532-570 | what queueing adds, replaces and refuses |
| `RootQueueEffects.ClaimingClaims` | core/long_task_updates.py:583-626 | a contact's head is claimed if and only if it can be and fewer than the room allows before it were |
| `RootQueueEffects.OldestServedFirst` | core/long_task_updates.py:583-626 | a contact asked for earlier is never passed over for a later one |
| `ReviewSchedule.ReviewsTile` | core/long_task_updates.py:1329-1349 | within a generation completed reviews cover checkpoints 1..n exactly once each and nothing beyond, and the pending one starts at n+1 |
| `ReviewSchedule.NothingReviewedEarly` | core/long_task_updates.py:1224-1262 | no review covers a checkpoint not due when it was prepared, up to 1e-9 of an interval |
| `ReviewSchedule.StaleReviewsChangeNothing` | core/long_task_updates.py:1329-1349 | completing an id changes the schedule if and only if it is pending; ids completed before or of another generation never are |
| `ReviewSchedule.GenerationsAdvance` | core/long_task_updates.py:994-1035 | a superseded generation never returns |
| `ReviewSchedule.WhatHasComeIsReviewed` | core/long_task_updates.py:1224-1349 | in any reachable running lifecycle with no review under way, every checkpoint that has come is covered by one review prepared, claimed, dispatched and completed now |
| `ReviewSchedule.PrepareMeans` | core/long_task_updates.py:1186-1262 | exactly when a review is prepared and what it covers, and what looking at the task does otherwise |
| `ReviewSchedule.GoalTakes` | core/long_task_updates.py:994-1035 | exactly when a goal starts a new generation, and with what |
| `ReviewSchedule.AccuracySchedule.SetGoal` | core/long_task_updates.py:994-1035 | a goal is taken up if and only if it is positive, its task named, and it is another task's or differs by a second and a hundredth; then the schedule starts over from the anchor in a new generation, a twentieth of the goal apart |
| `ReviewSchedule.AccuracySchedule.PrepareReview` | core/long_task_updates.py:1186-1268 | a review is prepared if and only if the schedule looked at is still the one, nothing about the task speaks against it and its next checkpoint has come; it covers all that have come and none that has not; otherwise a finished or withdrawn task, a missing answer and another goal have their effects and nothing else changes |
| `ReviewSchedule.AccuracySchedule.ClaimReview` | core/long_task_updates.py:1270-1309 | claimed for a minute if and only if the lifecycle is running and the pending review was not dispatched and no live process holds it |
| `ReviewSchedule.AccuracySchedule.MarkReviewDispatched` | core/long_task_updates.py:1311-1327 | marks if and only if the id is the pending one, and changes nothing else |
| `ReviewSchedule.AccuracySchedule.CompleteReview` | core/long_task_updates.py:1329-1349 | completes if and only if the id is the pending one; the schedule then waits for the checkpoint after those covered |
| `FinalReply.HandedOnlyPastTheBarrier` | core/long_task_updates.py:1870-1930 | in every interleaving a reply handed to the transport had no task required, or a confirmed task without workers or deferral at the decision that is terminal at the hand-over |
| `FinalReply.EveryHandOverIsDecided` | core/long_task_updates.py:1870-1930 | every reply handed over in any run has its own decision earlier in the run and no other decision between the two |
| `FinalReply.BarrierAtHandOver` | core/long_task_updates.py:1893-1915 | for every reply handed over in any run the whole barrier holds at the hand-over if and only if no task is required by then, or no worker journaled before its decision or since is left, no deferral is left standing, and a task that came up only since the decision is both confirmed and done |
| `FinalReply.HandedOnlyWhenFinished` | core/long_task_updates.py:2532-2599 | in any run the lifecycle takes its card for terminal if and only if a terminal action was observed, or a settlement in time found the card terminal or completed it or proved it done; every reply handed over under a required task follows such an event |
| `FinalReply.AQueuedReplyGoesOut` | core/long_task_updates.py:1820-1965 | in any reachable state with no reply pending and no flush under way a queued text goes out in one flush that the barrier lets through, cut to the length kept |
| `FinalReply.WorkerSlipsIn` | core/long_task_updates.py:1617-1666 | a run in which a worker journaled during settlement is pending when the reply is handed over |
| `FinalReply.DeferralSlipsIn` | core/long_task_updates.py:1893-1930 | a run in which the task is deferred during settlement and still is when the reply is handed over |
| `FinalReply.TaskSlipsIn` | core/long_task_updates.py:1893-1930 | a run in which no task was required at the decision and one is prepared before the reply is handed over |
| `FinalReply.EarlierWorkerStays` | core/long_task_updates.py:1616-1662 | a run in which a worker journaled for another task's card is still pending at the hand-over, after a decision that required no task, though a task was prepared, confirmed and done since |
| `FinalReply.RetriesReuseTheClientId` | core/long_task_updates.py:1820-1840 | while a reply is pending its text and client id never change, every hand-over uses them, and only the transport's answer ends it |
| `FinalReply.CrashKeepsTheReply` | core/long_task_updates.py:1870-1965 | a crash ends the flush and keeps the pending reply with its attempts and every field of the barrier, but for a deferral it may add where no reply is pending |
| `FinalReply.AttemptsAreBounded` | core/long_task_updates.py:1930-1956 | each failure records one attempt; the reply is dropped and the lifecycle closed exactly on success, a permanent failure or the twelfth attempt |
| `FinalReply.LongTaskLifecycle.QueueFinalReply` | core/long_task_updates.py:1820-1840 | the first reply is kept, cut to 262,144 characters, with no attempts and its client id; later ones change nothing and get that id back |
| `FinalReply.LongTaskLifecycle.DecideDelivery` | core/long_task_updates.py:1893-1908 | goes on if and only if no task is required, or it is confirmed with no worker and no deferral; a task is required if one is there, specified or was attempted; a held flush asks for settlement |
| `FinalReply.LongTaskLifecycle.LookAtTheCard` | core/long_task_updates.py:1910-1912 | whether the card has to be settled, read after the decision's lock was given back |
| `FinalReply.LongTaskLifecycle.SettleTask` | core/long_task_updates.py:2532-2599 | settled if and only if a confirmed task is looked at in time and its card is terminal, or open and completed or proved terminal after a failed completion; terminal then and only then, deferred exactly for a blocked card read in time |
| `FinalReply.LongTaskLifecycle.RecordStatus` | core/long_task_updates.py:1929-1965 | the reply is gone when it was sent, refused for good or tried for the twelfth time, and kept with one more attempt otherwise, with the result returned for it |
| `FinalReply.LongTaskLifecycle.FlushFinalReply` | core/long_task_updates.py:1870-1965 | an undisturbed flush is a run of the barrier's steps; it hands over the pending reply, once, if and only if there is a sender and no task is required or a confirmed one without worker or deferral is known done or settles, and leaves what the transport's answer asks for |
| `DiagnosticsModel.CrashReplayAgrees` | core/glass_diag_push.py:221-285 | replaying the log of any run, stopped anywhere, rebuilds the spans and events of memory in order |
| `DiagnosticsModel.AbandonedRunTotals` | core/glass_diag_push.py:317-340 | an abandoned run is recovered with memory's provider-call and round counts and exactly the non-negative usage of ended provider calls |
| `DiagnosticsModel.RecoveryMatchesMemory` | core/diagnostics.py:475-537 | for non-negative counts the recovered totals equal the live ones if and only if no open provider call carries usage |
| `DiagnosticsModel.ClosedRunTotals` | core/diagnostics.py:436-473 | once closed, recovery returns the live totals written at closing, whatever is logged later |
| `DiagnosticsEffects.NothingDisappears` | core/diagnostics.py:336-370 | after any run each span and event is in the trace or counted as dropped, and none is dropped before the trace holds 9,000 spans or 18,000 events |
| `DiagnosticsEffects.NewGoesUnderTheInnermost` | core/diagnostics.py:336-386 | after any run a new span or event goes under the span its context opened last among those it has not ended, named and dated as asked, and is logged |
| `DiagnosticsEffects.PathsNameTheAncestors` | core/diagnostics.py:359-386 | in any run a span's path is its name under its parent's path, and its parent is an earlier span |
| `DiagnosticsEffects.UsageAddsUp` | core/diagnostics.py:156-176 | a span's usage is the sum of everything recorded on it |
| `DiagnosticsEffects.OnlyTheFirstEndCounts` | core/diagnostics.py:229-256 | a span shows the clock of the call that ended it first, and a duration from its start that is never negative |
| `DiagnosticsEffects.EndingReports` | core/diagnostics.py:388-473 | ending reports failure, and a close reports what was open as incomplete; either is logged with all it shows |
| `DiagnosticsEffects.LiveTotalsCount` | core/diagnostics.py:475-500 | the totals count the spans named as provider calls and those whose name begins a round |
| `DiagnosticsEffects.LiveTotalsSpend` | core/diagnostics.py:475-500 | they add up the usage of the provider calls, and recovery that of the ended ones, negative counts dropped |
| `DiagnosticsTrace.OrderIsKnown` | core/glass_diag_push.py:236-262 | replay of any log lists exactly the spans it knows |
| `DiagnosticsTrace.LiveTrace.OpenSpan` | core/diagnostics.py:359-386 | up to 9,000 spans the span is kept behind the others, numbered, named and dated as asked, and logged; beyond, only the count of dropped spans grows |
| `DiagnosticsTrace.LiveTrace.EndSpan` | core/diagnostics.py:388-400 | failed if and only if the call or an earlier one failed it; the first end fixes its end and its duration; the finalized span is logged |
| `DiagnosticsTrace.LiveTrace.AddEvent` | core/diagnostics.py:336-356 | up to 18,000 events the event is kept behind the others and logged; beyond, only the count of dropped events grows |
| `DiagnosticsTrace.LiveTrace.SetTokens` | core/diagnostics.py:156-176 | each kind of tokens grows by what is recorded, and the span reports the sum |
| `DiagnosticsTrace.LiveTrace.BuildRollup` | core/diagnostics.py:475-500 | the loop counts the provider calls and the rounds and adds up the usage of the provider calls |
| `DiagnosticsTrace.LiveTrace.Close` | core/diagnostics.py:436-473 | closing ends every open span, then writes the totals, each write a step of the model |
| `DiagnosticsTrace.PartialRollup` | core/glass_diag_push.py:221-389 | the two loops compute the recovery of the replayed log |
| `DiagnosticsQueue.DeliveryIsBounded` | core/glass_diag_push.py:551-646 | across crashes a row goes out at most five times before it is acknowledged and once after; the sixth send happens if and only if the run holds a stored acknowledgement of the row after five sends, while a drain still had it ahead, and that drain goes on undisturbed to send it |
| `DiagnosticsQueue.SixthSend` | core/glass_diag_push.py:132-162 | a reachable run in which a drain that had picked the row sends it a sixth time after its acknowledgement |
| `DiagnosticsDrains.ManyDrainsAreBounded` | core/glass_diag_push.py:517-646 | however many drains run at once, a row goes out at most five times in all before it is stored and at most once more for each drain after |
| `DiagnosticsDrains.OnlyHoldersSendLate` | core/glass_diag_push.py:132-162 | from the moment a row is stored on, only the drains that had it ahead by then send it, each at most once |
| `DiagnosticsDrains.SeventhSend` | core/glass_diag_push.py:551-646 | a run of two drains in which a row is sent seven times |
| `DiagnosticsQueue.NoOversizedFrame` | core/glass_diag_push.py:601-622 | no frame over 120,000 bytes reaches the transport |
| `DiagnosticsQueue.EveryDrainCounts` | core/glass_diag_push.py:517-548 | draining a pending frameable row strictly lowers the backlog's remaining drains |
| `RollupEffects.DrainDoes` | core/glass_diag_push.py:593-644 | whatever own steps a drain takes to its end, exactly the picked rows that fit at an attempt of at most five are handed over, in order, and marked where asked; exactly the others with a frame are retired; exactly the framed ones are counted |
| `RollupEffects.PicksTheOldest` | core/glass_diag_push.py:577-585 | the picked rows are pending, no older pending row is left out for a newer one, and none is left out while there is room |
| `DiagnosticsQueue.ShrinkCutsOnlyWhatItMust` | core/glass_diag_push.py:481-514 | a frame that fits is untouched; otherwise lists go heaviest first and every shorter cut was still too big |
| `RollupQueueClass.ShrinkFrame` | core/glass_diag_push.py:481-514 | the cutting loop computes the trimmed frame |
| `RollupQueueClass.RollupQueue.Acknowledge` | core/glass_diag_push.py:132-162 | an id cut to 64 characters is stored, no longer rejected and its counter deleted, or only rejected; an empty one is refused with nothing written |
| `RollupQueueClass.RollupQueue.SelectPending` | core/glass_diag_push.py:577-585 | the oldest rows neither sent nor rejected, as many as the limit allows |
| `RollupQueueClass.RollupQueue.DrainRow` | core/glass_diag_push.py:593-644 | one row is counted, retired, trimmed, sent and marked as steps of the queue |
| `RollupQueueClass.RollupQueue.Drain` | core/glass_diag_push.py:551-646 | a drain is a run of the queue's own steps; without a raising send it picks the oldest pending rows and sends each whose trimmed frame fits and whose attempt is at most the fifth, retires the others it could frame, counts the framed ones, and returns how many went out |
| `OutboxModel.RemovesTheSelectedItem` | core/background.py:99-110 | removing the chosen item by value removes the chosen item |
| `OutboxModel.StartsUnlessAllBusy` | core/background.py:99-110 | some item can start if and only if not every queued lane is busy |
| `OutboxModel.LanesNeverOverlap` | core/background.py:52-79 | never two running calls of one lane, never more queued than the bound |
| `OutboxModel.LaneOrder` | core/background.py:52-131 | the uncoalesced calls of a lane start once each in the order accepted; the rest is still queued in that order |
| `OutboxModel.LatestIsNeverLost` | core/background.py:62-78 | the newest accepted coalesced call of a lane is its only queued one, or was the last of its lane to start |
| `OutboxModel.NeverStuck` | core/background.py:112-131 | with nothing running a queued call can start |
| `OutboxModel.EverythingCanRun` | core/background.py:52-131 | from any reachable outbox the workers can run it empty, and then every uncoalesced call ever accepted has started, in its lane's order |
| `OutboxModel.SubmitMeans` | core/background.py:52-79 | in an open outbox a newer coalesced call takes the place of its lane's queued one and any other call is accepted if and only if there is room; a refused call changes nothing |
| `OutboxModel.TakingTakes` | core/background.py:99-110 | taking removes exactly the first item of a free lane and makes its lane busy |
| `BestEffortOutboxClass.BestEffortOutbox.Submit` | core/background.py:52-79 | a newer coalesced call replaces its lane's queued one through the alias; any other call is accepted if and only if the outbox is open and has room, at the end of the queue |
| `BestEffortOutboxClass.BestEffortOutbox.FindRunnable` | core/background.py:99-102 | the scan finds the first item whose lane is free |
| `BestEffortOutboxClass.BestEffortOutbox.NextItem` | core/background.py:99-110 | exactly the first item of a free lane leaves the queue, with its alias, and its lane becomes busy; none if every queued lane is busy |
| `BestEffortOutboxClass.BestEffortOutbox.Finish` | core/background.py:126-131 | the lane is free again |
| `KeyRotation.StepKeepsInv` | update.py:504-589 | every file write, probe, server action and crash keeps the rotation invariant |
| `KeyRotation.RotationNeverLosesTheKey` | update.py:504-589 | across crashes the accepted key is the configured or the staged one, and recovery gives up only after a probe was answered with a success status other than 200 |
| `KeyRotation.DoneMeansBothSides` | update.py:322-352 | a reported rotation leaves the server on the new key, which is the configured one, with nothing staged; and every other file copy gone unless a probe was answered with a success status other than 200 |
| `KeyRotation.RotationGoesThrough` | update.py:550-589 | from any settled start a rotation whose request is accepted and whose probes are answered ends reported done, with the replacement configured, accepted and nothing staged |
| `KeyRotation.RefusedRotationKeepsTheKey` | update.py:550-589 | a rotation the server refuses ends with the old key configured and accepted and nothing staged |
| `KeyRotation.StagedKeyIsTakenOver` | update.py:504-535 | after a crash recovery takes over the staged key the server has accepted |
| `KeyRotation.ACrashIsRecoveredFrom` | update.py:504-548 | wherever a rotation is cut off, by a crash at any step of any run under the stated timing assumption, a clearly answered recovery ends on the key the server accepts, configured, with nothing staged |
| `KeyRotation.DecisionReports` | update.py:550-589 | how each outcome of the probes is reported |
| `KeyRotation.OddAnswerLeavesACopy` | update.py:516-522 | a run in which such an answer, after a crash between two writes, leaves an old file copy behind a reported rotation |
| `KeyRotation.OddAnswerGivesUp` | update.py:524-535 | a run in which such an answer about the accepted staged key makes recovery give up |
| `KeyRotation.LateRequestLosesTheKey` | update.py:550-589 | a run in which a request acted on after the probes leaves neither key valid |
| `KeyRotation.CredentialFiles.PersistAuthKey` | update.py:322-340 | the canonical file holds the key, every other file copy is gone, the journal entry stays |
| `KeyRotation.CredentialFiles.RecoverPendingAuthKey` | update.py:504-535 | with clear answers recovery returns the accepted key if and only if it is configured or staged, and leaves it configured with nothing staged; it gives up on such a key only after an odd answer |
| `GlobProof.ExpandMeaning` | core/data_policy.py:265-322 | on any tree the expansion yields exactly the existing paths the declarative matcher accepts, and raises if and only if the pattern makes it inspect an unsafe entry |
| `GlobProof.TreeMeaning` | core/data_policy.py:253-262 | the tree walk yields exactly the paths below without temporaries, and raises if and only if one of them is unsafe |
| `GlobProof.PlainPattern` | core/data_policy.py:265-322 | without `**` a pattern matches the paths of its length whose names its segments select, spelled out or by wildcard and no temporary, and looks at those and the way there |
| `GlobProof.AnyDirectories` | core/data_policy.py:265-300 | `**` stands for any number of directories, none of them a temporary |
| `GlobProof.AnyDirectoriesInspect` | core/data_policy.py:265-300 | on the way it looks at every entry below through no temporary, and at what the rest of the pattern looks at from there |
| `GlobProof.TrailingStars` | core/data_policy.py:278-283 | a trailing `**` matches whatever is below through no temporary |
| `GlobProof.EntryKinds` | core/data_policy.py:209-240 | files and directories may be listed; a link or special file other than the runtime socket makes the expansion refuse |
| `PathOrder.JoinedInjective` | core/data_policy.py:336-350 | different relative paths have different names, so keying by name loses nothing |
| `PathOrder.IncreasingUnique` | core/data_policy.py:350 | an increasing list is determined by its contents |
| `PathOrder.Sorted` | core/data_policy.py:350 | the keys in increasing order, each once |
| `DataPolicy.ExpandPattern` | core/data_policy.py:325-350 | the accepted paths each once in name order, none forbidden, or a refusal exactly for an unsafe or forbidden one |
| `DataPolicy.ExpandPatternFiles` | core/data_policy.py:353-369 | exactly the files at or below a match, each once in name order, none forbidden, or a refusal exactly for an unsafe or forbidden one |
| `DataPolicy.WalkMeaning` | core/data_policy.py:353-369 | walking a matched entry yields the files below it in the whole tree |
| `PolicyResolution.LoadDataPolicy` | core/data_policy.py:486-520 | classes hold built-in and local patterns, legacy patterns are kept unless a class has them, and unknown local classes are refused |
| `PolicyResolution.SnapshotPatterns` | core/data_policy.py:439-448 | exactly the declared pattern and class pairs |
| `PolicyResolution.Resolve` | core/data_policy.py:450-467 | every protected file once in name order with exactly the classes whose patterns protect it, or a refusal exactly when some pattern is refused |
| `PolicyResolution.DeclaredStays` | core/data_policy.py:486-520 | growing the sources keeps every pattern declared, under its class unless a legacy entry moves to one |
| `PolicyResolution.AddingNeverRemoves` | core/data_policy.py:450-520 | adding local or legacy patterns never removes a file from the resolved set |
| `PolicyResolution.AddingNeverHidesARefusal` | core/data_policy.py:450-520 | adding patterns never turns a refusal into a success |
| `PolicyResolution.ResolvedFromSources` | core/data_policy.py:450-467 | a file is resolved if and only if some source protects it |
| `PolicyResolution.ResolveSources` | core/data_policy.py:439-520 | loading, listing and resolving in sequence returns the protected files of the sources, or a refusal exactly for an unknown local class or a refused declared pattern |
| `PolicyResolution.AddingAndResolving` | core/data_policy.py:439-520 | run on the sources before and after growing them: when both succeed no file is gone, and a refusal caused by a pattern stays a refusal |

## Left out

- Files, locks, fsync, SQLite and JSON encoding: each transaction or committed statement is one atomic step.
- Notices, participants, public events and status of the coordinator: they carry no ownership.
- Process ids, activity names and wall-clock stamps of leases, except where a decision reads them.
- Malformed stored documents: `_normalize`, `_number` and similar coercions are taken as already applied.
- Hand-offs that are not work calls, and call bookkeeping (`core/messages.py:169-232`): foreign calls.
- ManagerHandoffTheorem.ExactlyOnceHandoff: at-most-once is stated while the calls made spare the two receipts of that hand-off (`IdentityFrames.YoungIsKept` says when); once they are evicted the code itself can accept the identity again.
- InboxHandoff.ExactlyOnceInbox: at-most-once is stated while the calls made spare the receipt of that event, and for one append-only file; rotation, inode replacement and the content anchor (`core/interface.py:2104-2144`) are not modelled.
- Event interpretation (`core/interface.py:1891-2035`): an event is either handed over with a fixed text or skipped.
- Non-durable event consumption (`core/interface.py:2757-2760`): only the durable mode transfers ownership.
- DispatcherRuns.DispatcherConservation: counts a leaked admission as its own place, because the code loses it; the exact condition is `DispatcherRuns.SlotsLeakExactlyWhenCallsRaise`.
- DispatcherStarts.NeverStartedExactlyWhenSubmitRaised: a `thread.start()` that itself raises is not modelled, and threads of one call may start in any order.
- Thread wake-ups, fairness and waiting for idleness: safety, conservation and measures only.
- RootQueueFence.OnlyTheOldestCrosses: that a caller presents the root whose text it runs is the caller's duty (`main.py:1797-1804`), not checked by the fence.
- Long-task lifecycle creation, leases, heartbeats, timers, worker intents and worker facts: only the fields the reply barrier reads are kept, and other threads may change them at any step.
- FinalReply.AttemptsAreBounded: bounds recorded attempts; a crash between a send and its record repeats the send with the same client id.
- DiagnosticsModel.CrashReplayAgrees: token metadata is written only while a span is open, which is how the runtime uses it; other metadata, cost, bottlenecks and redaction are not modelled.
- DiagnosticsQueue.DeliveryIsBounded: the exact condition is for one drain at a time, which the sidecar's drain lock (`glass_agent.py:1786-1795`) provides within a connection; for several at once `DiagnosticsDrains.ManyDrainsAreBounded` gives the bound.
- Frame sizes are sums of part sizes; serialization itself is not modelled.
- KeyRotation.RotationNeverLosesTheKey: a request takes effect before the next answered probe or never; origins, redirects before staging and identity checks only appear as unclear answers.
- Pattern validation (`core/data_policy.py:159-186`), reading the policy files and platform case rules: patterns arrive as their canonical parts.
- The built-in ownership classes (`core/data_policy.py:61-134`) are a parameter; only their distinct names matter.
- Outbox flush and shutdown waiting, and the calls themselves: a call is an opaque value compared for equality.
- Provider subprocesses, transports, browsers, terminals, prompts, retention and version parsing: plumbing with no shared ownership.

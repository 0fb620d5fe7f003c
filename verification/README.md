# Verification of the monitoring core

A Dafny model of the parts of the tariff monitor where correctness depends on more than
one function: the run queue and its leases, publication of an offering's documents with
the review supersession that goes with it, the chat's rewind log, and four small
algorithms they lean on. `dafny verify dfyconfig.toml` checks everything.

## How it is organised

| files | what they model |
|---|---|
| `Schema`, `Tables`, `Names`, `Wrappers` | the tables, as maps from ids to rows, the `Database` object the repositories update, the bulk update, and what stripping a name means |
| `RunQueue`, `OwnerPattern` | `PostgresRunRepository`, each method proved against a function from tables to tables; the LIKE pattern and the owner names |
| `SubmitProtocol`, `AdvisoryLocks` | submission as interleaved steps under its locks; exclusion and deadlock freedom of all advisory locks |
| `KnowledgePublication`, `ReviewSupersession`, `Publication` | document versions, activation, discards, supersession, publish, and the review repository's approve, reject, create and withdraw |
| `History` | any sequence of those transactions, and how one may change a row |
| `RunHistory`, `Fencing`, `Lease` | what holds of runs over whole histories and timed traces |
| `IndexInvariants`, `IndexHistory`, `DocumentHistory`, `SnapshotSets` | what holds of documents, the active index and the published sets over whole histories |
| `ReviewDecisions`, `ExecutionHistory` | when a decision takes effect and that it is final; what an execution's status says of its snapshot |
| `ReviewHistory`, `StrandedSnapshots`, `ReviewExamples` | what holds of reviews over whole histories and of the snapshots waiting for them, and two histories in which a promise fails |
| `Conversation`, `OpenCalls` | `live_events` and the two readings built on it |
| `ReviewMemory`, `MoneyText`, `EffectivePeriods` | the two decision memories, the thousands-separator pass, the dating rule |

A method of a class makes the same updates in the same order as the source and is proved
against a specification function (`SubmitDb`, `PublishDb`, ...); the theorems are about
those functions, over every history. Contracts and lemmas also say in the tables' own
columns what each transaction does. A transaction is one atomic step except in
`SubmitProtocol` and `AdvisoryLocks`, where the locks are the subject.

## Premises

- Where a theorem needs transactions to commit in the order of their times it says `Clocked`.
  `now()` is the time a transaction began, so this does not follow from one clock; lifecycle
  validity and the decision memories also have exact conditions without it
  (`RowsValidIff`, `MemoriesAgreeIff`).
- Hashes and ids are injective, and two lock names never hash alike. A document version
  is therefore identified by what the source hashes, its chunks included.
- A publication's documents carry the bank of its snapshot (`SameBank`, `OwnDocuments`).
  The source checks run, product and offering and leaves the bank to its defaults.
- A review is raised on a snapshot that is not accepted yet.
- A review names its snapshot's own execution (`AllRaiseOwn`), as the pipeline builds it;
  `create` does not check, and `ApprovalSucceedsIff` says what hangs on it.
- Owners never finish a run with `run.abandoned` or `run.interrupted` (`OwnCodes`).

## What the code does that its texts do not say

- `process_owner` promises names that are never a prefix of one another. That holds on
  colon-free host names. A process can check its own: some owner name is a proper prefix of
  its name iff its host and process id, joined by a colon, hold a colon, digits, a colon and
  eight hexadecimal digits (`SomeOwnerIsPrefixIff`); `ColonHostClash` is such a pair.
- An idempotency key counts from the submission that creates a run. One answered with an
  active run records nothing, and its key can create a run later (`KeyIsRecordedIff`).
- Closing a run fences the executions that exist. `create_offering_execution` does not
  look at the run, so an execution created after the closing can publish:
  `OpenMeansCreatedLater`, `CreateReopensIff`, `LateExecutionPublishes`.
- `claim` stores the stripped owner and `heartbeat` compares the owner as given; a claimer
  whose name has surrounding blanks is told it lost the run (`ClaimerSeesItself`).
- A claim that began before a submission can find its row once that submission commits. The
  run then starts before it was queued, which the run's own lifecycle rules refuse
  (`BackwardClockBreaksIt`); `StepIsValidIff` and `RowsValidIff` say exactly when rows stay valid.
- A run that a stale cancel closes reports RELEASED to its owner, not LOST
  (`HeartbeatReportsFate`).
- An accepted publication without documents keeps the previous index while
  `get_latest_accepted` moves on, and so does one accepted out of order; `AcceptedAgreesIff`
  says exactly when the two still agree.
- Supersession runs after every publication, candidate and rejected ones included, and
  always records `newer_accepted_snapshot` as its reason. Of a superseded review that is true
  iff the published snapshot is accepted or a newer one was accepted already
  (`SupersessionMatchesGuard`); `CandidateReasonIsFalse` is a history, from the empty
  database, after which it is false.
  A review that stays pending may still be one the approval guard refuses, on account of a
  snapshot accepted before the review was raised; in timely histories there is none
  (`PendingOnOneSnapshot`).
- `close_unreviewable_snapshots` promises that no candidate waits with no pending review left
  to resolve it. Every dismissal keeps that, an approval does not look: when a sibling
  review ended otherwise and no other one is pending, the approved snapshot is left
  `review_required` with nobody to review it, and no later review can get it accepted
  (`ApprovalStrandsIff`, `NeverStrandedIff`, `StrandedIsForGood`); `ApprovalStrands` is such
  a history.
- An approval keeps the index on the latest accepted snapshot unless it activates a snapshot
  that does not come last (`ApproveAgreesIff`).
- The two decision memories differ when another decision on the field is at least as new as
  the one being remembered, by a tie or by a transaction that began later and committed first
  (`RememberAgreesIff`, `MemoriesAgreeIff`, `TieDisagrees`).
- A forward reading that truncates at each rewind marker is not the same as `live_events`
  (`ForwardAgrees`, `ForwardDiffers`).

## Model

| member | source | states |
|---|---|---|
| `SubmitProtocol.AlwaysSafe` | app/repositories/monitoring.py:238-309 | in every interleaving of submissions, rolled back ones included, with each other and with every other transaction, at most one queued or running run covers any offering (a family-wide run covers them all), and no two runs share an idempotency key |
| `SubmitProtocol.RecordedKeyReturnsSameRun` | app/repositories/monitoring.py:238-247 | once a submission of a key has created a run, every submission of that key that finishes afterwards returns that same run and creates nothing, for ever |
| `SubmitProtocol.CreatedRunCarriesCommand` | app/repositories/monitoring.py:264-309 | in every interleaving the run a submission created stands with that submission's product, offering and key |
| `SubmitProtocol.KeyIsRecordedIff` | app/repositories/monitoring.py:238-262 | after a submission its key is recorded iff it was before or no active run competed |
| `SubmitProtocol.AloneIsAtomic` | app/repositories/monitoring.py:238-309 | with its locks free, an uninterrupted submission has the effect and the answer of the atomic one: recorded run, else first active run, else the new one |
| `SubmitProtocol.CommitSafe` | app/repositories/monitoring.py:249-309 | what a submission saw under its two locks still stands when it commits, whatever committed in between |
| `SubmitProtocol.EndedHoldsNothing` | app/repositories/monitoring.py:238-309 | in every interleaving a submission that returned or rolled back holds no lock |
| `AdvisoryLocks.NoWaitCycle` | app/repositories/monitoring.py:1394-1431 | with documents of the publication's own scope, no chain of lock waits among submissions, publications, review creations and decisions ever closes, and none is longer than two waits, although version locks are taken unsorted |
| `AdvisoryLocks.OneAtATime` | app/repositories/knowledge_publication.py:286-299 | of two submissions of one family or key, or two publications or decisions of one offering, never both have all their locks |
| `AdvisoryLocks.EveryoneCanCommit` | app/repositories/knowledge_publication.py:286-299 | from every reachable state all transactions can take their remaining locks and commit, none rolled back |
| `AdvisoryLocks.VersionLockIsFree` | app/repositories/knowledge_publication.py:53-56 | only the holder of an offering's lock contends for that offering's version locks, so nobody ever waits for one |
| `AdvisoryLocks.WaitingRises` | app/repositories/reviews.py:95-108 | whoever waits, waits for a transaction strictly further along: outermost lock, inner lock, not waiting |
| `AdvisoryLocks.ForeignDocumentsDeadlock` | app/domain/monitoring.py:380-386 | without the shared bank, two publications of different offerings that store the same two versions in opposite order can wait for each other |
| `RunQueue.RunRepository.Submit` | app/repositories/monitoring.py:226-309 | blank or over-long keys are refused; otherwise exactly one of the recorded run, the first overlapping active run, or a new queued run is returned, with the reason; a run is created iff no run has the key and no queued or running one competes, and it carries the command |
| `RunQueue.RunRepository.ClaimNext` | app/repositories/monitoring.py:352-392 | claims the unlocked queued run of the smallest (queued_at, id) and nothing else, or reports that there is none |
| `RunQueue.RunRepository.Claim` | app/repositories/monitoring.py:394-429 | succeeds exactly when the run is queued, and then stores the stripped owner |
| `RunQueue.RunRepository.FailInterrupted` | app/repositories/monitoring.py:431-517 | closes the unlocked running runs matching the owner pattern (and claimed before the bound), with their open executions, and returns their number |
| `RunQueue.RunRepository.RecoverAbandoned` | app/repositories/monitoring.py:519-586 | closes exactly the unlocked running runs whose lease is older than the cutoff, with their open executions, and returns their number |
| `RunQueue.RunRepository.Heartbeat` | app/repositories/monitoring.py:588-629 | renews only the caller's own running run, and answers held, cancel requested, lost, released or not found |
| `RunQueue.RunRepository.CancelRun` | app/repositories/monitoring.py:631-745 | closes a queued, own or stale run with its open executions; leaves a live one a request, keeping the first request's time; touches no inactive run |
| `RunQueue.RunRepository.Finish` | app/repositories/monitoring.py:747-798 | only a running run ends, with a terminal status and the caller's code; otherwise nothing changes and the error says why |
| `RunQueue.RunRepository.PauseForReview` | app/repositories/monitoring.py:800-826 | only a running run pauses, and it gives up its claim |
| `RunQueue.RunRepository.FinishAfterReview` | app/repositories/monitoring.py:828-860 | only a run waiting for review ends this way |
| `RunQueue.RunRepository.CreateOfferingExecution` | app/repositories/monitoring.py:896-937 | one execution for a run and offering: the existing one, else a new pending one |
| `RunQueue.RunRepository.StartOfferingExecution` | app/repositories/monitoring.py:939-965 | starts only an open execution and keeps its first start time |
| `RunQueue.RunRepository.FailOfferingExecution` | app/repositories/monitoring.py:1010-1083 | fails only an open execution |
| `RunHistory.EveryRowIsValid` | app/domain/monitoring.py:227-243 | when transactions commit in the order of their times, every row any history reaches satisfies the lifecycle rules, a run cancelled before it started included |
| `RunHistory.ClaimIsValidIff` | app/repositories/monitoring.py:403-422 | whatever the times of a history were, claiming a queued run leaves a valid row iff the claim does not precede the queueing |
| `RunHistory.StepIsValidIff` | app/domain/monitoring.py:227-243 | whatever the times were, any transaction keeps any valid row valid iff a start it sets does not precede the queueing and an end it sets does not precede the start |
| `RunHistory.RowsValidIff` | app/domain/monitoring.py:227-243 | over a whole history with any times, every row is valid all along iff every transaction stamps in order in that sense |
| `RunHistory.BackwardClockBreaksIt` | app/repositories/monitoring.py:366-380 | a submission and a claim that began before it, after which the row is invalid |
| `RunHistory.RunMovesForward` | app/domain/monitoring.py:33-47 | over any history a run only moves forward, keeps its scope and key, and its row never changes again once terminal |
| `RunHistory.StartedOnce` | app/repositories/monitoring.py:403-422 | a run leaves the queue for execution at most once in its life |
| `RunHistory.EveryStatusIsReached` | app/domain/monitoring.py:33-47 | no status of a run is out of these histories' reach |
| `RunHistory.HeartbeatReportsFate` | app/repositories/monitoring.py:588-629 | from a claim on, in any history with or without a clock, the claimer's heartbeat is HELD or CANCEL_REQUESTED iff the run still executes, LOST iff it was recovered or interrupted, RELEASED iff it ended, paused or was cancelled |
| `RunHistory.HeartbeatIsSettled` | app/repositories/monitoring.py:606-629 | from a claim on, over any two histories one extending the other: a heartbeat that reported CANCEL_REQUESTED never reports HELD again, and LOST and RELEASED stay |
| `RunHistory.ClaimerSeesItself` | app/repositories/monitoring.py:622-628 | from the claim on, while the run still executes, its claimer is told that it runs under another owner iff the name it uses is not already stripped |
| `Fencing.ClosingFailsExecutions` | app/repositories/monitoring.py:474-490 | recovery, interruption and an immediate cancel fail every open execution of the run they close |
| `Fencing.StaleOwnerIsFenced` | app/repositories/monitoring.py:1400-1424 | after that, in every continuation, no execution that existed can start, fail or publish: a stale owner's publish changes no table |
| `Fencing.OpenMeansCreatedLater` | app/repositories/monitoring.py:905-937 | an open execution of a closed run was created after the closing |
| `Fencing.CreateReopensIff` | app/repositories/monitoring.py:924-926 | creating an execution opens a closed run's work again exactly when the run has none for that offering |
| `Fencing.LateExecutionPublishes` | app/repositories/monitoring.py:1421-1424 | such a late execution publishes although its run is failed |
| `Fencing.InterruptClosesExactly` | app/repositories/monitoring.py:443-471 | with no time bound and no locked row, exactly the running runs whose owner begins with the prefix are closed, and every other row is unchanged |
| `Fencing.OneProcessClosed` | app/cli.py:567-574 | given a whole owner name, the runs of that process are closed and those of no other process on a colon-free host |
| `OwnerPattern.PatternIsPrefix` | app/repositories/monitoring.py:448-449 | the three replacements and the final % match a text iff it begins with the prefix, for all strings |
| `OwnerPattern.PassesEscape` | app/repositories/monitoring.py:448 | the three sequential replacements equal escaping each special character once |
| `OwnerPattern.EscapedMatches` | app/repositories/monitoring.py:463 | under LIKE with the backslash escape, an escaped prefix and % matches exactly its extensions |
| `OwnerPattern.SomeOwnerIsPrefixIff` | app/cli.py:990-994 | some owner name is a proper prefix of a process's own iff its host and process id hold another process id and token, a condition on its own name alone |
| `OwnerPattern.OwnersPrefixFree` | app/cli.py:990-994 | with a colon-free host no owner name is a proper prefix of another |
| `OwnerPattern.ColonHostClash` | app/cli.py:990-994 | two owner names that are, with a colon in a host name |
| `Lease.ClaimedOwnerIsSafe` | app/config/models.py:431-435 | with a lease of at least four heartbeats, an owner that claims a queued run after any history and never misses more than three beats in a row is never closed by recovery or by another process's stale cancel, whose cutoffs were read when or before their transactions began, over timed traces of any length |
| `Lease.ClaimStartsLease` | app/repositories/monitoring.py:403-422 | a claim starts a fresh lease although it leaves heartbeat_at alone, because no queued run of any history has a heartbeat |
| `Lease.ShortLeaseIsUnsafe` | app/worker.py:121-125 | the bound is exact: under any shorter lease a punctual owner is closed after its third miss |
| `KnowledgePublication.StoreDocumentVersion` | app/repositories/knowledge_publication.py:38-141 | stores a new version inactive with all its chunks; on a known one refreshes bookkeeping only |
| `KnowledgePublication.LinkSnapshotDocuments` | app/repositories/knowledge_publication.py:144-158 | adds exactly the snapshot's links to the versions given |
| `KnowledgePublication.ActivateSnapshotSet` | app/repositories/knowledge_publication.py:182-247 | the four updates in their order, and the numbers of retired and activated documents |
| `KnowledgePublication.ActivatedRow` | app/repositories/knowledge_publication.py:191-246 | row by row: a linked version becomes active, an active unlinked one of the offering retired at that time, every other row stays |
| `KnowledgePublication.ActivatedChunk` | app/repositories/knowledge_publication.py:191-246 | and a chunk follows its version |
| `KnowledgePublication.DiscardSnapshotDocuments` | app/repositories/knowledge_publication.py:250-279 | drops the snapshot's links and the versions it alone names that were never active, and returns their number |
| `KnowledgePublication.DiscardOrderIrrelevant` | app/repositories/knowledge_publication.py:250-279 | discarding a collection gives the same tables in every order and with repetitions |
| `KnowledgePublication.DiscardEachIsDiscardAll` | app/repositories/review_supersession.py:89-90 | and equals discarding the collection at once |
| `IndexInvariants.DiscardEachDeletes` | app/repositories/knowledge_publication.py:266-274 | it deletes a version iff it was never active, the collection names it and no surviving snapshot does; every other version keeps its row and chunks |
| `IndexInvariants.StoreKeeps` | app/repositories/knowledge_publication.py:74-132 | storing a version, new or known, keeps the three document invariants, activates nothing and leaves a known version's chunks alone |
| `IndexInvariants.ActivateMakesTheIndex` | app/repositories/knowledge_publication.py:161-247 | after activation an offering's active documents are exactly the snapshot's linked ones and other offerings are untouched |
| `IndexInvariants.ActivateKeeps` | app/repositories/knowledge_publication.py:191-246 | activation keeps chunks active iff their document is, flags equal to states, and 'pending_review' on documents it does not activate |
| `ReviewSupersession.CloseUnreviewableSnapshots` | app/repositories/review_supersession.py:95-140 | each listed snapshot still review_required without a pending review is rejected and its waiting execution failed, and nothing else changes |
| `ReviewSupersession.ClosedSnapshot` | app/repositories/review_supersession.py:107-140 | snapshot by snapshot, with the row of its execution |
| `ReviewSupersession.CloseOneMore` | app/repositories/review_supersession.py:107-140 | closing snapshots one after another is closing the collection |
| `ReviewSupersession.SupersedeReviewsOlderThan` | app/repositories/review_supersession.py:21-92 | supersedes exactly the pending reviews of strictly older snapshots of the offering, discards their documents, closes those snapshots and returns the reviews |
| `Publication.OfferingPublicationRepository.Publish` | app/repositories/monitoring.py:1388-1449 | publishes iff the execution exists, matches the scope and is open, the snapshot fits and an accepted one can be projected; otherwise the error says which, and every table is as it was |
| `Publication.PublishableIff` | app/repositories/monitoring.py:1400-1424 | the publication's guards in the tables' columns |
| `ExecutionHistory.PublishedExecution` | app/repositories/monitoring.py:1768-1773 | afterwards the execution has succeeded, waits for review or has failed as the snapshot is accepted, candidate or review_required, or rejected |
| `ExecutionHistory.PublishedSnapshot` | app/repositories/monitoring.py:1426-1437 | the snapshot is stored as given and links exactly its documents, whatever was superseded with it |
| `ExecutionHistory.ExecutionTellsSnapshot` | app/repositories/reviews.py:590-601 | in every history an accepted snapshot's execution has succeeded, one under review waits, a rejected one's has failed, and no two snapshots share one |
| `ExecutionHistory.ApprovalSucceedsIff` | app/repositories/reviews.py:590-601 | an activating approval leaves its snapshot's execution succeeded iff the review names that execution |
| `Publication.ReviewRepository.ApproveWithSnapshot` | app/repositories/reviews.py:301-423 | checks decision, reviewer, repetition, status, scope, canonical form and guard in the source's order and answers accordingly; stores the decision and canonical form, and activates a ready snapshot with its last approval; a projection that fails rolls everything back, and a refusal of any kind leaves every table as it was |
| `Publication.ReviewRepository.Reject` | app/repositories/reviews.py:450-520 | a pending review is rejected, its snapshot's documents discarded, snapshot and execution closed; rejecting again returns the stored review |
| `Publication.ReviewRepository.Create` | app/repositories/reviews.py:80-227 | only pending reviews are created; a known one is returned; a new one supersedes the pending reviews of its issue, discards their documents and closes their other snapshots, or is rolled back when its snapshot or execution is missing |
| `Publication.ReviewRepository.Withdraw` | app/repositories/reviews.py:522-557 | one pending review ends superseded or failed, its snapshot's documents are discarded, and the snapshot is closed when no pending review is left; ending it the same way again returns it |
| `ReviewDecisions.ApprovalAcceptsIff` | app/repositories/reviews.py:320-422 | an approval makes a snapshot accepted iff it is about that unchanged review_required snapshot, is ready and projectable, all its other reviews are approved, and no accepted snapshot of the offering is newer by (created_at, queued_at) |
| `ReviewDecisions.ApprovalStores` | app/repositories/reviews.py:343-369 | an approval of a pending review stores exactly its decision, or is refused and changes nothing; one that a newer accepted snapshot made stale is refused |
| `ReviewDecisions.ApprovalSupersedes` | app/repositories/reviews.py:586-589 | an approval that accepts its snapshot supersedes exactly the other pending reviews whose snapshot it is newer than |
| `ReviewDecisions.RefusedApprovals` | app/repositories/reviews.py:320-347 | which refusal an approval gets, for each state of the review and its snapshot |
| `ReviewDecisions.RejectionStores` | app/repositories/reviews.py:450-520 | a rejection stores reject_all, rejects the snapshot under review, fails its waiting execution and drops its links |
| `ReviewDecisions.WithdrawalStores` | app/repositories/reviews.py:522-557 | a withdrawal ends that one review as asked and drops its snapshot's links |
| `ReviewDecisions.RaiseReplaces` | app/repositories/reviews.py:116-142 | a new review supersedes exactly the pending ones of its issue that are on another snapshot or have its reason |
| `ReviewDecisions.EndedReviewIsFinal` | app/repositories/reviews.py:320-326 | over any history a review that is no longer pending never changes in any column |
| `ReviewDecisions.RepeatedApproval` | app/repositories/reviews.py:322-326 | at any later time the same decision is answered with the stored review and another one refused, and neither changes a table |
| `ReviewDecisions.RepeatedRejection` | app/repositories/reviews.py:465-468 | the same of a rejection, after which every approval is refused |
| `IndexHistory.SnapshotRepository.GetLatestAccepted` | app/repositories/monitoring.py:1167-1213 | returns the offering's accepted snapshot of the greatest (accepted_at, queued_at, id), among all or among those created before a given run was queued, or none iff there is none |
| `IndexHistory.UnfilteredIsLatest` | app/repositories/monitoring.py:1195-1207 | without that filter it is the latest accepted snapshot the index theorems speak of |
| `IndexHistory.IndexIsLatestAccepted` | app/repositories/monitoring.py:1426-1449 | over every history of publications, approvals, rejections, reviews and queue steps whose accepted snapshots arrive in increasing order and carry documents, each offering's active documents are exactly the linked set of the snapshot get_latest_accepted returns |
| `IndexHistory.ActiveIffLastAcceptedLinks` | app/repositories/monitoring.py:1426-1449 | in columns: when each snapshot of an offering is accepted at a later time than those before it and publishes documents, a document is active iff the snapshot last accepted links it |
| `SnapshotSets.AcceptedKeepsItsSet` | app/repositories/knowledge_publication.py:250-279 | in every history an accepted snapshot links exactly the versions it was published with, whatever was discarded since |
| `SnapshotSets.IndexIsLatestPublished` | app/repositories/monitoring.py:1426-1449 | so in those histories a document is active iff the latest accepted snapshot of an offering was published with it |
| `IndexHistory.AcceptedAgreesIff` | app/repositories/monitoring.py:1438-1443 | exactly when one more accepted publication keeps them equal, empty and out-of-order ones included |
| `IndexHistory.ApproveAgreesIff` | app/repositories/reviews.py:409-422 | exactly when an approval does: it activates nothing, or its snapshot comes after every accepted one, or links the very documents that are active |
| `IndexHistory.InvariantsAlways` | app/repositories/knowledge_publication.py:38-279 | in every history links join one offering, a chunk is active iff its document is, active iff its state is 'active', and each snapshot belongs to one closed execution |
| `IndexHistory.UnacceptedLeavesView` | app/repositories/monitoring.py:1438-1449 | a publication that is not accepted moves neither the index nor the latest accepted snapshot |
| `IndexHistory.DismissKeeps` | app/repositories/review_supersession.py:89-91 | closing any set of pending reviews with discards keeps all invariants and the index |
| `DocumentHistory.PendingIffNeverActive` | app/repositories/knowledge_publication.py:208-222 | in every history a stored version is 'pending_review' iff it was never active, and a version that was ever active is never deleted |
| `ReviewHistory.SupersedesStrictlyOlder` | app/repositories/review_supersession.py:31-63 | after any publication a pending review is superseded iff its snapshot is strictly older; its review_required snapshot then ends rejected and its waiting execution failed |
| `ReviewHistory.SupersededIff` | app/repositories/review_supersession.py:31-63 | in columns: iff its snapshot is of the offering and was created earlier, or at once by a run queued earlier |
| `ReviewHistory.GuardAfterPublishing` | app/repositories/review_supersession.py:143-170 | after any publication, accepted or not, the approval guard refuses a snapshot iff it is strictly older than an accepted published one or was refused already |
| `ReviewHistory.SupersessionMatchesGuard` | app/repositories/review_supersession.py:76-88 | the recorded reason, a newer accepted snapshot, is true of a superseded review iff the published snapshot is accepted or a newer one was accepted already; a review that stays pending is refused by the guard iff it was before |
| `ReviewExamples.CandidateReasonIsFalse` | app/repositories/review_supersession.py:80-86 | a sound history from the empty database in which the recorded reason is false: a second run's newer candidate supersedes the first one's review and no accepted snapshot exists |
| `StrandedSnapshots.ApprovalStrandsIff` | app/repositories/reviews.py:409-422 | an approval leaves its snapshot waiting with nobody to review it iff a sibling review ended otherwise than approved and no other one is pending |
| `StrandedSnapshots.NeverStrandedIff` | app/repositories/review_supersession.py:95-105 | a history never leaves a snapshot so iff it holds no such approval: publications, dismissals, withdrawals, raises and rejections never do |
| `StrandedSnapshots.StrandedIsForGood` | app/repositories/reviews.py:409-422 | a snapshot left so is never accepted in any continuation, whatever is raised and approved |
| `ReviewExamples.ApprovalStrands` | app/repositories/reviews.py:399-422 | a sound history from the empty database that leaves one so: two reviews of a candidate, one withdrawn, the other approved |
| `ReviewHistory.PendingOnOneSnapshot` | app/repositories/monitoring.py:1445-1449 | with publications in increasing order and reviews raised on the newest snapshot, an offering's pending reviews always sit on a single snapshot, and the approval guard refuses none of them |
| `ReviewHistory.OnePendingPerQuestion` | app/repositories/reviews.py:116-142 | in every history an offering has at most one pending review of an issue for a reason, so the unique index never refuses a new one |
| `Conversation.LiveEvents` | app/cli.py:148-173 | the backward jumping loop ends and returns the prefix-recursive meaning of rewind |
| `Conversation.FirstPosition` | app/cli.py:161-168 | the first raw position of the target before the marker, or the marker's own |
| `Conversation.UnmarkedStays` | app/cli.py:157-170 | an event that names no rewind target, or a blank one, joins the conversation |
| `Conversation.RewindRestores` | app/cli.py:151-153 | a marker whose target first occurs at p restores the live list of the first p raw events, undoing later markers too; an unknown target changes nothing |
| `Conversation.RewindCutsTheLiveList` | app/cli.py:160-168 | when that event is live at place i, the rewind cuts the live list at i, losing nothing before it |
| `Conversation.LiveIff` | app/cli.py:157-171 | read without the jumps: an event is live iff it is no marker and no later marker that is not itself undone goes back to its position or before |
| `Conversation.LiveIsAtLivePositions` | app/cli.py:169-172 | the live list is the raw events at its live positions |
| `Conversation.LiveInOrder` | app/cli.py:172-173 | in their raw order |
| `Conversation.ForwardAgrees` | app/cli.py:148-173 | forward truncation gives the same reading as long as nobody rewinds to an invocation already removed |
| `Conversation.ForwardDiffers` | app/cli.py:148-173 | a log on which it does not |
| `OpenCalls.OpenCallsOf` | app/cli.py:186-201 | the nested loops compute the scan of the live events' parts |
| `OpenCalls.ScanDescribes` | app/cli.py:186-201 | the dictionary holds exactly the ids called with no later response, in the order they were opened, each with its last announcement |
| `OpenCalls.NewestIsLatestOpened` | app/cli.py:202 | the reading is empty iff no call is open, and otherwise the open call opened last; announcing an open id again does not make it newer |
| `OpenCalls.PendingReview` | app/cli.py:184-202 | the newest unanswered review request of the live conversation |
| `OpenCalls.DanglingMonitoringInvocation` | app/cli.py:205-220 | the invocation of the newest unanswered monitoring call |
| `OpenCalls.RewoundIsNotRead` | app/cli.py:567-586 | after a rewind to a known invocation neither reading names that invocation: what it left open is closed |
| `OpenCalls.ReadingAfterRewind` | app/cli.py:184-220 | and both are what they were just before its first event |
| `ReviewMemory.InMemoryReviewDecisionMemory.FindDecision` | app/repositories/review_memory.py:71-87 | the latest decision on the offering and field with a listed result or prompt |
| `ReviewMemory.InMemoryReviewDecisionMemory.Remember` | app/repositories/review_memory.py:89-96 | drops the decision of the same key, keeps the others in order, appends |
| `ReviewMemory.PostgresReviewDecisionMemory.FindDecision` | app/repositories/review_memory.py:103-147 | the matching row that is newest by (created_at, id), NULL prompts matching nothing |
| `ReviewMemory.PostgresReviewDecisionMemory.Remember` | app/repositories/review_memory.py:149-180 | the upsert: an existing key keeps its id and gets the new time |
| `ReviewMemory.RememberedIsFound` | app/repositories/review_memory.py:80-96 | the list answers a query that lists the result or the prompt of what was remembered last with that decision |
| `ReviewMemory.RememberedIsAnsweredIff` | app/repositories/review_memory.py:117-126 | the table does iff no other row the query lists is at least as new |
| `ReviewMemory.NothingFoundIff` | app/repositories/review_memory.py:79-87 | the list has no answer iff no decision of the offering and field has a listed result or a listed prompt |
| `ReviewMemory.NothingAnsweredIff` | app/repositories/review_memory.py:120-131 | and so has the table |
| `ReviewMemory.MemoriesAgree` | app/repositories/review_memory.py:67-180 | for every sequence of remembered decisions under a strictly increasing clock both memories answer every query alike |
| `ReviewMemory.FindsAgreeIff` | app/repositories/review_memory.py:71-147 | holding the same decisions, they agree on every query iff they order each field's decisions alike |
| `ReviewMemory.RememberAgreesIff` | app/repositories/review_memory.py:161-168 | whatever the times, remembering keeps them in agreement iff no other decision on the field is newer than now, or as new and of a later id |
| `ReviewMemory.MemoriesAgreeIff` | app/repositories/review_memory.py:67-180 | for every sequence of remembered decisions with any times, they agree on every query all along iff none is so overtaken |
| `ReviewMemory.TieDisagrees` | app/repositories/review_memory.py:122-123 | any two decisions on a field show the disagreement |
| `MoneyText.RemovesExactly` | app/domain/normalization.py:16 | a position is removed iff it holds a space or comma behind a digit and before three digits and no fourth |
| `MoneyText.Idempotent` | app/domain/normalization.py:42-43 | the separator pass is idempotent on every string: removing separators exposes no new removable one |
| `MoneyText.NothingNew` | app/domain/normalization.py:16 | no position of the result matches the pattern |
| `MoneyText.OnlySeparatorsGo` | app/domain/normalization.py:42-43 | every other character stays, in its order |
| `MoneyText.ChangesIff` | app/domain/normalization.py:16 | a string changes iff some position matches |
| `EffectivePeriods.CurrentIff` | app/domain/effective_periods.py:38-43 | current iff some dated period covers the day, an open end counting as covered |
| `EffectivePeriods.UndatedIff` | app/domain/effective_periods.py:35-37 | no status iff no period carries a date |
| `EffectivePeriods.HistoricalIff` | app/domain/effective_periods.py:44-45 | historical iff some period is dated and every dated one ended before the day |
| `EffectivePeriods.FutureIff` | app/domain/effective_periods.py:46-47 | future iff some period is dated, every dated one begins after the day, and not every one ended before it |
| `EffectivePeriods.FutureBefore` | app/domain/effective_periods.py:46-47 | a set of periods that is future on a day is future on every earlier day |
| `EffectivePeriods.HistoricalAfter` | app/domain/effective_periods.py:44-45 | and once historical stays historical |
| `EffectivePeriods.TimeBoundedIff` | app/domain/effective_periods.py:29-48 | for well-ordered periods, time_bounded iff one has ended, another has not begun and none covers the day |
| `EffectivePeriods.OrderIrrelevant` | app/domain/effective_periods.py:29-48 | the order and repetition of periods never matter |

## Left out

- AdvisoryLocks.NoWaitCycle: advisory locks only. Waits for row locks (`FOR UPDATE`, foreign keys) are not modelled; recovery, interruption and cancelling lock run rows without any advisory lock, so nothing is claimed about cycles through row locks.
- AdvisoryLocks.EveryoneCanCommit: the queue order in which PostgreSQL grants a released lock is left open; the theorem names a schedule.
- Lease.ClaimedOwnerIsSafe: scheduling delay between a beat's decision and its transaction counts as part of the heartbeat interval.
- MoneyText.Idempotent: the separator pass only; Unicode normalisation, whitespace folding and upper-casing before it are not modelled, and which characters are digits is a parameter.
- Manifests, change sets, audit events and the rows of the structured projection: no theorem speaks of them. Whether the projector accepts a snapshot is a parameter of publish and approve.
- The JSON a row carries: a tariff's canonical form, a decision's content and a call's arguments are each one opaque text.
- Bank names are taken as already lower-cased.
- `submit` and `create_offering_execution` draw ids by uuid4; here the drawn id is a parameter that is new.
- The enumeration checks that an offering belongs to its product, row counters, failure texts and timestamps nobody compares.
- `reviews.approve` without a snapshot update and the structured backfill: one status column, and the offering lock alone.
- The worker's loops, the pipeline, the agents, HTTP routes, rendering, settings other than the lease bound, and everything that reads documents to answer questions.

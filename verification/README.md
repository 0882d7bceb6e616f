# Verification of the SASTT speech pipeline's stateful core

This project models, in Dafny, the parts of SASTT whose correctness is hard to see by reading one
function, and proves what they promise over all inputs, all runs and all reachable states.  The
Python repository transcribes multi-speaker audio; what is modelled here is the logic around its
neural models: who a voice is linked to, how identities merge, how jobs are delivered, what a
client sees, and which slice of the timeline owns a word.

`dafny verify dfyconfig.toml` checks the whole project.

## How the model is built

Operations the source performs in place are classes whose methods are proved against functions on
values (`State()` gives the value); loops are loops.  The run-level statements are lemmas about the
functions.  Times are integer milliseconds as in the source, scores are exact reals, and minus
infinity is a missing value.

- **Source linking** (`Assignment`, `SourceLinking`, `LinkingOutcome`).  The solver is any injective assignment of
  maximal total; statements hold for all of them, and one exists.  The key argument moves all badly
  placed rows to their own dummy columns at once and compares totals.  `LinkingOutcome` says what is answered by
  where a source's column stands in its row of scores, without naming how the answer is found.
- **Session speakers** (`Decimals`, `MergeForest`, `Speakers`, `SessionState`, `SessionSafety`, `SessionRuns`,
  `SpeakerSession`, `SessionOutcomes`, `StaleLabels`, `PrototypeKeys`, `SessionLinking`, `Reconciliation`).  A run is any sequence of
  creations, constraints, merges, promotions, voice-id decisions, prototype updates, finalizations and drains.
  `SessionLinking` joins the linking of sources to the prototypes a reachable session offers.
- **Job delivery** (`TaskQueue`, `Jobs`, `Delivery`, `DeliverySafety`, `JobOutcomes`, `Progress`, `Recovery`, `ErrorCodes`).  Each Redis command and
  each store call is one step, also the two of a submission; any number of consumers interleave and may crash
  between any two steps.  At most one live process uses a consumer name.
- **Events** (`PySlices`, `EventLog`, `EventStore`).  The invariant relates the trimmed log to the
  full history, which the code does not keep.
- **Timeline** (`Timeline`, `Audio`, `OverlapSweep`, `CropSplit`, `Ownership`).  Lists of intervals are
  related to the milliseconds they cover.
- **Fusion** (`Transcript`, `Utterances`, `Fusion`, `FusionAttribution`, `FusionEngines`, `FusionFailures`).  Attribution works on the session's
  speakers, so it may create a cluster's speaker or the sink; identifiers for those are inputs.
- **Streaming** (`Ring`, `Watermark`, `Handover`, `OverlapRouting`, `DedupKeys`, `Finals`, `Publication`, `FusedFinals`,
  `StreamingSessions`, `PassEvents`).
  Model outputs per step are inputs.
- **Word error rate** (`EditDistance`).

## What the proofs show about the code

Where the code does not do what its comments or tests promise, the code is modelled as it is, an input
shows the failure, and a lemma gives the exact condition for all inputs.

- The merge guard looks only from the source's side and only at raw identifiers
  (`src/sastt/application/session_state.py:328`).  `OneSidedGuard`, `RawGuard` and `GuardFailsOnRun` are runs in
  which two speakers declared to be different people become one; `RunKeepsApartIff` says exactly when
  that happens.  Reconciliation meets the case: two concurrent sources that link to the same known
  speaker are both merged into it (`ConcurrentSourcesJoinIff`).
- A merge relabels only its source, and the other operations only active speakers, so identities merged earlier
  keep an old label.  `StaleLabelOnRun` is a run of five operations; `RunKeepsShownIff`: in every state of a run all
  identities show their speaker's label exactly when no operation gives a speaker others were merged into another text.
- The window split leaves the end of a region unowned when the total padding is shorter than the
  stitch, and the retry after a failed separation passes no padding at all (`RetryLosesTail`,
  `FullyOwnedIff`).  Together with slivers of speech under 50 ms these tails are all of speech and overlap
  that no slice owns (`OwnedIff`).
- The two-command moves of the queue are the only places where a task can be lost
  (`LostExactlyInGaps`, `LostAfterRunIff`; `RetryGapLosesTask`, `RecoveryGapLosesTask`).
- A worker that restarts under a new host and process id does not recover the tasks of its old name
  (`StrandedForever`).  `RecoverableIff`: whatever the other workers do, a task a dead consumer held can come back to
  its queue exactly when a process may come up under the dead consumer's name.
- The recovery of a dead consumer's tasks tests a lease that counts from enqueueing, and stops at the first task still
  within it, which goes to the other end of the list.  `StaleStaysBehind` is a stale task it leaves behind.  Everything is
  returned exactly when every task was enqueued long enough ago (`RequeueReturnsAllIff`), and nothing stale is left
  exactly when no stale task stands on the left of one within its lease (`NoneStaleLeftIff`).
- A failing redelivery can still set the error code of a job that already succeeded.  `SucceededJobGetsError` is a
  reachable state; `ErrorAfterRunIff`: a job has an error code after a run exactly when it had one or some
  worker of one of its tasks reached the failure report, whatever the state of the job was.
- With retention zero the log keeps everything and the in-memory store nothing: they agree exactly when the
  retention is not zero or nothing has happened (`StoreAgreesIff`).
- The sweep counts two crossing turns of one speaker as overlapping speech (`OneSpeakerCanOverlap`).  It reports exactly
  concurrent speakers when and only when no speaker's turns cross where nobody else speaks (`SweepExactIff`).
- The first prototype of a speaker cannot be rolled back (`RollbackUndoesIff`).
- The overlap path of a streaming session is not cut at the watermark: a region across a pause is decoded once for
  each side, in one step or in two (`RegionDecodedTwice`).  `RegionDecodedOnceIff` and `DecodedOnceIff` say
  exactly when a whole run decodes nothing twice.  The test whether a region is closed never fails
  (`MeetsIffIntersects`).
- In the final pass of a streaming session, finals with equal times, speaker and track collapse into one event by their
  dedup key; two sentences with the same times do (`TwoSentencesCollapse`).  Every final gets its event exactly when no
  two share these and the log has none of their keys (`EveryFinalPublishedIff`); a final without an event loses its text,
  and the provisional it was to replace is replaced by none (`UnpublishedFinalIsLost`).

## Model

| member | source | states |
|---|---|---|
| Assignment.NothingMisplaced | src/sastt/application/source_linking.py:170-186 | In every optimal assignment with finite dummy columns no row sits on a floored cell and none on a real column below the dummy score: nothing the matrix forbids is ever assigned. |
| Assignment.OutbidOnly | src/sastt/application/source_linking.py:170-186 | A row on its dummy column although a real column scores above the dummy lost that column to a row that scores at least as much there. |
| Assignment.AllPlacedIff | src/sastt/application/source_linking.py:170-186 | With floored dummy columns, every optimal assignment places all rows of a finite grid exactly when there are at least as many columns as rows. |
| Assignment.OptimalExists | src/sastt/application/source_linking.py:184-186 | A maximal assignment exists for every matrix, so the statements over all optimal assignments are not empty. |
| SourceLinking.BuildScoreMatrix | src/sastt/application/source_linking.py:58-73 | The filled array has minus infinity exactly on rows without an embedding and the similarity elsewhere. |
| SourceLinking.RestrictToCandidates | src/sastt/application/source_linking.py:76-101 | Columns outside the candidate set become minus infinity; an absent or empty candidate set changes nothing. |
| SourceLinking.ApplyContinuityBonus | src/sastt/application/source_linking.py:104-126 | Exactly the cell of a row's previous speaker gains the bonus, and only where the score is finite. |
| SourceLinking.ArgMaxOwners | src/sastt/application/source_linking.py:188-198 | For every column, the rows whose best column it is, in order. |
| SourceLinking.LinkSources | src/sastt/application/source_linking.py:129-314 | The loop decides every source as `Result` does, for any solver answer that is an optimal assignment; what these decisions are is `OpenAnswerIff`, `ConstrainedAnswerIff` and `UncalibratedAnswerIff`. |
| LinkingOutcome.OpenAnswerIff | src/sastt/application/source_linking.py:200-314 | Unconstrained and calibrated: a source is linked exactly when its column is a speaker it scores at least the threshold with, its greatest score leads every other entry by the margin, and either that column is its first greatest entry or no other source has its first greatest entry where it has its own; above the threshold and otherwise it is ambiguous, below it unknown; the reason given is the one that applies. |
| LinkingOutcome.ConstrainedAnswerIff | src/sastt/application/source_linking.py:174-271 | Constrained and calibrated: linked to its column's speaker exactly when that cell is finite, unknown otherwise, never ambiguous. |
| LinkingOutcome.UncalibratedAnswerIff | src/sastt/application/source_linking.py:200-235 | Without calibration every source that can be compared is answered as uncalibrated and the others as unknown. |
| LinkingOutcome.ReportedScore | src/sastt/application/source_linking.py:200-314 | The score reported is the base score of the assigned column, or the greatest of the row when there is none. |
| LinkingOutcome.ReportedMargin | src/sastt/application/source_linking.py:317-324 | The margin reported is the lead of a greatest entry over the best of all others, there exactly when two entries are finite. |
| LinkingOutcome.ScoresAre | src/sastt/application/source_linking.py:58-126 | A finite base score is the similarity of source and speaker; the solver sees it raised by the bonus exactly in the last column that bears the previous speaker's key. |
| SourceLinking.BaseFiniteIff | src/sastt/application/source_linking.py:58-101 | A base score is finite exactly when the source has an embedding and the speaker's column is unmasked. |
| SourceLinking.OpenAssignmentSupported | src/sastt/application/source_linking.py:170-271 | Unconstrained and calibrated: whoever gets a real column has an embedding, the column is unmasked and the boosted score reaches the acceptance threshold. |
| SourceLinking.BelowAcceptOnlyByBonus | src/sastt/application/source_linking.py:200-271 | The outcome "below accept" arises only for the previous speaker, with a base score in [accept - bonus, accept). |
| SourceLinking.UnknownMeansOutbid | src/sastt/application/source_linking.py:200-271 | A source left unknown although some speaker scores above the threshold was outbid there by another source. |
| SourceLinking.LinkIsSupported | src/sastt/application/source_linking.py:200-314 | Every link names the assigned column's speaker, with an embedding and an unmasked column, and outside the constrained mode passes the accept and margin gates on the base scores. |
| SourceLinking.UncalibratedLinksNobody | src/sastt/application/source_linking.py:200-271 | Without calibrated thresholds no source is linked, in any mode. |
| SourceLinking.LinksAreInjective | src/sastt/application/source_linking.py:184-314 | Two linked sources of one crop never share a column; so never a key when the keys offered are distinct. |
| SourceLinking.ConstrainedLinkIff | src/sastt/application/source_linking.py:174-259 | In the constrained mode a source is linked exactly when its assigned cell is finite. |
| SourceLinking.ConstrainedLinksAllIff | src/sastt/application/source_linking.py:174-259 | In the constrained mode every optimal assignment links every embedded source exactly when there are at least as many unmasked prototype columns. |
| SourceLinking.EveryCallSolvable | src/sastt/application/source_linking.py:184-186 | Every call has an optimal assignment. |
| SourceLinking.TopTwo | src/sastt/application/source_linking.py:317-324 | The largest finite score of a row, which occurs in it, and the largest of the other places, missing exactly as the source says. |
| MergeForest.LinkKeepsForest | src/sastt/application/session_state.py:158-162 | Linking one root under another keeps the links acyclic and moves exactly the source's tree. |
| MergeForest.AddKeepsForest | src/sastt/application/session_state.py:150-162 | A new identity is its own root and changes nobody else's. |
| MergeForest.DeclareKeepsConstraints | src/sastt/application/session_state.py:314-321 | A declaration keeps every declared pair visible from both roots, and nothing else. |
| MergeForest.MergeKeepsConstraints | src/sastt/application/session_state.py:330-358 | After a merge every declared pair with different roots is still visible from both roots once the stored identifiers are resolved, and only declared pairs are. |
| MergeForest.MergeKeepsApartIff | src/sastt/application/session_state.py:323-348 | A merge keeps all declared pairs apart exactly when nothing the source stores resolves to the target. |
| MergeForest.SeesIffDeclared | src/sastt/application/session_state.py:314-348 | What a root sees through its resolved identifiers is exactly what was declared against it. |
| SessionSafety.DoKeepsSane | src/sastt/application/session_state.py:150-196 | Every operation keeps the links acyclic with each identity resolving to an active root, only appends identifiers, never changes an existing sink. |
| SessionSafety.DoKeepsCapped | src/sastt/application/session_state.py:85-107 | Active speakers other than the sink never exceed the cap. |
| SessionSafety.MergeCountsDown | src/sastt/application/session_state.py:330-358 | An accepted merge takes exactly one off the active count, a refused one nothing. |
| SessionRuns.DoKeepsRecorded | src/sastt/domain/speakers.py:54-138 | Every speaker's recorded history stays a path of the transition table from an initial state to the current one, with revision length + 1. |
| SessionRuns.NextKeepsGood | src/sastt/application/session_state.py:78-443 | One operation keeps all invariants together: acyclic links, cap, histories, label replay, constraint visibility. |
| SessionRuns.Run | src/sastt/application/session_state.py:78-443 | All of them hold after every run from a new session. |
| SessionRuns.DrainedLabelsRebuild | src/sastt/application/session_state.py:350-443 | After a drain, applying all published changes in order to the labels given at creation yields every speaker's label, and each change names the label that was shown before it. |
| SessionRuns.RunOnlyAdds | src/sastt/application/session_state.py:121-154 | Over any continuation of a run identifiers are never reused, removed or reordered and the sink stays the one it is. |
| SessionRuns.NextApartIff | src/sastt/application/session_state.py:314-348 | One operation keeps the declared pairs apart exactly when it is not a merge whose stored identifiers resolve to the target. |
| SessionRuns.RunKeepsApartIff | src/sastt/application/session_state.py:314-348 | Over a whole run no declared pair ends as one speaker exactly when no such merge was accepted: a guard on resolved identifiers would be enough. |
| SessionRuns.OneSidedGuard | src/sastt/application/session_state.py:323-348 | For any three unconstrained speakers, declaring two as different and merging both into the third is accepted, although the target would refuse the second merge the other way round. |
| SessionRuns.RawGuard | src/sastt/application/session_state.py:323-348 | Testing raw identifiers from both sides would not be enough either: four speakers and three accepted merges join a declared pair. |
| SessionRuns.GuardFailsOnRun | src/sastt/application/session_state.py:323-348 | A six-operation run from a new session after which a declared pair shares a root. |
| StaleLabels.DoKeepsShownIff | src/sastt/application/session_state.py:330-443 | While every identity shows its speaker's label, an operation keeps that exactly when it gives no speaker with merged identities a different text, generated or not. |
| StaleLabels.RunKeepsShownIff | src/sastt/application/session_state.py:330-443 | Over a whole run every state shows all labels exactly when no operation of the run does that. |
| StaleLabels.RunTemporaryLabels | src/sastt/application/session_state.py:100-119 | In every reachable state a provisional speaker's label starts like a temporary one, so a promotion without a label always changes the text. |
| StaleLabels.MergedTwiceKeepsOld | src/sastt/application/session_state.py:330-358 | For any three unconstrained speakers, merging the first into the second and that into the third leaves the first with the label of the second. |
| StaleLabels.StaleLabelOnRun | src/sastt/application/session_state.py:330-358 | A five-operation run from a new session after which an identity does not show its speaker's label. |
| PrototypeKeys.DoKeepsKeyed | src/sastt/application/session_state.py:236-358 | Every operation keeps it that an active speaker's prototype was made for an identity that resolves to this speaker, although a merge hands on the source's prototype with its key. |
| PrototypeKeys.RunKeyed | src/sastt/application/session_state.py:236-358 | This holds in every reachable state. |
| PrototypeKeys.KeysDiffer | src/sastt/application/session_state.py:198-225 | So no two active speakers offer prototypes with the same key. |
| SpeakerSession.FinalizationSettlesEveryone | src/sastt/application/session_state.py:417-438 | Finalization leaves no active speaker provisional, except one with evidence under uncalibrated thresholds, and does not touch merged ones. |
| SessionOutcomes.FinalizeOutcome | src/sastt/application/session_state.py:417-438 | Finalization makes a provisional speaker without evidence unknown, one with evidence anonymous under a newly counted label if thresholds are calibrated, with the step recorded, and changes nothing else of anybody. |
| SpeakerSession.SessionSpeakerState.Find | src/sastt/application/session_state.py:158-162 | Following the links terminates at the active root. |
| SpeakerSession.SessionSpeakerState.CreateSpeaker | src/sastt/application/session_state.py:78-98 | Performs the creation, refused exactly when the session is full or the identifier is taken. |
| SpeakerSession.SessionSpeakerState.CreateTemporarySpeaker | src/sastt/application/session_state.py:100-119 | The same for temporary identities. |
| SpeakerSession.SessionSpeakerState.UnattributedSpeaker | src/sastt/application/session_state.py:121-148 | Returns the one sink, created at its first use. |
| SpeakerSession.SessionSpeakerState.AddCannotLink | src/sastt/application/session_state.py:314-321 | Stores the pair with both roots. |
| SpeakerSession.SessionSpeakerState.MergeSpeakers | src/sastt/application/session_state.py:330-358 | Performs the merge exactly when the guard accepts it, and nothing otherwise. |
| SpeakerSession.SessionSpeakerState.PromoteProvisional | src/sastt/application/session_state.py:362-381 | Promotes a provisional root and queues the label change; leaves others alone. |
| SpeakerSession.SessionSpeakerState.ApplyVoiceIdDecision | src/sastt/application/session_state.py:383-415 | Applies the decision of `AcceptedOutcome`, `ContradictedOutcome` or `NoDecisionOutcome`, refused exactly when an acceptance lacks the registry entry or the name. |
| SessionOutcomes.AcceptedOutcome | src/sastt/application/session_state.py:383-412 | After an acceptance the speaker has the registry entry and the name, queues the label change, and is enrolled from provisional, anonymous or ambiguous, in any other state as before; nobody else changes. Without entry or name nothing changes. |
| SessionOutcomes.ContradictedOutcome | src/sastt/application/session_state.py:412-415 | A contradiction makes an enrolled speaker ambiguous and changes nothing else. |
| SessionOutcomes.NoDecisionOutcome | src/sastt/application/session_state.py:383-415 | Any other decision, and any decision on an unknown identifier, changes nothing. |
| SessionOutcomes.RegisteredIsEnrolled | src/sastt/application/session_state.py:383-415 | In every reachable state a speaker with a registry entry is enrolled, ambiguous or unknown. |
| SessionOutcomes.RunLawful | src/sastt/application/session_state.py:78-443 | In every reachable state who has a registry entry is enrolled, ambiguous or unknown, who is merged is neither provisional nor anonymous, who is not merged is not in the merged state, and the sink is unknown. |
| SessionOutcomes.MergeOutcome | src/sastt/application/session_state.py:330-358 | An accepted merge links the source to the target, gives it the target's label, hands on the prototype where the target has none and the stored identities except the target, and queues one change; nobody else changes. |
| SessionOutcomes.PromoteOutcome | src/sastt/application/session_state.py:362-381 | A promotion makes a provisional speaker anonymous under the requested or the next generated label and changes nobody else. |
| SessionOutcomes.EvidenceOutcome | src/sastt/application/session_state.py:236-310 | Buffered evidence counts for provisional speakers only, other evidence for all but the unknown and ambiguous; it starts a prototype under the speaker's own identifier or makes its next version, keeping the one before; nobody else changes. |
| SessionOutcomes.CreateOutcome | src/sastt/application/session_state.py:78-98 | A created speaker is anonymous, last in order, with the requested or the next label; a full session stays as it is. |
| SessionOutcomes.CreateTemporaryOutcome | src/sastt/application/session_state.py:100-119 | A temporary speaker is provisional, last in order, without a cluster, with the next temporary label; a full session stays as it is. |
| SessionOutcomes.UnattributedOutcome | src/sastt/application/session_state.py:121-148 | The sink is made once, whatever the cap is, unknown from the start with its one recorded step. |
| SpeakerSession.SessionSpeakerState.UpdatePrototype | src/sastt/application/session_state.py:236-310 | Accepted evidence changes the root's prototype exactly in the states the source allows. |
| SpeakerSession.SessionSpeakerState.Finalize | src/sastt/application/session_state.py:417-438 | Visits the active speakers and returns those that end unknown for want of evidence. |
| SpeakerSession.SessionSpeakerState.DrainLabelChanges | src/sastt/application/session_state.py:440-443 | Returns and clears the queued changes. |
| Reconciliation.ReconcileTemporarySpeakers | src/sastt/application/offline_pipeline.py:766-796 | The loop over the provisional speakers computes the pass on the session's speakers. |
| Reconciliation.ReconciliationIsExact | src/sastt/application/offline_pipeline.py:766-796 | For links that lead outside the temporary speakers: exactly those with evidence and a link are merged whose target is not among the identities they stored at the start, whatever happens to the others on the way. |
| Reconciliation.ConcurrentSourcesJoinIff | src/sastt/application/offline_pipeline.py:694-702 | Two sources of one crop, stored with each other as different people, end as one speaker exactly when both link to it and neither stores it. |
| SessionLinking.SourcesLinkToDifferentSpeakers | src/sastt/application/offline_pipeline.py:609-627 | In every reachable state, sources of one crop that are linked against the session's prototypes name identities that resolve to different active speakers, with or without the provisional ones among the prototypes. |
| SessionLinking.LinkResolves | src/sastt/application/session_state.py:198-225 | The key a link names resolves to the speaker that offered the assigned column. |
| SessionLinking.AnswersAreLinkable | src/sastt/application/offline_pipeline.py:766-796 | The answers of linking each temporary speaker's prototype against the other speakers never name a temporary speaker. |
| SessionLinking.ReconciliationOnRuns | src/sastt/application/offline_pipeline.py:766-796 | In every reachable state and for every solver answer, the pass merges exactly the temporary speakers with a prototype and a link whose target they do not store. |
| Speakers.StepKeepsRecorded | src/sastt/domain/speakers.py:112-138 | One transition keeps the recorded history a path of the table and raises the revision by one. |
| Speakers.SpeakerIdentityStateMachine.TransitionTo | src/sastt/domain/speakers.py:117-138 | Transitions exactly along the table and records the step, or changes nothing. |
| Speakers.RollbackUndoesIff | src/sastt/domain/speakers.py:376-390 | As many rollbacks as updates restore the prototype and its history exactly when there was a prototype to update; rollback itself is at 512-515. |
| TaskQueue.RedisTaskQueue.Enqueue | src/sastt/adapters/queue/redis_queue.py:141-173 | Pushes at the left unless the queue is full. |
| TaskQueue.RedisTaskQueue.Reserve | src/sastt/adapters/queue/redis_queue.py:175-189 | Moves the oldest task of the first non-empty queue to the consumer's list; when all are empty, what the blocking pop on the first queue still gets, or nothing. |
| TaskQueue.RedisTaskQueue.Ack | src/sastt/adapters/queue/redis_queue.py:191-194 | Removes the task from the processing list. |
| TaskQueue.RedisTaskQueue.Retry | src/sastt/adapters/queue/redis_queue.py:196-207 | Moves the task back with one attempt more, or to the dead list when the attempts are used up. |
| TaskQueue.RedisTaskQueue.RequeueStale | src/sastt/adapters/queue/redis_queue.py:209-227 | The loop with its early exit computes the requeue function; it terminates. |
| TaskQueue.RequeueMovesStaleRun | src/sastt/adapters/queue/redis_queue.py:209-227 | Exactly the run of stale tasks at the right end of the processing list goes back to the queue, in order. |
| TaskQueue.RequeueConserves | src/sastt/adapters/queue/redis_queue.py:209-227 | No task is created or lost by a complete requeue. |
| TaskQueue.RequeueReturnsAllIff | src/sastt/adapters/queue/redis_queue.py:209-227 | The processing list ends empty exactly when every task has outlived its lease, counted from enqueueing, when the loop gets to it, for any clock. |
| TaskQueue.NoneStaleLeftIff | src/sastt/adapters/queue/redis_queue.py:209-227 | At a standing clock no stale task is left exactly when none stands on the left of a task within its lease. |
| TaskQueue.StaleStaysBehind | src/sastt/adapters/queue/redis_queue.py:219-224 | Two tasks of which the stale one is left behind and the other one rotated. |
| Delivery.StepKeepsInv | src/sastt/workers/offline_worker.py:105-203 | Every Redis command, worker step, crash, start, submission and cancel keeps the protocol invariant. |
| DeliverySafety.ExactlyOnePlace | src/sastt/adapters/queue/redis_queue.py:141-227 | In every reachable state each task is in exactly one of: a list, the gap of one consumer, acknowledged, or lost. |
| DeliverySafety.LostExactlyInGaps | src/sastt/adapters/queue/redis_queue.py:198-225 | A step loses a task exactly when it crashes the consumer that holds it between the two commands of a retry or a requeue. |
| DeliverySafety.NothingLostOutsideGaps | src/sastt/adapters/queue/redis_queue.py:141-227 | A run without such crashes loses nothing. |
| DeliverySafety.LostAfterRunIff | src/sastt/adapters/queue/redis_queue.py:141-227 | Over a whole run a task is lost exactly when it was before or some step of the run crashes the consumer that holds it between two commands. |
| DeliverySafety.RetryGapLosesTask | src/sastt/adapters/queue/redis_queue.py:198-206 | From any state before a retry, one command and a crash lose the task from all lists. |
| DeliverySafety.RecoveryGapLosesTask | src/sastt/adapters/queue/redis_queue.py:214-225 | The same for a requeue. |
| DeliverySafety.StrandedForever | src/sastt/workers/offline_worker.py:105-132 | While no process comes up under a dead consumer's name, its processing lists stay as they are over every run. |
| Recovery.RecoverableIff | src/sastt/adapters/queue/redis_queue.py:209-227 | For every set of names that may be started: some run that starts only these puts a task a dead consumer held back into its queue, exactly when the dead consumer's name is among them. |
| Recovery.RecoveryReaches | src/sastt/adapters/queue/redis_queue.py:209-227 | A consumer that comes up, alone and with the leases run out, reaches a state in which the task waits in its queue again, whatever lists come before it and whatever else they hold. |
| DeliverySafety.FinishedForever | src/sastt/domain/events.py:287-290 | Once a job is finished its state and saved segments never change, under any redelivery, retry, dead-lettering or cancel. |
| DeliverySafety.AcknowledgedIsFinished | src/sastt/workers/offline_worker.py:105-188 | An acknowledged task's job is finished and its segments are saved; in which state and with which segments is `FinishAfterRun` and `SegmentsAfterRun`. |
| JobOutcomes.StateAfterStep | src/sastt/workers/offline_worker.py:160-188 | Every step of anybody moves a job that is not over to the state the step asks for, and changes the state of no other job. |
| JobOutcomes.FinishAfterRun | src/sastt/workers/offline_worker.py:183-188 | Over every run a job is finished exactly when it was or a worker on its task took the last step while it was not over; its state is then degraded exactly when that step was, whatever happens later. |
| JobOutcomes.SegmentsAfterRun | src/sastt/workers/offline_worker.py:174-182 | Over every run the saved segments are those of the last saving step of a worker on the job's task, and the old ones when there is none. |
| JobOutcomes.SavedBeforeFinish | src/sastt/workers/offline_worker.py:174-188 | When a run both saves the segments of a job and reports its end, the save comes first. |
| JobOutcomes.WorkerGoesOn | src/sastt/workers/offline_worker.py:160-188 | A worker goes on to its next step, skips separation without overlap, and gives the task back where it fails or the job is over. |
| Progress.WaitingJobIsDone | src/sastt/workers/offline_worker.py:105-188 | A consumer that polls takes the oldest task of the first queue that has one and, when nothing raises and nobody interferes, ends polling again with the job in the state and with the segments the pipeline returned, the task done and every other list as it was. |
| Progress.TakesOldest | src/sastt/adapters/queue/redis_queue.py:175-189 | From any queue it polls, a consumer takes the oldest task of the first queue that is not empty. |
| Progress.FailedAttempt | src/sastt/adapters/queue/redis_queue.py:196-207 | An attempt that fails at any stage returns the task as the newest of its queue with one attempt more, the third to the dead letters; no other list changes. |
| Progress.DeadLetterFailsJob | src/sastt/workers/offline_worker.py:197-203 | After the third failure the job carries an error code and is FAILED unless it was over. |
| Progress.RecoveryIsRequeue | src/sastt/adapters/queue/redis_queue.py:209-227 | The separate commands of an uninterrupted recovery compute the requeue of the whole list, for any clock and any list, and go on to the next queue. |
| Progress.TaskEnqueued | src/sastt/adapters/queue/redis_queue.py:141-173 | The first task of a job becomes the newest of its queue and of no other list; a full queue cancels the job if it is not over. |
| DeliverySafety.NeverTwoWorkers | src/sastt/adapters/queue/redis_queue.py:175-189 | Two consumers never work on the same job at the same time. |
| DeliverySafety.AttemptsBounded | src/sastt/adapters/queue/redis_queue.py:196-207 | Waiting tasks have attempts left, and dead-lettered tasks have used exactly all of them. |
| ErrorCodes.StepErrorIff | src/sastt/workers/offline_worker.py:197-203 | A step leaves a job with an error code exactly when it had one or the step is the failure report of a worker on one of its tasks. |
| ErrorCodes.ErrorAfterRunIff | src/sastt/workers/offline_worker.py:197-203 | The same over whole runs, whatever the state of the job was on the way. |
| ErrorCodes.SucceededJobGetsError | src/sastt/adapters/persistence/memory.py:64-72 | A reachable state in which a job has succeeded and carries an error code. |
| Jobs.RetryFindsFirstJob | src/sastt/adapters/persistence/memory.py:25-54 | A retried submission finds the first job whatever happened in between, or conflicts exactly when its input differs. |
| Jobs.InMemoryJobStore.Create | src/sastt/adapters/persistence/memory.py:25-54 | Creates, finds or reports a conflict as the store function does. |
| Jobs.CreateAnswer | src/sastt/adapters/persistence/memory.py:25-54 | A known key answers with its job or a conflict and changes nothing; a new one adds one queued job of this tenant and input and changes no other. |
| Jobs.InMemoryJobStore.Update | src/sastt/adapters/persistence/memory.py:64-67 | Moves a job that is not terminal, refuses otherwise. |
| Jobs.StateAfterCall | src/sastt/adapters/persistence/memory.py:56-72 | One call changes the state of a job exactly when it is an update of that tenant's job that is not over, or confirms its state, and then to the state asked for. |
| Jobs.StateAfterCalls | src/sastt/adapters/persistence/memory.py:56-72 | After any calls a job is in the state of the last update accepted, and in the one it was in when none was. |
| Jobs.TenantsAreApart | src/sastt/adapters/persistence/memory.py:56-62 | No calls of other tenants change a job. |
| EventLog.SessionEventLog.Append | src/sastt/domain/events.py:173-223 | Deduplicates finals, validates, numbers, stores and trims. |
| EventLog.AppendAnswer | src/sastt/domain/events.py:192-223 | Told by the history alone: the event of the same final if there is one, then the refusal of a revision below 1, then that of a repeated key, and otherwise an event with the next number and what was asked for. |
| EventLog.SessionEventLog.ReplayFrom | src/sastt/domain/events.py:225-240 | Returns the events after the cursor or the error the source raises. |
| EventLog.SessionEventLog.FinalEvents | src/sastt/domain/events.py:242-243 | The retained final events in the order of the log, each as often as there. |
| EventLog.FinalsAreRetained | src/sastt/domain/events.py:242-243 | In every reachable log these are exactly the retained final events, all from the history, each once, in the order of their sequence numbers. |
| EventLog.ServeKeepsLogs | src/sastt/domain/events.py:173-223 | In every run the log is the last events of a history numbered 1, 2, 3, ..., with no repeated (id, revision) and no repeated final per dedup key. |
| EventLog.ReplayIsExact | src/sastt/domain/events.py:225-240 | Replay returns exactly the history after the cursor, or raises exactly when the cursor is negative, ahead, or outside the window. |
| EventLog.ClientNeverLosesOrRepeats | src/sastt/domain/events.py:225-240 | However often a client disconnects and resumes, it holds a prefix of the history. |
| EventLog.ResumeCatchesUpIff | src/sastt/domain/events.py:225-240 | An undisturbed resume catches up exactly when the cursor is inside the window. |
| EventLog.SecondFinalChangesNothing | src/sastt/domain/events.py:192-193 | A second final with the same dedup key returns the first event and changes nothing. |
| PySlices.KeepAfterAppend | src/sastt/domain/events.py:219-222 | Trimming after every append is trimming once at the end. |
| PySlices.KeepBoundedIff | src/sastt/domain/events.py:221-222 | The kept list is bounded exactly when the bound is not zero. |
| EventStore.InMemoryEventStore.Append | src/sastt/adapters/persistence/memory.py:83-99 | Refuses non-increasing sequence numbers and repeated keys, stores and trims otherwise. |
| EventStore.StoreAnswer | src/sastt/adapters/persistence/memory.py:83-99 | An event is refused exactly when its number does not exceed the session's last accepted one, while the window is not empty, or its key was accepted in that session before. |
| EventStore.ServeAllKeeps | src/sastt/adapters/persistence/memory.py:83-99 | After any appends to any sessions the store holds the last accepted events of each and the keys of all; no key is accepted twice, and for a non-zero retention the numbers of a session increase. |
| EventStore.StoreFollowsHistory | src/sastt/adapters/persistence/memory.py:83-99 | Fed the history, the store holds its last events. |
| EventStore.StoreAgreesWithLog | src/sastt/adapters/persistence/memory.py:101-108 | For retention of at least one and cursors up to the head, the store replays what the log replays. |
| EventStore.StoreAgreesIff | src/sastt/adapters/persistence/memory.py:83-108 | For every history, the store replays what the log replays at every cursor up to the head exactly when the retention is at least one or the history is empty. |
| Timeline.MergeCanonical | src/sastt/domain/audio.py:118-130 | The merge is sorted, separated by more than the gap, and covers exactly the union and the bridged gaps. |
| Timeline.SeparatedUnique | src/sastt/domain/audio.py:118-130 | Two separated lists that cover the same points are the same list. |
| Timeline.MergeIgnoresOrder | src/sastt/domain/audio.py:118-130 | The result depends on the multiset of inputs only. |
| Timeline.MergeIdempotent | src/sastt/domain/audio.py:118-130 | Merging twice is merging once. |
| Timeline.MergeIntervals | src/sastt/domain/audio.py:118-130 | The loop computes the merge. |
| Timeline.TotalDurationCountsPoints | src/sastt/domain/audio.py:133-135 | The total duration is the number of covered milliseconds. |
| Timeline.Clamp | src/sastt/domain/audio.py:110-115 | The common points, or nothing exactly when the intervals do not intersect. |
| Timeline.IntersectionIsCommon | src/sastt/domain/audio.py:84-89 | The overlap of two intervals is the length of what they have in common, positive exactly when some millisecond is in both. |
| Timeline.SubtractIsDifference | src/sastt/application/offline_pipeline.py:976-990 | The difference is pointwise and in canonical form. |
| Timeline.SubtractTwice | src/sastt/application/offline_pipeline.py:976-990 | Removing two hole lists in turn is removing them together. |
| Timeline.SubtractIntervals | src/sastt/application/offline_pipeline.py:976-990 | The nested loops compute the difference. |
| Audio.RoundTripIffKilohertz | src/sastt/domain/audio.py:36-54 | Milliseconds to samples and back is the identity exactly at rates of at least 1000. |
| Audio.ReverseTripError | src/sastt/domain/audio.py:36-54 | Samples to milliseconds and back is off by at most half a millisecond plus half a sample. |
| Audio.MsToSamplesMonotone | src/sastt/domain/audio.py:48-54 | Monotone in the milliseconds. |
| Audio.SamplesToMsMonotone | src/sastt/domain/audio.py:36-45 | Monotone in the samples. |
| Audio.CropComposes | src/sastt/domain/audio.py:212-228 | Cropping by one interval and then another is cropping by their intersection when that is not empty in samples. |
| Audio.CropKeepsFrames | src/sastt/domain/audio.py:212-228 | A crop holds exactly the absolute samples the buffer holds within the interval, each with its frame, and is missing exactly when there are none. |
| OverlapSweep.OverlapRegions | src/sastt/adapters/pyannote/diarizer.py:289-305 | For any turns the sweep over sorted edges returns separated intervals that cover exactly the milliseconds contained in at least two turns. |
| OverlapSweep.SweepExactAtIff | src/sastt/adapters/pyannote/diarizer.py:289-305 | At one point, being in two turns is the same as two speakers speaking exactly when no speaker has two turns there or another one speaks as well. |
| OverlapSweep.SweepExactIff | src/sastt/adapters/pyannote/diarizer.py:289-305 | On a whole recording they are the same everywhere exactly when no two turns of one speaker intersect where no other speaker speaks. |
| OverlapSweep.OneSpeakerCanOverlap | src/sastt/adapters/pyannote/diarizer.py:289-305 | Two crossing turns of one speaker count as overlap. |
| CropSplit.SplitCrop | src/sastt/application/offline_pipeline.py:993-1022 | The loop terminates and computes the windows. |
| CropSplit.WindowCountClosed | src/sastt/application/offline_pipeline.py:1009-1022 | The number of windows in closed form. |
| CropSplit.OwnedTilesRegion | src/sastt/application/offline_pipeline.py:1009-1022 | For every input the owned slices are consecutive from the region's start and reach a point given in closed form. |
| CropSplit.TilesPoints | src/sastt/application/offline_pipeline.py:1009-1022 | Consecutive slices own every point between their ends exactly once. |
| CropSplit.FullyOwnedIff | src/sastt/application/offline_pipeline.py:1009-1022 | The region is covered to its end exactly when that point is its end. |
| CropSplit.PaddingCoversStitch | src/sastt/application/offline_pipeline.py:511-514 | Padding of at least the stitch in total covers the region; otherwise the tail is at most the difference. |
| CropSplit.InsideWindowsIff | src/sastt/application/offline_pipeline.py:1009-1022 | Every slice lies inside its window exactly under a condition on the left padding. |
| CropSplit.WindowsMoveWithSlices | src/sastt/application/offline_pipeline.py:993-1022 | A short crop is one window; in a longer one every window is as far into the padded interval as its slice is into the region, ends after the largest crop or with the interval, and owns one step or the rest of the region. |
| CropSplit.RetryLosesTail | src/sastt/application/offline_pipeline.py:522-531 | A retry on the bare region of 19 s loses its last second at the default sizes. |
| Ownership.MergeOverlapRegions | src/sastt/application/offline_pipeline.py:939-973 | The merged evidence without the regions that are too short. |
| Ownership.NonOverlapSlices | src/sastt/application/offline_pipeline.py:453-486 | The speech outside the regions without slivers under 50 ms. |
| Ownership.OverlapRegionsIff | src/sastt/application/offline_pipeline.py:939-973 | Regions are separated and long enough, and a millisecond is in one exactly when it lies in a long enough stretch of evidence and bridged gaps. |
| Ownership.InLongStretchIff | src/sastt/application/offline_pipeline.py:453-486 | A millisecond is transcribed outside the regions exactly when at least 50 ms of speech without them lie around it. |
| Ownership.AtMostOneOwner | src/sastt/application/offline_pipeline.py:919-926 | Over all non-overlap slices and owned overlap slices no point has two owners, and it has one exactly where a slice was planned. |
| Ownership.OwnedIff | src/sastt/application/offline_pipeline.py:453-583 | Over a session's slices, built from the window split of padded regions, of bare regions after a retry, and from whole regions, a point never has two owners, and has one exactly when it is speech or overlap, in no sliver, and in no tail. |
| Ownership.GaplessIff | src/sastt/application/offline_pipeline.py:453-531 | Speech and overlap are owned without a gap exactly when no remaining piece is a sliver and every region's windows reach its end. |
| Ownership.WordsEmittedOnce | src/sastt/application/offline_pipeline.py:462-486 | Whatever is recognised for each source of each slice: a word with its midpoint in speech or overlap, outside slivers and tails, comes out as often as the plausible transcripts of its one slice hold it, and no other word comes out. |
| Ownership.MostOfItOwns | src/sastt/application/offline_pipeline.py:919-926 | A slice that holds more than half of a word owns it. |
| EditDistance.WordErrorRate | deploy/benchmark_report.py:12-29 | The rolling rows compute distance over reference length, with the special case of an empty reference. |
| EditDistance.NextRow | deploy/benchmark_report.py:19-28 | One row of the table from the one before. |
| EditDistance.DistanceIsMinimum | deploy/benchmark_report.py:12-29 | The computed distance is the least cost of any script of insertions, deletions and substitutions. |
| EditDistance.ScriptAtLeastDistance | deploy/benchmark_report.py:12-29 | No script is cheaper. |
| EditDistance.DistanceSymmetric | deploy/benchmark_report.py:12-29 | Symmetric. |
| EditDistance.DistanceZeroIff | deploy/benchmark_report.py:12-29 | Zero exactly for equal sequences. |
| EditDistance.Triangle | deploy/benchmark_report.py:12-29 | The triangle inequality. |
| EditDistance.DistanceBounds | deploy/benchmark_report.py:12-29 | Between the difference and the maximum of the lengths. |
| Utterances.ChunkIsTheOnlyLegal | src/sastt/application/fusion.py:256-265 | A grouping concatenates to the words, has one speaker per utterance, only forced breaks and only allowed joins, exactly when it is the one the loop finds. |
| Utterances.ChunkBreaks | src/sastt/application/fusion.py:256-265 | No utterance is empty; consecutive words share one exactly when the speaker is the same, the pause after the furthest end in it is short enough and the word before does not end a sentence. |
| Utterances.ChunkKeepsWords | src/sastt/application/fusion.py:256-265 | Utterances concatenate to the words in order. |
| Fusion.BestIsChosen | src/sastt/application/fusion.py:215-231 | The largest overlap wins; among several the previous speaker's turn if there is one, the first otherwise; nobody exactly when no turn intersects. |
| Fusion.CoalesceIsFaithful | src/sastt/application/fusion.py:238-267 | For every group the utterances concatenate to its words, ordered by time, with forced breaks; none spans two groups. |
| Fusion.WordsConserved | src/sastt/application/fusion.py:349-359 | The emitted words are the spoken words as a multiset. |
| Fusion.SegmentsNameActive | src/sastt/application/fusion.py:253-267 | Every segment names a speaker that is active in the final session state. |
| FusionAttribution.EveryWordBelongs | src/sastt/application/fusion.py:203-279 | In the final session every word is said by whom it belongs to: in a linked group the speaker linked to; a word some turn intersects, outside overlap, the first active speaker of a cluster with the largest overlap, by the rule for ties; any other word the first active provisional speaker, or the sink when there is none. |
| FusionAttribution.LinkedGroupSpeaks | src/sastt/application/fusion.py:244-245 | Every utterance of a group linked to a known speaker is said by the speaker that one resolves to. |
| FusionAttribution.OneClusterOneSpeaker | src/sastt/application/fusion.py:203-234 | Words of one cluster have one speaker. |
| FusionAttribution.SegmentsOfGroup | src/sastt/application/fusion.py:238-267 | The segments of a group are its utterances, in order. |
| FusionEngines.CoalesceSucceeds | src/sastt/application/fusion.py:250-279 | With an active speaker for every turn's cluster and known linked speakers fusion cannot fail, however full the session is; at most the sink is created. |
| FusionFailures.FusionRaisesIff | src/sastt/application/fusion.py:203-279 | Fusion raises exactly when, after everything before it, it comes to a word it cannot place: of a group linked to an unknown speaker, of a cluster nobody owns when the session is full, or with no default speaker; or an identifier for a new speaker is taken. |
| FusionEngines.FusionEngine.AttributeWord | src/sastt/application/fusion.py:203-234 | The cluster of the best turn, with its speaker found or created; full sessions refuse. |
| FusionEngines.FusionEngine.FallbackSpeaker | src/sastt/application/fusion.py:269-279 | The first provisional speaker or the sink. |
| FusionEngines.FusionEngine.Coalesce | src/sastt/application/fusion.py:238-267 | The nested loops compute the coalescing on the session's speakers; who says what is `EveryWordBelongs`. |
| FusionEngines.FusionEngine.Fuse | src/sastt/application/fusion.py:283-359 | The lost-words error is unreachable. |
| Ring.FramingIrrelevant | src/sastt/application/streaming_pipeline.py:178-194 | However the bytes are cut into frames, ring and counter end the same: the last samples of the whole stream and their number. |
| Ring.DecodeEncoded | src/sastt/application/streaming_pipeline.py:178-194 | Decoding the little-endian bytes of 16-bit samples gives the samples back, sign included. |
| Ring.WindowIsStreamSuffix | src/sastt/application/streaming_pipeline.py:263-281 | The rolling window is the end of the stream. |
| StreamingSessions.StreamingSession.Start | src/sastt/application/streaming_pipeline.py:161-176 | Starts a created session once. |
| StreamingSessions.StreamingSession.PushPcm | src/sastt/application/streaming_pipeline.py:178-203 | Refuses outside streaming and odd lengths, appends to the stream otherwise and says whether a step is due. |
| StreamingSessions.StreamingSession.WindowBuffer | src/sastt/application/streaming_pipeline.py:263-281 | The window equals the stream from the start it is labelled with. |
| StreamingSessions.StreamingSession.Process | src/sastt/application/streaming_pipeline.py:283-428 | Slices, routed regions and the new watermark of one step, the provisionals it adds, and the log and its history after publishing them and the label changes, none refused. |
| StreamingSessions.StreamingSession.Finalize | src/sastt/application/streaming_pipeline.py:210-231 | The forced last step adds its provisionals first; the finals are paired over all of them; the log and its history gain exactly the step's events, the label changes, the finals, a warning if any and the closing event, none refused; a second call changes nothing. |
| PassEvents.StepPublishes | src/sastt/application/streaming_pipeline.py:372-428 | A step adds one event per segment, if some interval closed, each with its text as a first revision, and one per label change as a second revision, and nothing else. |
| PassEvents.FinalizePublishes | src/sastt/application/streaming_pipeline.py:210-231 | Finalizing adds the events of the last step and the label changes, one event for every final with a new key, with its text and the provisional it replaces, the warning if there is one, and the closing event. |
| PassEvents.SilentFinalizePublishes | src/sastt/application/streaming_pipeline.py:210-231 | A session that never heard anything publishes the closing event and nothing else. |
| Watermark.WatermarkMonotone | src/sastt/application/streaming_pipeline.py:354-356 | The emission watermark never moves back. |
| Watermark.RunHandsOnceIff | src/sastt/application/streaming_pipeline.py:322-356 | Over a run no millisecond is handed to non-overlap transcription twice exactly when no single step hands one on twice. |
| Watermark.DisjointSpeechHandedOnce | src/sastt/application/streaming_pipeline.py:322-356 | Disjoint voice activity in every step is enough. |
| Handover.StepHandsIff | src/sastt/application/streaming_pipeline.py:322-336 | A step hands a millisecond on exactly when it lies in at least 50 ms of one closed interval of speech, behind the watermark and free of overlap. |
| Handover.RunHandsIff | src/sastt/application/streaming_pipeline.py:322-356 | The same over whole runs, with the watermark each step finds. |
| Handover.WatermarkIsLastClosed | src/sastt/application/streaming_pipeline.py:354-356 | The watermark is the last end of an interval that was closed in some step, in whatever order the ends were seen, and 0 before the first. |
| OverlapRouting.RegionDecodedOnceIff | src/sastt/application/streaming_pipeline.py:312-356 | Over a whole run a region is decoded at most once exactly when, over all steps, it meets at most one closed interval of speech behind the watermark of the step. |
| OverlapRouting.RegionDecodedIff | src/sastt/application/streaming_pipeline.py:312-356 | A region is decoded in a run exactly when in some step it is among the regions and meets a closed interval of speech behind the watermark. |
| OverlapRouting.DecodedOnceIff | src/sastt/application/streaming_pipeline.py:312-356 | Over a whole run no millisecond is decoded as overlap twice exactly when no two such meetings, of whatever steps, are of regions with a common millisecond. |
| OverlapRouting.RegionDecodedTwice | src/sastt/application/streaming_pipeline.py:334-351 | A region across a pause decoded twice: within one step, and by two steps. |
| OverlapRouting.InsideSpeechDecodedOnce | src/sastt/application/streaming_pipeline.py:334-356 | With disjoint speech and regions that each lie inside one interval of it and do not straddle the watermark, nothing is decoded twice in any run. |
| OverlapRouting.MeetsIffIntersects | src/sastt/application/streaming_pipeline.py:338-342 | For a closed interval the test whether the region is closed too never skips a region that meets it. |
| Finals.SupersededEventId | src/sastt/application/streaming_pipeline.py:540-563 | The loop finds the first best candidate, or none exactly when none is left. |
| Finals.ChoiceUnique | src/sastt/application/streaming_pipeline.py:540-563 | The rule leaves no choice. |
| Finals.PairFinals | src/sastt/application/streaming_pipeline.py:465-505 | Every final takes the best provisional the earlier finals left. |
| Finals.PairingIsInjective | src/sastt/application/streaming_pipeline.py:465-505 | No two finals replace the same provisional, and each replaces one that overlaps it. |
| DedupKeys.DedupKeyInjective | src/sastt/application/streaming_pipeline.py:566-569 | Two finals have the same dedup key exactly when they have the same times, speaker and track, whatever characters the speaker's identifier has. |
| Publication.FinalAppendedIff | src/sastt/application/streaming_pipeline.py:507-520 | A final of the pass gets an event exactly when no final of the same times, speaker and track came before it in the pass and its key is not in the log. |
| Publication.FinalEventIs | src/sastt/application/streaming_pipeline.py:507-520 | A final with a new key gets exactly one event: with its identifier, its text and its key, superseding exactly the provisional chosen for it, as second revision exactly when there is one. |
| Publication.ChosenIsSuperseded | src/sastt/application/streaming_pipeline.py:465-520 | A provisional chosen by such a final is superseded by its event and by no other of the pass. |
| Publication.EveryFinalPublishedIff | src/sastt/application/streaming_pipeline.py:507-520 | The history grows by one event per final exactly when no two finals share times, speaker and track and the log has none of their keys. |
| Publication.UnpublishedFinalIsLost | src/sastt/application/streaming_pipeline.py:465-520 | No event of the pass carries a final that got none, and the provisional it was to replace is superseded by no event of the pass. |
| Publication.SameSlotCollapses | src/sastt/application/streaming_pipeline.py:507-520 | Of two finals with the same times, speaker and track one event with the first text remains. |
| FusedFinals.TwoSentencesCollapse | src/sastt/application/fusion.py:238-267 | Two words of one group with the same times, the first ending a sentence, become two segments of which the final pass publishes the first only. |
| Publication.SupersededOnce | src/sastt/application/streaming_pipeline.py:507-520 | In the history no provisional is superseded by two of the published finals. |
| Publication.PublishAgain | src/sastt/application/streaming_pipeline.py:507-520 | Any further finals under dedup keys already published leave the log unchanged. |
| Publication.RepublishingChangesNothing | src/sastt/application/streaming_pipeline.py:507-520 | Publishing the same finals again, with other identifiers and other supersedes, leaves the log unchanged. |
| Publication.PublishKeepsLogs | src/sastt/domain/events.py:173-223 | A whole publication keeps the log the end of a history with unique keys and finals, and only extends that history. |

## Left out

- Speech recognition, voice activity, diarization, separation and embedding models, ffmpeg and CUDA: their results are inputs.
- HTTP, WebSocket, S3, PostgreSQL and Redis client plumbing, metrics, rendering, JSON Schema, hashing and identifier generation; fresh identifiers are inputs.
- Floating-point rounding, vector normalisation and logistic calibration: scores are exact reals, and the prototype is only its version.
- Model-version, duration, margin and source-quality gates of a prototype update: an update that fails one changes nothing and is not an operation of the model.
- The race between reading and writing a job's state in the PostgreSQL store, and between measuring and pushing to a full queue: each store call is one step, and whether a submission finds the queue full is arbitrary.
- The name an accepted voice-id decision stores beside the label it sets.
- Session speakers are values in a map that the methods replace; two names for one speaker object are not modelled.
- `overlap_router.py`, the configuration validators, `_pool_speech`, `overlapping_clusters` and `is_plausible_transcript`: decisions or sums that a reading of one body settles; whether a transcript is plausible, and whether a region ends up separated, retried or transcribed as a mixture, are inputs.
- The activation and model version carried by merged overlap regions, and the confidences, flags and model versions carried by segments.
- The stable order of a session's segments for publication, and splitting text into words before the word error rate.
- In the streaming session the label changes to publish are an input of a step: that they are what the session's speakers drain is said about the speakers only (`DrainedLabelsRebuild`).

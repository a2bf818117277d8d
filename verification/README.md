# Verification of the Argus evidence pipeline

A Dafny 4.11 model of the evidence pipeline in `runtime/src/argus`, with proofs of what its components promise on
every input and every run. `dafny verify dfyconfig.toml` verifies it.

An edge device posts a sequence of frames; ingestion claims its id in Redis and queues a job on a stream. The analyzer
reads the stream, scores the frames and inserts an Evidence row. The aggregator folds evidence into time-windowed
Decisions that it finds through a Redis key with an expiry, escalates them NORMAL, WEIRD, WARNING, keeps an audit trail
and dispatches notifications; watchers resolve decisions through the triage API at the same time.

## How the model is laid out

| file | models |
|---|---|
| `Domain.dfy`, `Sums.dfy` | shared vocabulary; sums and counts over sequences |
| `Lifecycle.dfy` | rows, Redis keys, messages; one serial aggregate with every call that may raise; the two halves of a resolve; runs |
| `DecisionStore.dfy` | the aggregation service and the resolve route as a class whose methods change an open transaction, keys and messages in place, each proved equal to its step in `Lifecycle` |
| `Bookkeeping.dfy`, `EvidenceTimes.dfy`, `Trail.dfy`, `Resolution.dfy`, `Escalation.dfy`, `Announcements.dfy` | invariants of every run: counters, links and keys; evidence times; the audit trail; resolution; states and notifications; announced changes |
| `Causes.dfy`, `Failures.dfy` | states traced to the thresholds and to the requests behind them; what the call that raises decides |
| `IndexRefinement.dfy`, `Windowing.dfy`, `GreedyReference.dfy` | expiring keys refine keys that never expire; the index implements greedy windowing; greedy windowing is optimal |
| `Ingestion.dfy`, `Claims.dfy`, `ActiveModes.dfy` | interleaved requests, their claims, and the active modes that they check |
| `Scheduler.dfy` | schedule activation as a nested loop over schedules and assignments, and the arithmetic modulo a week |
| `Analyzer.dfy`, `Attempts.dfy` | the stream consumer with retries and dead letters, as a protocol and as a worker class; rows, dead letters and losses traced to the attempts of the run |
| `Pipeline.dfy` | ingestion, analyzer and aggregation composed; conservation laws |
| `Notifier.dfy`, `Rooms.dfy`, `Severity.dfy` | notifications with retries; WebSocket rooms; severity scoring |
| `JsonText.dfy`, `JsonGrammar.dfy`, `StreamCodec.dfy` | JSON texts as `json.dumps` writes them and `json.loads` reads them, and from their parts; stream fields and dead letters |

Time is an integer number of microseconds. A step of a run is a total function of the state: a step that cannot happen
(a UUID used twice, a clock that stands still) changes nothing, so statements about runs hold for every sequence of
steps. Calls into Postgres, Redis, Celery, the VLM, object storage and the SMS provider that may raise are parameters of
the steps; a request or a task that raises before it has changed anything is a step that does not happen.

## What turned out false, and exactly when it holds

* Linked evidence is captured before its window ends, in every run, if and only if no tenant has a window between -299
  and -1 seconds (`Bookkeeping.LinksWithinWindowsIff`). Nothing enforces a non-negative window.
* Key expiry makes a difference to a run exactly when an aggregate comes upon a lapsed key that names a decision whose
  window still holds the evidence (`IndexRefinement.ExpiryMattersIff`). The key is the one in the run without expiry
  that matches the run: its steps are the same, except that a DELETE which fails there alone does not fail.
  Committing, such an aggregate splits the window (`IndexRefinement.LapsedKeySplitsWindow`). What matters about the
  lags between capture and aggregation is their spread, not their size or sign: all runs with lags in an interval are
  safe if and only if it is shorter than 300 s, or no tenant sets keys at all (`IndexRefinement.LagBoundIff`).
* The windows of a (tenant, camera, region) strictly increase in the order in which they open, throughout a run, if
  and only if no step commits a new decision for evidence that an earlier window still holds
  (`Windowing.WindowsIncreaseIffNoSplit`), as one does after the open key is lost (`Windowing.LostKeySplitsWindow`) or
  has lapsed too soon (`IndexRefinement.SpreadOf300SecondsSplitsWindow`). With a usable window, one that is not negative
  or too short to set a key, a run has no such step if it leaves the key never without its decision and comes upon it
  never lapsed too soon (`Windowing.KeptKeySplitsNothing`).
* Aggregating linked evidence again is without effect if and only if its decision is unresolved
  (`Escalation.RepeatIsIdleIffUnresolved`): a resolved decision goes back to a computed state, with a new audit record
  (`Escalation.RepeatReopensResolved`).
* Claims are exactly those of their holders throughout a run if and only if no release deletes a live claim after the
  claim of its own request has run out (`Claims.ClaimsSoundIffNoTheft`). A release that does lets two requests own one
  id (`Claims.LateReleaseBreaksOwnership`).
* A done message is in exactly one of Evidence and the dead-letter stream if and only if none of the run's attempts of
  it failed after its commit (`Analyzer.DoneInOnePlaceIff`). When the acknowledgement or the dispatch raises after the
  evidence has been committed, the retries can only fail on the unique constraint: the message ends in both places, or
  is lost when a retry, the dead letter or its acknowledgement raises too, and its evidence is never aggregated
  (`Analyzer.AckFailureDuplicates`, `Analyzer.SpoiltEvidenceIsNeverDispatched`).
* The counters of the subjects are their registered sockets throughout a run if and only if no disconnect comes for a
  socket that has left its room already while its subject's counter is above zero (`Rooms.CountersExactIffNoSpare`). A
  broadcast that finds a socket dead, followed by the socket's own handler, is such a disconnect. The limit of five
  can be exceeded from then on if and only if such disconnects outnumber the subject's disconnects that only emptied
  the room (`Rooms.LimitCanBeExceededIff`); six sockets are registered in `Rooms.DoubleDisconnectBreaksLimit`.
* Decoding stream fields twice is decoding them once if and only if neither JSON field is a text that starts, after
  white space, with a quote or with null (`StreamCodec.DecodeTwiceIff`).
* Raising a field never lowers the rule score, but it can lower the severity, with no weight gained before and a
  smaller score afterwards: because a rule that starts to match takes the fallback away
  (`Severity.RuleFieldLowersScoreIff`), because the suspicion itself changes (`Severity.SuspicionLowersScoreIff`), or
  because the hint does (`Severity.ConfidenceLowersScoreIff`, `Severity.SeverityHintLowersScoreIff`): a float gives
  way to an integer, as when 0.9 is raised to 1 (`Severity.RaisingCanLowerScore`), a text to one of a smaller number,
  as when "10" is raised to "9" (`Severity.RaisingTextCanLowerScore`), or one of the two hints to the other.

## Model

| member | source | states |
|---|---|---|
| DecisionStore.Store.Aggregate | runtime/src/argus/services/aggregation.py:26-49 | One aggregate as it runs: the rows become exactly those of the committed step or are rolled back whichever call raises, while keys and messages written before the failure stay; the reply names the decision or the failure. |
| DecisionStore.Store.MergeOrCreateDecision | runtime/src/argus/services/aggregation.py:51-86 | A decision found through the open key takes the evidence if its window has not ended; otherwise a stale key is deleted, a decision is created and the key set, in that order, up to the call that raises. |
| DecisionStore.Store.CreateDecision | runtime/src/argus/services/aggregation.py:88-110 | The new row: NORMAL, zero counters, a window that starts at the capture time and has the tenant's length. |
| DecisionStore.Store.LinkEvidence | runtime/src/argus/services/aggregation.py:112-138 | A pair that is linked already changes nothing; a new one adds the link and moves the counters and evidence times. |
| DecisionStore.Store.ApplyStateTransitions | runtime/src/argus/services/aggregation.py:140-165 | An unchanged state writes nothing; a changed one updates the row, appends its audit record with the counters at that moment and announces it. If no call raises, the row is in WARNING exactly if its severity reaches the tenant's warning threshold, and else in WEIRD exactly if its count reaches the weird threshold. |
| DecisionStore.Store.EmitStateChange | runtime/src/argus/services/aggregation.py:174-206 | The socket event, the domain event and, for WARNING only, the notification, up to the call that raises. |
| DecisionStore.Store.ReadResolve | runtime/src/argus/api/triage/decisions.py:117-135 | Not found, wrong tenant, stale version and already resolved are refused in this order; an accepted check becomes a pending resolve. |
| DecisionStore.Store.CommitPending | runtime/src/argus/api/triage/decisions.py:137-176 | The resolve commits its row, feedback and audit record together, exactly if no call raises and there is no feedback row yet; otherwise no row changes. Committed, the state is the resolved one of the requested disposition. |
| Bookkeeping.AggregateIsTransactional | runtime/src/argus/services/database.py:67-80 | Whatever raises inside an aggregate, the rows are those of the complete step or untouched. |
| Bookkeeping.AggregateMovesOneKey | runtime/src/argus/services/aggregation.py:63-84 | In Redis an aggregate deletes or sets at most the evidence's own key, and a set key names the decision it created, committed or not. |
| Bookkeeping.CommittedShape | runtime/src/argus/services/aggregation.py:45-49 | A committed aggregate touches its own decision only, which keeps its key, window and resolution fields, and adds at most its own link. |
| Bookkeeping.NextKeepsIdentity | runtime/src/argus/services/aggregation.py:96-107 | A decision keeps its tenant, camera, region and window for life. |
| Bookkeeping.BooksAlwaysBalance | runtime/src/argus/services/aggregation.py:51-138 | In every run of aggregates, resolves, expiries, lost keys and rollbacks: evidence_count is the number of links, cumulative_severity their total severity, links stay within one (tenant, camera, region), and every open key is dangling or names a decision of exactly that key. |
| Bookkeeping.LinksStayWithinWindows | runtime/src/argus/services/aggregation.py:73-84 | With usable windows no run links evidence captured after its decision's window. |
| Bookkeeping.NegativeWindowBreaksBound | runtime/src/argus/services/aggregation.py:95 | A concrete run with a window between -299 and -1 seconds that links evidence outside its own window. |
| Bookkeeping.LinksWithinWindowsIff | runtime/src/argus/services/aggregation.py:79-83 | Linked evidence is within its window in every run if and only if every tenant's window is non-negative or too short to set a key. |
| Trail.AuditReplayReconstructsState | runtime/src/argus/services/aggregation.py:147-164 | In every reachable world, replaying a decision's audit records from NORMAL gives its state; each state change starts from the state replayed before it, differs from it, and is the one its recorded counters compute. |
| EvidenceTimes.EvidenceTimesFollowLinks | runtime/src/argus/services/aggregation.py:94-138 | In every reachable world first_evidence_at is the start of the decision's window and last_evidence_at the capture time of the evidence linked last, also with late arrivals. |
| Announcements.CommittedChangesAreAnnounced | runtime/src/argus/services/aggregation.py:153-201 | In every run committed aggregates have sent, in order, exactly what the audit trail's state changes call for: for each one socket event, then one domain event with the same states and, for a change to WARNING, then one notification; messages of aggregates that were rolled back are extra. |
| Causes.StateFollowsLinkedEvidence | runtime/src/argus/services/aggregation.py:167-172 | In every run a decision is in a resolved state, or in WARNING exactly if the total severity of its linked evidence reaches the tenant's warning threshold, else in WEIRD exactly if the number of links reaches the weird threshold, else NORMAL; without feedback it is in no resolved state. |
| Causes.ChangesAreCaused | runtime/src/argus/services/aggregation.py:147-165 | In every run each recorded state change carries number and total severity of the evidence that had been linked at some moment, and its target is the state to which the thresholds lead these. |
| Causes.ResolvesWereRequested | runtime/src/argus/api/triage/decisions.py:117-169 | In every run what is pending, every feedback row with resolved_at and resolved_by, and every message of a resolve go back to a request of the decision's own tenant that had seen the row as it was, in no resolved state; the message names the state of the requested disposition, and every feedback row has been told of. |
| Causes.ResolvedStateIsDisposition | runtime/src/argus/api/triage/decisions.py:31-35 | In every run a decision in a resolved state has feedback, and each of the three dispositions goes with its own state. |
| Causes.OtherTenantsSeeNothing | runtime/src/argus/api/triage/decisions.py:117-119 | To another tenant the reply is the one for a decision that does not exist. |
| Causes.RefusalsIff | runtime/src/argus/api/triage/decisions.py:121-135 | In every run a request of the decision's tenant is stale exactly if the row has changed since it was seen, whatever its state; of an unchanged row it is refused as resolved or accepted. |
| Failures.AggregateCommitsIff | runtime/src/argus/services/aggregation.py:26-86 | An aggregate commits exactly if evidence and tenant exist, a new decision can have a key, and the call that is planned to raise is none that this aggregate gets to. |
| Failures.AggregateSends | runtime/src/argus/services/aggregation.py:174-206 | An aggregate has sent exactly the messages before the call that raises: none, the socket event, both events, or all. |
| Failures.AggregateLeavesKey | runtime/src/argus/services/aggregation.py:63-84 | The looked-up key after an aggregate, committed or not: unchanged, deleted because its decision is closed, or set to the new decision for the window plus 300 s. |
| Failures.ResolveCommitsIff | runtime/src/argus/api/triage/decisions.py:137-169 | A resolve changes rows exactly if no call raises and it is the first, and is told of exactly if flush and publish do not raise. |
| Resolution.ResolvedAtMostOnce | runtime/src/argus/api/triage/decisions.py:117-158 | With any number of resolves between check and commit and aggregates in between, a decision has one feedback row, one "resolved" record of the same disposition and actor and resolved_at/resolved_by set, or none of these. |
| Resolution.ResolutionIsFinal | runtime/src/argus/api/triage/decisions.py:137-150 | Once committed, the feedback row and resolved_at/resolved_by never change. |
| Resolution.VersionsOnlyGrow | runtime/src/argus/domain/models/__init__.py:346-351 | A decision's updated_at never goes back, and a row that has changed has a later one. |
| Resolution.AcceptedCheckSawTheRow | runtime/src/argus/api/triage/decisions.py:121-125 | A check that accepts an updated_at seen earlier reads exactly the row that was seen. |
| Escalation.EscalationIsBounded | runtime/src/argus/services/aggregation.py:140-172 | With non-negative severities a decision has over its life at most 2 + resolves state changes and 1 + resolves committed notifications, resolves being 0 or 1. |
| Escalation.UnresolvedOnlyMovesUp | runtime/src/argus/services/aggregation.py:167-172 | With non-negative severities a decision that is not resolved only moves up NORMAL, WEIRD, WARNING. |
| Escalation.NoticesAlwaysMatch | runtime/src/argus/services/aggregation.py:203-206 | Committed notifications of a decision and its committed changes to WARNING are equal in number. |
| Escalation.RepeatIsIdleIffUnresolved | runtime/src/argus/services/aggregation.py:118-150 | In every run, aggregating linked evidence again through its key changes no row, key or message if and only if the decision is unresolved. |
| Escalation.RepeatReopensResolved | runtime/src/argus/services/aggregation.py:118-150 | A run in which a decision is opened, resolved by a watcher and, when its one linked evidence is aggregated again, taken out of the resolved state with one more audit record, its feedback and resolution columns still set. |
| IndexRefinement.ExpiryMattersIff | runtime/src/argus/services/aggregation.py:57-84 | A run with expiring keys and the matching run without expiry (the same steps, except that a DELETE which fails there alone does not fail) agree throughout (rows, messages, pending resolves, UUIDs given out, keys not expired) if and only if no aggregate that looks up its key comes, in the run without expiry, upon one that has lapsed and names a decision whose window still holds the evidence. |
| IndexRefinement.LapsedKeySplitsWindow | runtime/src/argus/services/aggregation.py:63-84 | An aggregate that comes upon such a key and commits gives the run one decision more than the matching run without expiry has. |
| IndexRefinement.PromptRunsAreOnTime | runtime/src/argus/services/aggregation.py:79-83 | If the lags between capture and aggregation, of either sign, spread over less than 300 s, no aggregate of the run comes upon such a key. |
| IndexRefinement.ExpiringIndexRefinesForever | runtime/src/argus/services/aggregation.py:57-84 | With lags that spread over less than 300 s a run with expiring keys has the same rows, messages and pending resolves as the run with keys that never expire; only a DELETE that fails in a run that need not delete is matched by one that does not. |
| IndexRefinement.LagBoundIff | runtime/src/argus/services/aggregation.py:79-83 | The bound is exact: expiry leaves the rows of all runs with lags in an interval alone if and only if the interval is shorter than 300 s or no tenant's window is long enough to set a key. |
| IndexRefinement.SpreadOf300SecondsSplitsWindow | runtime/src/argus/services/aggregation.py:79-83 | For any tenant that sets keys and any least lag, a run whose two lags are exactly 300 s apart, with two decisions where keys without expiry give one. |
| Windowing.WindowsIncreaseIffNoSplit | runtime/src/argus/services/aggregation.py:73-107 | In every run, with keys that expire or that do not, whatever is lost or fails and whatever the sign of the window: the windows of a key strictly increase in the order of opening, throughout, if and only if no step commits a new decision for evidence that an earlier window of the key still holds. |
| Windowing.DecisionsAlwaysOpened | runtime/src/argus/services/aggregation.py:94-107 | In every run each decision has links, and its window starts at the capture time of the evidence linked to it first. |
| Windowing.KeptKeySplitsNothing | runtime/src/argus/services/aggregation.py:57-86 | With a usable window of the tenant, a run that leaves the key never without its decision (and, if keys expire, comes upon it never lapsed too soon) splits no window of the key, and the key names its latest decision. |
| Windowing.LostKeySplitsWindow | runtime/src/argus/services/aggregation.py:57-86 | For any tenant that sets keys, a run in which the open key is lost and the next evidence of the window splits it. |
| Windowing.NoSmallerCovering | runtime/src/argus/services/aggregation.py:94-107 | When the windows of a key increase, no set of window-length intervals that covers the capture times is smaller than the set of decisions, in whatever order the evidence arrived. |
| Windowing.InOrderWindowsCover | runtime/src/argus/services/aggregation.py:73-84 | With in-order arrivals, and links within the windows of the key's tenant, the decisions' windows cover every capture time. |
| Windowing.GreedyWindowingIsOptimal | runtime/src/argus/services/aggregation.py:73-107 | After every run that splits no window of the key, with keys that expire and with keys that do not, windows are pairwise disjoint and no more than those of any covering; in order, and with a usable window of the tenant, they are a covering themselves, so their number is the minimum. |
| GreedyReference.IndexImplementsGreedyWindowing | runtime/src/argus/services/aggregation.py:57-107 | In every run that splits no window of the key the index over Redis computes, throughout, greedy windowing as defined on the sequence of arrivals alone: who shares a decision with whom, and which windows open. With a usable window of the tenant it does so only in such runs. |
| GreedyReference.ExpiringIndexIsGreedyAndOptimal | runtime/src/argus/services/aggregation.py:57-107 | For the run as it happens and a usable window: if it leaves the key never without its decision and comes upon it never lapsed too soon, placement is the reference's, every decision is that of an arrival, no covering is smaller and, in order, the windows are a minimum covering. |
| Ingestion.IngestionService.SetKeyNx | runtime/src/argus/services/redis.py:41-43 | SET NX with an expiry: unless the call raises, it succeeds exactly if no live key is there; only then the key is set. |
| Ingestion.IngestionService.ValidateUploadEnqueue | runtime/src/argus/services/ingestion.py:45-59 | The mode check, the upload and the enqueue raise in this order; the job is queued exactly if none does. |
| Ingestion.IngestionService.AcceptSequence | runtime/src/argus/services/ingestion.py:26-68 | A request that runs alone has exactly the effect of the protocol's steps and ends mismatched, duplicate, queued, failed with no claim of its own left, or stranded with it. |
| Ingestion.SoloRunEffect | runtime/src/argus/services/ingestion.py:31-68 | The effect of a request's steps run one after the other, in every outcome. |
| Ingestion.SoloRequestEndsIff | runtime/src/argus/services/ingestion.py:26-109 | When a request that runs alone is mismatched, a duplicate, queued, failed for want of an active mode or for another one, or stranded: each exactly on a condition on its token, the claims, the modes and the calls that raise. |
| Claims.ClaimsSoundIffNoTheft | runtime/src/argus/services/ingestion.py:38-62 | For any interleaving, the claims are sound throughout (live ones are exactly their holders', an id has one owner) if and only if no release deletes a live claim after the claim of its own request has run out. |
| Claims.LiveClaimsAreExact | runtime/src/argus/services/ingestion.py:34-62 | In a run without such a release, the live claims are exactly those of requests in flight, queued within the lifetime, or stranded, and an id has one owner. |
| Claims.QueuedAtMostOncePerLifetime | runtime/src/argus/services/ingestion.py:38-43 | In a run without such a release, two jobs of one ingestion id come from claims at least a lifetime apart. |
| Claims.FailedOwnerCanRetry | runtime/src/argus/services/ingestion.py:45-68 | After a failed owner's release the live claims are exactly those of the other requests and the stream is as it was; a retry without failures then queues exactly one job, and owns the id, exactly if the requested mode is the camera's active one. |
| Claims.LateReleaseBreaksOwnership | runtime/src/argus/services/ingestion.py:60-61 | A run in which such a release lets two requests own one id. |
| Claims.StreamAlwaysSound | runtime/src/argus/services/ingestion.py:48-59 | In every run the stream's jobs are those of the requests that ended queued, one each. |
| Claims.DuplicatesHaveAnOwner | runtime/src/argus/services/ingestion.py:34-43 | In every run, whatever releases delete, a claim was taken by a request of its tenant and id and lasts 86400 s from then, and a request is a duplicate only if another one of the same tenant and id took the id less than 86400 s before. |
| Claims.CallsWereBegun | runtime/src/argus/services/ingestion.py:70-85 | In every run a call goes back to the step that began it, and is mismatched exactly if its token is of another tenant or camera. |
| ActiveModes.QueuedModesAreJustified | runtime/src/argus/services/ingestion.py:87-109 | Every queued sequence's mode was set for its camera by a pass less than 86400 s before the check, at which an active schedule of the assigned mode existed, also if passes are cut short. |
| ActiveModes.ModeIsSetIffRecentlySet | runtime/src/argus/workers/scheduler.py:72-84 | With the assignment unchanged, a camera's mode is set exactly if a pass of the last 86400 s found an active schedule and set it before any SET of the pass raised, and it is the assigned mode. |
| ActiveModes.ModeStaysSetThroughWindow | runtime/src/argus/workers/scheduler.py:77-84 | From a pass inside a window that sets the mode to the window's end the mode stays set, whatever passes follow, cut short or not. |
| ActiveModes.RunModesComeFromTicks | runtime/src/argus/workers/scheduler.py:82-83 | The mode map of a run of requests and passes is that of its passes alone. |
| Scheduler.ActiveIffInCyclicInterval | runtime/src/argus/workers/scheduler.py:66-75 | The day branches and the time check hold exactly if the time since opening, modulo a week, is at most the schedule's length, over midnight and from Sunday to Monday too. |
| Scheduler.ActiveTicksPerWeek | runtime/src/argus/workers/scheduler.py:32-35 | A schedule is active for exactly its length plus one ticks of every week. |
| Scheduler.ModeScheduler.ActivateScheduledModes | runtime/src/argus/workers/scheduler.py:47-91 | A complete pass overrides the mode map at exactly the activated cameras and returns the number of matching (schedule, assignment) pairs; one whose SET raises leaves exactly the cameras set before it and returns nothing. |
| Scheduler.ActivatedIffCovered | runtime/src/argus/workers/scheduler.py:60-83 | An assignment is activated exactly if some schedule of its mode, without a market or of the camera's own, has opened no longer ago than its length, modulo a week, on the clock of its market or else in UTC. |
| Scheduler.SettingsAre | runtime/src/argus/workers/scheduler.py:60-84 | The SETs of a complete pass, in order, are one for every matching pair, and together those of the activated assignments: the prefix that a pass cut short reaches is one of these. |
| Scheduler.OverriddenIsUnique | runtime/src/argus/workers/scheduler.py:82-83 | With one assignment per camera the resulting mode map is determined by the old one and the set of activated assignments. |
| Scheduler.PassIgnoresOrder | runtime/src/argus/workers/scheduler.py:60-91 | Permuting schedules and assignments changes neither the count nor the activated assignments of a complete pass and, for a valid configuration, not the resulting mode map; the permuted configuration is valid too. |
| Analyzer.Worker.ProcessIngestStreamBatch | runtime/src/argus/workers/vlm_analyzer.py:73-86 | A batch of at most ten messages is delivered; when queueing one raises, it and the rest of the batch are delivered but dropped. |
| Analyzer.Worker.AnalyzeMessage | runtime/src/argus/workers/vlm_analyzer.py:136-157 | The row is inserted unless (tenant, ingestion_id) is taken; acknowledgement and dispatch follow it, and the analysis raises if any of them does. |
| Analyzer.Worker.AnalyzeIngestMessage | runtime/src/argus/workers/vlm_analyzer.py:61-70 | One execution is exactly the protocol's attempt: done, retried, dead-lettered and acknowledged after the last retry, or lost when queueing the retry, the dead letter or the acknowledgement raises. |
| Analyzer.AlwaysSound | runtime/src/argus/workers/vlm_analyzer.py:53-157 | In every run no two Evidence rows share an id, a message or (tenant, ingestion_id); a message is attempted at most four times; done, it is acknowledged and in Evidence or the dead-letter stream, in both exactly if an attempt failed after its commit. |
| Analyzer.AttemptsRunOut | runtime/src/argus/workers/vlm_analyzer.py:53-60 | Every attempt lowers the total of remaining attempts. |
| Analyzer.DoneInOnePlaceIff | runtime/src/argus/workers/vlm_analyzer.py:136-157 | In every run a done message is acknowledged, and in exactly one of Evidence and the dead-letter stream if and only if no step of the run is an attempt of it that failed after its commit. |
| Analyzer.DoneMessagesAreInOnePlace | runtime/src/argus/workers/vlm_analyzer.py:136-157 | Without failures after a commit a done message is acknowledged and in exactly one of Evidence and the dead-letter stream, and nothing else is in Evidence. |
| Analyzer.SpoiltIff | runtime/src/argus/workers/vlm_analyzer.py:136-157 | The spoilt messages are exactly those of which an attempt of the run committed its row and failed afterwards. |
| Analyzer.SpoiltEvidenceIsNeverDispatched | runtime/src/argus/workers/vlm_analyzer.py:152-156 | A row is dispatched to aggregation exactly if no attempt of its message in the run failed after its commit. |
| Analyzer.AckFailureDuplicates | runtime/src/argus/workers/vlm_analyzer.py:61-69 | A run in which one failed acknowledgement puts a message into Evidence and on the dead-letter stream, never dispatched. |
| Attempts.RowsComeFromAttempts | runtime/src/argus/workers/vlm_analyzer.py:134-150 | Every Evidence row is that of an attempt of its message in the run, with the id and the score of the attempt. |
| Attempts.CommittedAttemptsAreKept | runtime/src/argus/workers/vlm_analyzer.py:136-150 | After an attempt that gets to its commit, Evidence has a row of its message's tenant and ingestion, for good. |
| Attempts.AcknowledgedIsKept | runtime/src/argus/workers/vlm_analyzer.py:61-70 | In every run an acknowledged message is in Evidence or on the dead-letter stream, a message has at most four attempts, and a dead-lettered one exactly four. |
| Attempts.GivenUpIff | runtime/src/argus/workers/vlm_analyzer.py:53-86 | In every run a message is dropped exactly if it was delivered behind a task that could not be queued, and lost exactly if an attempt failed whose retry could not be queued or, for the fourth, whose dead letter or its acknowledgement failed. |
| Attempts.EndsIff | runtime/src/argus/workers/vlm_analyzer.py:61-70 | In every run a message is on the dead-letter stream exactly if its fourth attempt failed and wrote it there, and acknowledged exactly if an attempt that inserted its row, or wrote that dead letter, could acknowledge it. |
| Pipeline.AlwaysSound | runtime/src/argus/workers/vlm_analyzer.py:89-157 | In every run of the composed pipeline the messages are the queued jobs, the database's evidence is the analyzer's rows with their jobs' fields, and the links are those of the aggregated evidence, each once. |
| Pipeline.QueuedIsConserved | runtime/src/argus/workers/vlm_analyzer.py:61-86 | In every run: queued jobs + spoilt messages = waiting + in flight + dropped + lost without a dead letter + dead letters + Evidence rows. |
| Pipeline.SmoothRunsConserveQueued | runtime/src/argus/services/ingestion.py:45-59 | With failures only before the evidence commit: queued jobs = waiting + in flight + dead letters + Evidence rows. |
| Pipeline.EvidenceIsAnalysed | runtime/src/argus/workers/vlm_analyzer.py:89-150 | In every run an Evidence row is that of a queued job of its tenant and ingestion, and the stored evidence has the job's tenant, camera, region and capture time and the score of the row. |
| Pipeline.EvidenceIsConserved | runtime/src/argus/services/aggregation.py:118-138 | In every run, over all decisions, the evidence counts sum to the number and the cumulative severities to the total of the analyzer's scores of the evidence aggregated so far, each piece aggregated once. |
| Pipeline.LinkedEvidenceWasQueued | runtime/src/argus/services/aggregation.py:96-107 | All evidence linked to a decision stems from a queued job for the decision's own tenant, camera and region. |
| Notifier.NotificationWorker.Attempt | runtime/src/argus/workers/notifier.py:31-79 | One attempt: rows are added PENDING, sent in order and marked SENT; the first failure rolls all of them back, the calls made stay made. |
| Notifier.NotificationWorker.NotifyWarning | runtime/src/argus/workers/notifier.py:20-28 | The attempts of a notification: up to three retries, ending with the first that succeeds. |
| Notifier.NotifyIsAllOrNothing | runtime/src/argus/workers/notifier.py:49-78 | When all attempts fail no delivery row is left; otherwise there is exactly one SENT row per active configuration, on its channel and with the id that the provider gave in one of the attempts. |
| Notifier.NotifySucceedsIff | runtime/src/argus/workers/notifier.py:20-28 | A notification succeeds exactly if in one of its attempts the decision is found, no database call fails, and the provider answers for every listed configuration. |
| Notifier.CommittedRowsAreSent | runtime/src/argus/services/database.py:75-80 | Over any series of notifications no PENDING or FAILED row is ever committed. |
| Notifier.AttemptSendsPrefix | runtime/src/argus/workers/notifier.py:49-76 | An attempt calls the provider for a prefix of the listed configurations, every call but the last was answered, and all are called exactly if every row is flushed and no call but the last raises. |
| Notifier.CallsGoToActiveConfigs | runtime/src/argus/workers/notifier.py:38-69 | Over any series of notifications the provider is called only for active configurations of the decision's tenant, on the configuration's channel. |
| Notifier.SendsAreBounded | runtime/src/argus/workers/notifier.py:38-47 | An active configuration is called at most once per attempt, and at least once if the notification succeeds; any other is never called. |
| Notifier.NoConfigCalledMoreThanFourTimes | runtime/src/argus/workers/notifier.py:25 | No configuration is called more than 1 + max_retries = 4 times. |
| Rooms.ConnectionManager.ConnectSocket | runtime/src/argus/ws/gateway.py:21-30 | A subject at its limit is refused, an accept that raises changes nothing, otherwise the socket joins its tenant's room, is counted and tagged. |
| Rooms.ConnectionManager.DisconnectSocket | runtime/src/argus/ws/gateway.py:32-39 | The socket leaves its room if it is in it, and its subject's counter goes down if it is above zero, whether or not the socket was in the room. |
| Rooms.ConnectionManager.Broadcast | runtime/src/argus/ws/gateway.py:41-53 | With no connect or disconnect beside it, exactly the connected sockets that took the payload stay in the room, the others are disconnected once each, and no other room changes. |
| Rooms.DisconnectsEmptyRooms | runtime/src/argus/ws/gateway.py:52-53 | Whatever disconnects happen, in any order and however often, a named room loses exactly the sockets disconnected. |
| Rooms.AlwaysSound | runtime/src/argus/ws/gateway.py:21-39 | In every run a socket is in its own tenant's room only; counters stay between 0 and 5 and, for a non-empty subject, never above its registered sockets. |
| Rooms.RoomsAreExclusive | runtime/src/argus/ws/gateway.py:26-29 | A socket is in at most one room, that of the tenant it was accepted for. |
| Rooms.InRoomIff | runtime/src/argus/ws/gateway.py:21-37 | In every run a socket is in a tenant's room exactly if a connect to that tenant was accepted with its subject's counter below five and no disconnect of the socket has come since. |
| Rooms.CountersExactIffNoSpare | runtime/src/argus/ws/gateway.py:36-39 | Counters equal the registered sockets throughout a run if and only if no disconnect comes for a socket that has left its room while its subject's counter is above zero. |
| Rooms.RegisteredIsCounterPlusDrift | runtime/src/argus/ws/gateway.py:32-39 | In every run a subject's registered sockets number its counter plus its drift: disconnects that only lowered the counter less those that only emptied the room; the drift of a non-empty subject is never negative. |
| Rooms.LimitCanBeExceededIff | runtime/src/argus/ws/gateway.py:21-39 | After any run, connects alone can register more than five sockets of a subject if and only if its drift is above zero. |
| Rooms.AtMostFiveRegistered | runtime/src/argus/ws/gateway.py:12-24 | A run without a disconnect that lowers the counter of a socket that has left its room never has more than five registered sockets of a subject. |
| Rooms.DoubleDisconnectBreaksLimit | runtime/src/argus/ws/gateway.py:38-39 | A run with one socket disconnected twice, after which six sockets of a subject are registered. |
| JsonText.LoadsUndoesDumps | runtime/src/argus/services/redis.py:51 | Reading the text that json.dumps writes gives the value back, for every JSON value: escapes, surrogate pairs, numbers, NaN and infinities, nested lists and dicts in their order. |
| JsonGrammar.DumpsIsText | runtime/src/argus/services/redis.py:51 | json.dumps writes the text put together from those of the parts, with ", " and ": " between them. |
| JsonGrammar.EscapedIs | runtime/src/argus/services/redis.py:51 | In strings a character is written by its short escape, as printable ASCII, or as the \u escapes, in four lower-case hexadecimal digits, of its UTF-16 code units. |
| JsonGrammar.TextIsPrintable | runtime/src/argus/services/redis.py:51 | Whatever strings hold, the text is printable ASCII. |
| StreamCodec.ParseStreamFields | runtime/src/argus/workers/vlm_analyzer.py:167-177 | The loop over the two JSON fields decodes texts, defaults missing or empty ones, leaves other values, and raises exactly if a text is no JSON; a falsy region becomes empty. |
| StreamCodec.DecodedFields | runtime/src/argus/workers/vlm_analyzer.py:167-177 | Missing frame URIs become an empty list, missing trigger metadata an empty dict, a region that counts as false an empty text; texts of the first two are read as JSON, all else stays, and it raises exactly on a text that is no JSON. |
| StreamCodec.ScalarTexts | runtime/src/argus/services/redis.py:51 | Of the scalars that xadd stores as texts only a finite number is a JSON text, of itself. |
| StreamCodec.DecodeUndoesEncode | runtime/src/argus/services/redis.py:50-52 | Decoding what xadd encodes returns the original job, for every event. |
| StreamCodec.DeadLetterDecodesToJob | runtime/src/argus/services/redis.py:76-80 | A dead letter without its error is the message as delivered and decodes to the job that was queued. |
| StreamCodec.DecodeTwiceIff | runtime/src/argus/workers/vlm_analyzer.py:167-177 | Decoding twice is decoding once if and only if neither JSON field is a text that starts, after white space, with a quote or with null. |
| StreamCodec.DecodeTwiceDiffers | runtime/src/argus/workers/vlm_analyzer.py:171-172 | A frame_uris text for which decoding twice differs. |
| Severity.ComputeSeverityScore | runtime/src/argus/services/lens_builder.py:74-100 | The loop returns the sum of the weights of the matching rules or, when that is zero and the result suspicious, the fallback; it raises exactly if a comparison or conversion does. Values are those of JSON: lists, dicts, NaN and infinities too; products of floats are rounded by any given rounding. |
| Severity.EqMatchesIff | runtime/src/argus/services/lens_builder.py:88-97 | An eq condition on a scalar matches exactly numbers of one value (True and False counting as 1 and 0), infinities of one sign, the same text, or None and a missing field; a NaN matches nothing. |
| Severity.GteMatchesIff | runtime/src/argus/services/lens_builder.py:98-99 | A gte condition on a scalar matches exactly a number no less, or a text no less where the two first differ; None and a missing field never match, other kinds raise, and a NaN compares to nothing. |
| Severity.FirstDifferenceDecides | runtime/src/argus/services/lens_builder.py:98-99 | Lists compare by their first items that are not equal, or else by their lengths. |
| Severity.OddConditions | runtime/src/argus/services/lens_builder.py:88-100 | A field that is a list or a dict raises whatever the operator, and an operator of another name never matches. |
| Severity.SuspicionRuleScores | runtime/src/argus/services/lens_builder.py:92-97 | The rule that `suspicious` be true gives its weight to results whose is_suspicious is true, and nothing to those where it is false. |
| Severity.FallbackScores | runtime/src/argus/services/lens_builder.py:79-85 | Without weight a suspicious result scores its severity hint or, if that counts as false, its confidence or else one: an integer as it is, a text as int() reads it, a float three times, rounded down and at least one; None, NaN, infinities, lists and dicts raise. |
| Severity.TruthyIff | runtime/src/argus/services/lens_builder.py:79-80 | The values that count as false are None, False, the zeros, and the empty text, list and dict. |
| Severity.TruncatedIsTowardsZero | runtime/src/argus/services/lens_builder.py:82 | int() of a float is the nearest integer that is no farther from zero. |
| Severity.IntUndoesStr | runtime/src/argus/services/lens_builder.py:84 | int() of a hint reads back every integer that Python writes with at most 4300 digits. |
| Severity.LongNumberRaises | runtime/src/argus/services/lens_builder.py:84 | int() raises of a text of more than 4300 digits. |
| Severity.SpaceIsStripped | runtime/src/argus/services/lens_builder.py:84 | White space before or behind a number text makes no difference, to its number or to whether it raises. |
| Severity.UnderscoreIsSkipped | runtime/src/argus/services/lens_builder.py:84 | Nor does a single underscore between digits make one to the number. |
| Severity.ScoreIgnoresOrder | runtime/src/argus/services/lens_builder.py:76-78 | The score does not depend on the order of the rules. |
| Severity.RuleScoreAdds | runtime/src/argus/services/lens_builder.py:75-78 | The rule score of a concatenation is the sum of the rule scores, and raises exactly if either does. |
| Severity.RuleScoreIsMonotone | runtime/src/argus/services/lens_builder.py:88-100 | With non-negative weights, raising a field that only gte conditions use never lowers the rule score. |
| Severity.RaisingCanLowerScore | runtime/src/argus/services/lens_builder.py:79-85 | Without any rule, raising the confidence from 0.9 to the integer 1 lowers the severity. |
| Severity.RaisingTextCanLowerScore | runtime/src/argus/services/lens_builder.py:79-85 | Without any rule, raising the severity hint from "10" to "9" lowers the severity. |
| Severity.RuleFieldLowersScoreIff | runtime/src/argus/services/lens_builder.py:74-100 | Raising a field that only rules read lowers the severity if and only if it gains the first weight of a suspicious result and that weight is less than the fallback was. |
| Severity.SuspicionLowersScoreIff | runtime/src/argus/services/lens_builder.py:79-85 | The exact condition for raising is_suspicious: a smaller weight, a positive fallback lost, or a negative one brought in, with no weight before. |
| Severity.ConfidenceLowersScoreIff | runtime/src/argus/services/lens_builder.py:79-85 | The exact condition for raising confidence_score: no weight before, and a smaller weight gained or, without severity_hint, an integer below one where no confidence was, or a confidence raised to less. |
| Severity.SeverityHintLowersScoreIff | runtime/src/argus/services/lens_builder.py:79-85 | The exact condition for raising severity_hint: no weight before, and a smaller weight gained, a hint raised to less, a hint that takes the place of a confidence that scores more, or a negative hint that, raised to zero, gives way to a confidence that is an integer below its score. |
| Severity.RaisedHintScoresLessIff | runtime/src/argus/services/lens_builder.py:81-84 | A number or text that is raised scores less as a hint if and only if a float gives way to an integer below the float's score, or a number text to one of a smaller number. |
| Severity.RaisedNumeralIsLessIff | runtime/src/argus/services/lens_builder.py:84-99 | Of two numerals the larger as a text is the smaller number if and only if it is shorter. |
| Severity.NegativeScoreIff | runtime/src/argus/services/lens_builder.py:79-85 | With non-negative weights the severity is negative exactly if no weight is gained and the fallback converts a negative hint. |
| Severity.ConfidenceScores | runtime/src/argus/services/lens_builder.py:79-82 | A suspicious result without rule weight and with a float hint in [0, 1] scores between 1 and 3 under every rounding that keeps the order and small integers: 3, 2 or 1 by what three times the hint rounds to. |

## Left out

- Interleaving inside one aggregate: counters are read and written without a row lock (`services/aggregation.py:134-135`); each aggregate is one serial step.
- A process that dies, or a call that is cancelled, between two steps; a commit or a write to Redis that takes effect although it raises.
- Row-level security: tenant-scoped reads are taken as given, and the tenant columns of links and audit records are not modelled.
- Cascades, soft deletes and `region_id` set to NULL; tenants, schedules, assignments and notification configurations do not change while a decision run or a notification is under way.
- Column widths: an integer that overflows its column is one of the failing calls.
- Redis expiry: a key is live at an instant exactly if it is earlier than the key's expiry; eviction under memory pressure is the step that loses a key.
- The guard on the message id in `_maybe_xack` (`workers/vlm_analyzer.py:160-164`): ids come from Redis and have its format. Consumer-group pending lists and the stream's `maxlen` are not modelled.
- Enqueueing is atomic: XADD either stores the job or raises.
- Time zone conversion: local weekday and time are inputs of a pass, and a pass reads all of them at one instant.
- Embeddings, RAG retrieval, prompt text, frame upload and the providers' answers: values or failures given to the steps.
- Audit reasoning texts, event payloads other than decision and states, and the `reasoning` of feedback.
- Health shells, seed scripts, Docker and nginx, which keep no state; the React client and the admin CRUD routes, which write single rows; JWT and Auth0, which are library calls.
- A second accept of one socket raises, as the ASGI server makes it; a socket is connected at most once.
- WebSocket heartbeat, close codes and pub/sub timing.
- `defaultdict` entries that a mere lookup inserts: missing rooms and counters read as empty and zero.
- Bookkeeping.BooksAlwaysBalance: each aggregate is one serial step, so lost updates between concurrent aggregates of one decision are outside it.
- Resolution.VersionsOnlyGrow: `updated_at` is the start of the transaction that writes the row; the clock of the model is strictly increasing from step to step, so transactions that commit in another order than they started in are outside it.
- Resolution.AcceptedCheckSawTheRow: rests on the same strictly increasing clock.
- StreamCodec.ParseStreamFields: strings hold Unicode scalar values, so a text that escapes a lone surrogate raises here while Python decodes it; the parser's recursion limit is not modelled, and a number is the text that Python writes for it.
- Severity.ComputeSeverityScore: a hint so large that three times it overflows a float, and digits of other scripts in number texts, are outside the model.

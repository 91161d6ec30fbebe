# ShelfWise: a verified model of its stateful core

ShelfWise proposes retail decisions, lets a person approve or reject them, and writes approved ones back as tasks.
This project models the parts of it whose guarantees are about whole runs, and proves those guarantees for every run
and every input.

- **Human-in-the-loop decisions** (`Decisions`, `DecisionProtocol`, `DecisionSafety`, `DecisionRefinement`,
  `DecisionOffers`, `DecisionExactness`, `DecisionRoutes`). `Decisions` holds the lock-protected store as a class. `DecisionProtocol` is
  the Postgres store as a step system: a row, one program counter and snapshot per request, the map of write-back tasks, and one atomic
  step per SQL statement or sink call, the ownership guard's read included. A run is any sequence of request starts
  and steps.
- **Fleet candidate lifecycle** (`Timestamps`, `Candidates`, `CandidateCalls`, `CandidateLifecycle`,
  `CandidateHistoryPostgres`).
  One state machine on a candidate, two stores on top of it: the in-memory one logs in the same critical section, the
  Postgres one commits first and inserts the history entry later.
- **Structured anomaly scoring** (`Permutations`, `Modes`, `Attribution`, `AttributionProperties`, `AttributionBands`,
  `AttributionOrder`, `AttributionScores`), over real numbers.
- **Chat replay window** (`Chat`, `ChatWindow`).
- **Ranking, tree walk, checksum file, chunks** (`Fleet`, `FleetScores`, `FleetRanking`, `FleetProducts`, `Paths`, `Capsule`, `Checksums`, `Chunker`).

`Common` and `Text` hold shared vocabulary, `TextLaws` says what it means. Statements about runs start from the empty store and quantify over all
sequences of events; an event that names nothing live changes nothing.

## What the proofs found

- `annotate` writes unconditionally. It is harmless only because the routes reach it after a verdict exists. If callers
  upsert both a lifecycle status (`pending`, `approved`, `rejected`) and any other status, a stale annotation can
  replace a verdict (`LostVerdict`); `StabilityCondition` says that this mix is exactly what has to be avoided.
- The backends disagree on statuses outside the lifecycle: the in-memory store reviews them, the Postgres store refuses
  (`BackendsAgreeOnKnownStatuses`).
- Two tasks can be minted for one decision under token authentication: reviewers of two tenants pass the ownership
  guard before the decision exists, which then arrives without a tenant (`TwoTasks`). In that run every store call is
  uninterrupted, so it is a run of the in-memory store too. On Postgres with row-level security enforced the unstamped
  row belongs to the tenant `default` and the second reviewer reads no row; that protection is not modelled.
  `OneTaskCondition` is the exact condition; with authentication off there is one tenant and so one task. The model's
  tenant is the stripped text, so a blank one counts as missing.
- Replaying the Postgres runs with the callers' own upserts works unless some upserts set a review and others leave it
  out; then a silent upsert can erase a review it never read (`OwnCallsCondition`, `LostReview`).
- The expiry test compares strings. It is chronological because all instants are rendered in UTC and `+` sorts before
  `.`. Between two offsets it is right for all instants if and only if they are equal (`OffsetCondition`). The Postgres
  store reads the expiry back in the connection's time zone (`candidate_store.py`, lines 482-487), which nothing sets,
  so its test is right if and only if that zone is UTC (`ReadBackCondition`).
- The Postgres candidate history can record overlapping transitions in the wrong order (`OverlapReorders`); it never
  loses or duplicates one. `StaysInOrderCondition` and `TableInOrderCondition` say exactly which runs keep the order;
  an entry that overtakes an equal one can lose and regain it (`OrderCanReturn`).
- The mode returns the first original among values that print alike, so its result depends on the order of references
  exactly when two differently typed values print like the winner (`ModeOrderCondition`). The whole profile depends on
  that order exactly when this happens in some field of some position (`ProfileOrderCondition`).
- A chat history limit of 0 keeps everything, because `messages[-0:]` is the whole list; an odd limit splits a pair.
- A protected path that is the file-system root protects only itself, because its text already ends in the separator
  (`TextTestIsComponentwise`), and a section that starts at it is skipped whole (`RootSection`).
- A file name with a line break breaks the capsule's checksum file (`RoundTripCondition`), and a file added after the
  checksums were written goes unnoticed: verification looks only at listed names (`VerifyReads`).
- Negative stock widens what is monitoring-only: a slow mover below -50 units, an expired lot below -5000
  (`MonitoringOnly`).
- An expired lot does not always rank ahead of one that is still to expire: with a review window of four days or more
  (frozen goods have five) a lot due at the start of the window scores higher (`SoonerRanksAhead`).
- The order in which products are listed can change the ranking of tied candidates; `ProductOrderCondition` says
  exactly when it cannot.

## Model

| member | source | states |
|---|---|---|
| `Decisions.InMemoryDecisionStore.Upsert` | src/shelfwise_action/store.py:26-43 | a missing id is an error that changes nothing; otherwise the stored and returned record is the merge, unless the stored one is terminal; no other id changes |
| `Decisions.InMemoryDecisionStore.AnnotateRecord` | src/shelfwise_action/store.py:60-69 | an unknown id returns nothing; otherwise every named field overwrites that record, status and review included; no other id changes |
| `Decisions.InMemoryDecisionStore.Transition` | src/shelfwise_action/store.py:77-93 | the first review of a record sets status and review, later ones return it unchanged; no other id changes |
| `Decisions.UpsertStores` | src/shelfwise_action/store.py:31-43 | field by field and annotation by annotation: what the offer names is stored, the rest stays; a terminal record is returned as it is |
| `Decisions.FirstUpsertStores` | src/shelfwise_action/store.py:36-43 | a first upsert starts from no status, review or tenant and the data domain `world_simulation` |
| `Decisions.AnnotationStores` | src/shelfwise_action/store.py:60-69 | field by field: what is named is stored whatever the status, the rest stays |
| `Decisions.ReviewStores` | src/shelfwise_action/store.py:77-93 | a decision without a verdict gets this status, reviewer and time and nothing else changes; one with a verdict, or none, is left alone |
| `Decisions.TerminalCall` | src/shelfwise_action/store.py:26-93 | a call changes the verdict of a terminal record if and only if it is an annotation that names another status or review |
| `Decisions.TerminalCallsKeepVerdict` | src/shelfwise_action/store.py:26-93 | so no sequence of upserts, reviews and annotations without such a name changes it |
| `Decisions.FirstReviewIsFinal` | src/shelfwise_action/store.py:77-93 | after a first review, whatever such calls follow, the verdict is that review's |
| `Decisions.NotesSurvive` | src/shelfwise_action/store.py:26-93 | under the lock an annotation keeps its value over every sequence of calls that do not write the same key |
| `DecisionSafety.AdvanceSafe` | src/shelfwise_backend/app.py:2199-2280 | one step of any request keeps the invariant: every in-flight annotation holds a terminal snapshot with the row's own status and review, every known task key is in the task map, tasks exist only for an approved row |
| `DecisionSafety.ApplySafe` | src/shelfwise_action/store.py:111-256 | every event keeps that invariant for all requests at once, never deletes the row or a task, and keeps the verdict, tenant and domain of a terminal row |
| `DecisionSafety.ReachableInv` | src/shelfwise_action/store.py:111-256 | the invariant holds after every interleaving of upserts, reviews and completions |
| `DecisionSafety.RunPreserves` | src/shelfwise_action/store.py:111-256 | between any two points of a run a terminal row keeps its core and no task disappears |
| `DecisionRefinement.AdvanceVerdict` | src/shelfwise_action/store.py:201-236 | each step changes (status, review) exactly as the in-memory call assigned to it, or not at all |
| `DecisionRefinement.RunSimulates` | src/shelfwise_action/store.py:111-256 | forward simulation: after every run the Postgres row and the in-memory store fed with the linearized calls have the same (status, review), and each review's effect is placed in that order; upserts enter with what they wrote |
| `DecisionRefinement.ReviewsLinearize` | src/shelfwise_action/store.py:201-236 | every finished approve or reject had exactly one effect and reports what the in-memory store had at that point, whether it won the update, met a verdict, or lost and re-read |
| `DecisionRefinement.RefusedHasNoEffect` | src/shelfwise_backend/decision_access.py:60-72 | a review that the ownership guard refused appears nowhere in the linearization |
| `DecisionRoutes.GuardDecides` | src/shelfwise_backend/decision_access.py:46-72 | the guard changes nothing and refuses a review if and only if tokens are in use and the row's tenant is missing or not the caller's |
| `DecisionRoutes.BarredReviewsDoNothing` | src/shelfwise_backend/decision_access.py:60-72 | over every run, a review whose guard step meets such a row is refused for good: no effect in the linearization, and none of its steps changes the row or the tasks |
| `DecisionRoutes.OtherReviewsGoOn` | src/shelfwise_backend/decision_access.py:60-72 | over every run, a review whose guard step meets no row, a row of the caller's tenant, or no authentication goes on to the review |
| `DecisionRoutes.UpsertAlone` | src/shelfwise_action/store.py:111-160 | an undisturbed upsert: every field of the stored row, the untouched terminal row, the answer |
| `DecisionRoutes.ApproveAlone` | src/shelfwise_backend/app.py:2199-2230 | an undisturbed approval: review, task key with its defaults, outcome, correction, tasks and answer for every status, a missing row included |
| `DecisionRoutes.RejectAlone` | src/shelfwise_backend/app.py:2263-2280 | an undisturbed rejection: review, correction whatever the status, outcome only when rejected, and no change to the tasks |
| `DecisionRoutes.CompleteAlone` | src/shelfwise_backend/app.py:1928-1981 | an undisturbed completion: the receipt is stored only for the caller's own open task or the same receipt, and noted on the decision only for a non-negative amount on an operational-twin decision of no other tenant |
| `DecisionOffers.OwnCallsLinearize` | src/shelfwise_action/store.py:111-236 | unless some upserts set a review and others leave it out, the linearization can use the requests' own calls, offers included: same final verdict, same answer of every finished review |
| `DecisionOffers.OwnCallsCondition` | src/shelfwise_action/store.py:116-160 | over all runs the row's verdict is that of the requests' own calls if and only if upserts are not mixed in that way |
| `DecisionOffers.LostReview` | src/shelfwise_action/store.py:116-160 | for every review there is a run in which an upsert without one reads before, and writes after, the upsert that sets it |
| `DecisionRefinement.RacingReviewsAgree` | scripts/phase_c_races.py:5-6 | any two finished reviews report the same status and review, a terminal one, and it is the row's |
| `DecisionRefinement.BackendsAgreeOnKnownStatuses` | src/shelfwise_action/store.py:77-93 | an uninterrupted Postgres review does what the in-memory one does if and only if there is no row or its status is pending, approved or rejected |
| `DecisionExactness.VerdictsNeverChange` | src/shelfwise_action/store.py:186-256 | over every run with lifecycle statuses, once terminal a row keeps its status and review |
| `DecisionExactness.ForeignRunsStayForeign` | src/shelfwise_action/store.py:201-256 | when no lifecycle status is ever offered, no row becomes terminal and no task is created |
| `DecisionExactness.LostVerdict` | src/shelfwise_action/store.py:238-256 | in either authentication mode, for any unknown status and any lifecycle status, there is a run that offers just these two and loses a verdict |
| `DecisionExactness.StabilityCondition` | src/shelfwise_action/store.py:111-256 | in either authentication mode verdicts are stable over all runs if and only if the offered statuses are all lifecycle ones or none of them is |
| `DecisionExactness.TasksOnlyWhenApproved` | src/shelfwise_backend/app.py:2199-2218 | a task exists only for an approved row, under a key of that row; every approval that reports approved carries a task that exists |
| `DecisionExactness.TwoTasks` | src/shelfwise_backend/decision_access.py:60-84 | for any two caller tenants there is a run with two tasks: both pass the guard before the row exists, it arrives without a tenant, both approve |
| `DecisionExactness.OneTaskCondition` | src/shelfwise_backend/app.py:2199-2218 | at most one task per decision over all guarded runs if and only if authentication is off, every offered decision carries a tenant, or all reviewers share one |
| `DecisionExactness.ReceiptsAreWriteOnce` | src/shelfwise_connectors/writeback.py:73-102 | a completion receipt, once stored, is the same at every later point of every run |
| `Timestamps.StringOrderIsTimeOrder` | src/shelfwise_backend/candidate_store.py:411-415 | for every two instants of the Gregorian calendar rendered with one offset, string order is the order of their microsecond counts |
| `TextLaws.RenderReads` | src/shelfwise_backend/candidate_store.py:411-415 | a rendered instant reads as year, month, day, hour and minute with their separators |
| `TextLaws.MicrosCount` | src/shelfwise_backend/candidate_store.py:411-415 | the count that stands for time counts: the next instant of the calendar has the next number |
| `TextLaws.StripExactly` | src/shelfwise_backend/candidate_store.py:88-100 | stripping removes white space at both ends and nothing else |
| `Timestamps.ExpiryTestIsChronological` | src/shelfwise_backend/candidate_store.py:395-395 | the string test of the suppression expiry holds if and only if the expiry is not later, and equal texts mean equal instants |
| `Timestamps.MixedOffsetsMisorder` | src/shelfwise_backend/candidate_store.py:395-395 | with different offsets the string test errs within every second |
| `Timestamps.OffsetCondition` | src/shelfwise_backend/candidate_store.py:395-395 | for two offsets the string test decides the order of all instants if and only if the offsets are equal |
| `Timestamps.ReadBackCondition` | src/shelfwise_backend/candidate_store.py:482-487 | the expiry test on a value read back at an offset, against a UTC timestamp, is right for all instants if and only if the offset is zero |
| `Candidates.InMemoryCandidateHistory.Append` | src/shelfwise_backend/candidate_history.py:82-100 | appends one entry numbered one past the length, to that candidate only |
| `Candidates.InMemoryCandidateStore.Upsert` | src/shelfwise_backend/candidate_store.py:43-57 | performs exactly the observation step on the record and its log, nothing else changes, and returns the new record |
| `Candidates.InMemoryCandidateStore.SuppressCandidate` | src/shelfwise_backend/candidate_store.py:79-107 | performs exactly the suppression step; a blank reason is an error, an unknown candidate is reported missing |
| `Candidates.InMemoryCandidateStore.LinkDecision` | src/shelfwise_backend/candidate_store.py:109-133 | performs exactly the linking step; a blank id is an error, an unknown candidate is reported missing |
| `CandidateCalls.FirstObservation` | src/shelfwise_backend/candidate_store.py:377-387 | every field of a first record, logged as observed |
| `CandidateCalls.LaterObservation` | src/shelfwise_backend/candidate_store.py:390-408 | every field of a renewed record; only an expiry that is not later than now ends a suppression, and only then a transition is logged |
| `CandidateCalls.SuppressionStores` | src/shelfwise_backend/candidate_store.py:88-107 | a suppression of an open record with a reason stores that expiry and the stripped reason; otherwise nothing changes |
| `CandidateCalls.LinkStores` | src/shelfwise_backend/candidate_store.py:113-133 | a link of an open record stores the id as given, clears the suppression and makes it pending; otherwise nothing changes |
| `CandidateCalls.SuppressionLasts` | src/shelfwise_backend/candidate_store.py:79-107 | in any run, after a suppression until an instant, quiet calls keep its reason and expiry, and the first observation at or after that instant lifts it |
| `CandidateCalls.RecordRemembers` | src/shelfwise_backend/candidate_store.py:43-57 | over every run a record exists once observed, with the first observation's time and the last one's time and facts |
| `CandidateLifecycle.RunsKeepLifecycle` | src/shelfwise_backend/candidate_store.py:377-408 | over every run: pending if and only if a decision is linked, suppressed if and only if reason and expiry are both set |
| `CandidateLifecycle.LinkIsWriteOnce` | src/shelfwise_backend/candidate_store.py:119-132 | a linked record keeps its link and its pending status over every continuation |
| `CandidateLifecycle.TerminalIsNeverReopened` | src/shelfwise_backend/candidate_store.py:94-133 | a record that starts terminal keeps its status over every continuation |
| `CandidateLifecycle.WindowStep` | src/shelfwise_backend/candidate_store.py:390-408 | in a suppression window a call leaves status, reason and expiry alone if it is an observation before the expiry or has a blank argument, and is a logged transition otherwise; an observation at or after the expiry lifts the suppression |
| `CandidateLifecycle.SuppressionHolds` | src/shelfwise_backend/candidate_store.py:390-408 | no sequence of earlier observations and refused calls ends a suppression |
| `CandidateLifecycle.HistoryFollowsLifecycle` | src/shelfwise_backend/candidate_history.py:82-100 | over every run the sequences are 1..n, entries follow the lifecycle graph, and the last entry has the current status and decision |
| `CandidateLifecycle.PathShape` | src/shelfwise_backend/candidate_store.py:43-133 | in any such history a link comes last, so there is at most one; equal neighbours arise only by suppressing again; only the first entry is an observation |
| `CandidateLifecycle.EveryPathIsAHistory` | src/shelfwise_backend/candidate_store.py:43-133 | conversely, every path of the lifecycle graph, with its facts and decision ids, is the history of a run from empty |
| `CandidateLifecycle.HistoriesArePaths` | src/shelfwise_backend/candidate_store.py:43-133 | so the histories of runs from empty are exactly the paths of the graph |
| `CandidateHistoryPostgres.HistoryConservesTransitions` | src/shelfwise_backend/candidate_store.py:183-228 | for every interleaving, and however timestamps are read back, logged plus in-flight entries are the committed transitions as a multiset, and sequences are 1..n |
| `CandidateHistoryPostgres.FaithfulMatchesMemory` | src/shelfwise_backend/candidate_store.py:183-319 | when written timestamps come back as written, row and transitions are those of the in-memory store for the same calls |
| `CandidateHistoryPostgres.MemoryCondition` | src/shelfwise_backend/candidate_store.py:482-487 | over all runs the row equals the in-memory record if and only if written timestamps come back as written |
| `CandidateHistoryPostgres.InsertKeepsOrder` | src/shelfwise_backend/candidate_history.py:135-184 | from an ordered state an insert keeps commit order if and only if its entry equals all that are in flight before it |
| `CandidateHistoryPostgres.StaysInOrderCondition` | src/shelfwise_backend/candidate_store.py:225-228 | over every run the history is in commit order at every moment if and only if every insert satisfies that |
| `CandidateHistoryPostgres.TableInOrderCondition` | src/shelfwise_backend/candidate_history.py:148-171 | over every run the table ends as a prefix of the transitions if and only if every insert took the oldest unlogged transition or one equal to it |
| `CandidateHistoryPostgres.SerialHistoryIsOrdered` | src/shelfwise_backend/candidate_history.py:135-184 | with at most one append in flight at a time the history is in commit order at every moment |
| `CandidateHistoryPostgres.OverlapReorders` | src/shelfwise_backend/candidate_store.py:225-228 | for all facts and instants there is a run that logs a suppression before the observation it followed |
| `CandidateHistoryPostgres.OrderCanReturn` | src/shelfwise_backend/candidate_store.py:264-288 | ending in order is weaker than staying in order: there is a run that loses commit order and ends in it |
| `Modes.ModeIsMostFrequent` | src/shelfwise_backend/adaptive_attribution.py:597-604 | the mode is one of the values and its text beats every other by count, then by text order |
| `Modes.ModeBeats` | src/shelfwise_backend/adaptive_attribution.py:601-603 | no value's text occurs more often than the mode's, and none that occurs as often is a smaller text |
| `Modes.MajorityIsMode` | src/shelfwise_backend/adaptive_attribution.py:597-604 | a strict majority value fixes the mode up to values that print alike |
| `Modes.ModeOrderCondition` | src/shelfwise_backend/adaptive_attribution.py:597-604 | the mode is the same for all orders if and only if the values that print like the winner are all equal |
| `Permutations.MajorityIsMedian` | src/shelfwise_backend/adaptive_attribution.py:412-419 | a strict majority value is the median, for even and odd lengths |
| `Attribution.BuildMetrics` | src/shelfwise_backend/adaptive_attribution.py:402-420 | the loop yields, per metric name in sorted order, median and floored median absolute deviation of the present values |
| `AttributionBands.ProfileCoversColumn` | src/shelfwise_backend/adaptive_attribution.py:401-431 | a profiled position lists exactly the names some reference reports there, once each and in order; every band takes at least half of its values to be ordinary, every attribute has a mode |
| `Attribution.ScoreStep` | src/shelfwise_backend/adaptive_attribution.py:454-484 | the average of all components and the joined names of the deviating ones |
| `AttributionScores.ScoreSums` | src/shelfwise_backend/adaptive_attribution.py:455-484 | the score times the number of components is the number of differing fields and attributes plus each metric's share |
| `AttributionScores.FullScore` | src/shelfwise_backend/adaptive_attribution.py:455-484 | a step scores 1 if and only if every field and attribute differs and every metric is missing or five scales off |
| `AttributionScores.ReasonLists` | src/shelfwise_backend/adaptive_attribution.py:460-484 | the reason joins the names of all deviating fields, attributes and metrics in order, or says `within_profile` |
| `AttributionScores.MedianIsMiddle` | src/shelfwise_backend/adaptive_attribution.py:412-419 | the median is the middle of any sorted arrangement, or the mean of its two middle values |
| `AttributionScores.BandIsLeast` | src/shelfwise_backend/adaptive_attribution.py:412-420 | a band is centered at the median, and its scale is the least number at least the median distance, a tenth of the center and 1 |
| `AttributionScores.ColumnCounts` | src/shelfwise_backend/adaptive_attribution.py:394-398 | a column holds one step for each reference that reaches the position, its own |
| `AttributionScores.NormalizeKeeps` | src/shelfwise_backend/adaptive_attribution.py:343-347 | the references used are the non-empty ones, cut to 64 steps |
| `AttributionScores.RowSays` | src/shelfwise_backend/adaptive_attribution.py:437-451 | position, step, reason and score of each row, missing and unexpected steps included, scores within half a millionth |
| `AttributionScores.ThresholdIsAttained` | src/shelfwise_backend/adaptive_attribution.py:356-359 | the threshold is 0.35 or the score of one of the references |
| `AttributionScores.VerdictSays` | src/shelfwise_backend/adaptive_attribution.py:348-364 | state, score, threshold and suspicion for too few and for enough references, verified or not |
| `Attribution.ScoreRepresentation` | src/shelfwise_backend/adaptive_attribution.py:434-451 | one row per position of the longer of run and profile, and their highest score |
| `AttributionProperties.ScoresAreBounded` | src/shelfwise_backend/adaptive_attribution.py:434-484 | every row and the overall score lie in [0, 1]; a run of another length than the profile scores exactly 1 |
| `AttributionProperties.SuspectedAttains` | src/shelfwise_backend/adaptive_attribution.py:365-365 | the suspected step is a row with the highest score |
| `AttributionProperties.JudgementIsBounded` | src/shelfwise_backend/adaptive_attribution.py:343-378 | the published verdict: score in [0, 1], threshold at least 0.35, suspicious if and only if above it, suspected step attains the score |
| `AttributionProperties.CalibrationBound` | src/shelfwise_backend/adaptive_attribution.py:353-360 | of n references at most floor(alpha n) score above the threshold built from them, none when alpha n < 1 |
| `AttributionProperties.CalibrationIsTight` | src/shelfwise_backend/adaptive_attribution.py:590-594 | a threshold above the floor is reached by more than floor(alpha n) references, so the bound cannot be lowered |
| `AttributionBands.MedianSplits` | src/shelfwise_backend/adaptive_attribution.py:412-416 | at least half of the values lie on each side of the median |
| `AttributionBands.BandHoldsHalf` | src/shelfwise_backend/adaptive_attribution.py:411-420 | at least half of the values a band is built from score at most 0.2 under it |
| `AttributionBands.MetricIsFlagged` | src/shelfwise_backend/adaptive_attribution.py:473-483 | a metric is reported if and only if it is missing or at least 2.5 scales off the center, and counts in full from 5 scales |
| `AttributionOrder.ProfileOrderCondition` | src/shelfwise_backend/adaptive_attribution.py:391-431 | the profile is the same for every order of the references if and only if, in every field of every position, the values that print like the winner are all equal |
| `AttributionOrder.VerdictIgnoresOrder` | src/shelfwise_backend/adaptive_attribution.py:343-360 | for such references threshold, scores and verdict are the same for every order |
| `AttributionOrder.TypedIsSettled` | src/shelfwise_backend/adaptive_attribution.py:597-604 | in particular when equal texts mean equal values |
| `AttributionProperties.MajorityStepScore` | src/shelfwise_backend/adaptive_attribution.py:401-484 | a strict majority step scores 0 against its column if and only if it has all the column's names and no differently typed twin precedes its values |
| `AttributionProperties.UniformColumnIsRepresented` | src/shelfwise_backend/adaptive_attribution.py:401-431 | that condition holds when all references at the position have the same names and equal texts mean equal values |
| `AttributionProperties.MajorityRunScoresZero` | src/shelfwise_backend/adaptive_attribution.py:434-484 | a run of such majority steps scores 0 with reason `within_profile` everywhere and is not suspicious, whatever the minority holds |
| `Chat.ChatConversationStore.AppendExchange` | src/shelfwise_backend/chat_store.py:48-94 | adds question and answer, keeps the last messages, touches no other conversation |
| `Chat.ChatConversationStore.AnswerForMessage` | src/shelfwise_backend/chat_store.py:96-118 | the first stored reply to the id, if any |
| `Chat.ChatConversationStore.Ask` | src/shelfwise_backend/app.py:1125-1181 | one serialized request: conflict, replay, failure or a new exchange; no other conversation changes |
| `ChatWindow.StoreIsSuffix` | src/shelfwise_backend/chat_store.py:74-92 | over every run and for every limit the stored messages are the last ones of the full transcript, all in one domain, with recurring ids spaced out |
| `ChatWindow.StoredMessages` | src/shelfwise_backend/chat_store.py:74-92 | message by message: exactly the last messages of the log are stored, or all with limit 0 |
| `ChatWindow.ReplayIsIdempotent` | src/shelfwise_backend/app.py:1150-1181 | after every run a request in the right domain is replayed if and only if its id is still in the window, with that id's answer, and only a new answer changes anything |
| `ChatWindow.EveryRequest` | src/shelfwise_backend/app.py:1145-1181 | after every run, from the log alone: conflict if and only if the domain differs; replay of the stored answer if and only if the id is known; otherwise answered with exactly the model's answer, which is appended, or unavailable if there is none |
| `ChatWindow.RecurrenceIsSpaced` | src/shelfwise_backend/app.py:1150-1175 | an id recurs in the log only after at least half a window of other exchanges, and never without a limit |
| `ChatWindow.WindowHoldsPairs` | src/shelfwise_backend/chat_store.py:92-92 | the window starts with a question if and only if the limit is even or not yet reached |
| `ChatWindow.OneDomainPerConversation` | src/shelfwise_backend/app.py:1135-1167 | every exchange ever appended to a conversation carries one data domain |
| `Fleet.KindCounts` | src/shelfwise_backend/candidate_factory.py:104-303 | an item with a blank sku raises nothing; otherwise one expired or expiring candidate per well-formed row due by max(review days, -1), every other kind once or not at all, and never both slow mover and overstock |
| `Fleet.ItemCandidates` | src/shelfwise_backend/candidate_factory.py:88-183 | the two appending passes give these candidates, rows first and then the other kinds in their order, with those counts |
| `FleetScores.DemandRaises` | src/shelfwise_backend/candidate_factory.py:217-254 | slow mover and overstock exactly by what was sold on the recent days, without the quotient |
| `FleetScores.RowFigures` | src/shelfwise_backend/candidate_factory.py:104-145 | every figure of the candidate a row raises, or that it raises none |
| `FleetScores.RaisedFigures` | src/shelfwise_backend/candidate_factory.py:88-303 | every raised candidate has the score, urgency, key and evidence of one of the rows or of its kind, written out |
| `FleetScores.RaisedIsComplete` | src/shelfwise_backend/candidate_factory.py:88-303 | what a row or a kind raises is among the product's candidates |
| `FleetScores.ScoreRanges` | src/shelfwise_backend/candidate_factory.py:104-303 | the range of scores of every kind, with counted stock |
| `FleetScores.GraverRanksAhead` | src/shelfwise_backend/candidate_factory.py:258-303 | between candidates of any products a recall hold precedes cold chain, supplier delay, delivery mismatch, price anomaly, identity conflict and missing evidence, in this order, with no smaller urgency |
| `FleetScores.SoonerRanksAhead` | src/shelfwise_backend/candidate_factory.py:113-145 | of two rows with equal stock the sooner one never ranks behind if and only if it is not expired or the other is due within three days of the end of the window |
| `FleetScores.LowStockRises` | src/shelfwise_backend/candidate_factory.py:147-160 | low stock rises with the gap up to 100 units and by 15 when nothing is left |
| `Fleet.GenerateFleetCandidates` | src/shelfwise_backend/candidate_factory.py:52-85 | which argument error is raised and when; otherwise the top of the ranking of all items' candidates |
| `FleetRanking.RankedIsStableSort` | src/shelfwise_backend/candidate_factory.py:84-84 | the ranking is a permutation in (-score, key) order that keeps tied candidates in their original order |
| `FleetRanking.TopIsBest` | src/shelfwise_backend/candidate_factory.py:84-85 | returned and omitted split the candidates, no omitted one precedes a returned one, and the limit is used up |
| `FleetRanking.SmallerLimitIsPrefix` | src/shelfwise_backend/candidate_factory.py:84-85 | a smaller limit gives a prefix of a larger one, and re-ranking a result changes nothing |
| `FleetRanking.RankingOrderCondition` | src/shelfwise_backend/candidate_factory.py:84-85 | the result is the same for all orders of the candidates and all limits if and only if tied candidates are equal |
| `FleetProducts.KeysAreUnique` | src/shelfwise_backend/candidate_factory.py:324-337 | for every list of products, equal keys mean equal candidates if and only if the digests of the listed identities do not collide and no two different candidates share an identity |
| `FleetProducts.ListedOnceNames` | src/shelfwise_backend/candidate_factory.py:324-337 | no two different candidates share an identity when each product is listed once per domain and each lot once |
| `FleetRanking.RankedByTies` | src/shelfwise_backend/candidate_factory.py:84-84 | rearranged candidates rank alike if and only if every run of tied candidates kept its order |
| `FleetProducts.ProductOrderCondition` | src/shelfwise_backend/candidate_factory.py:72-85 | every order of the products gives the same result at every limit if and only if the tied runs of any two products commute |
| `FleetProducts.DistinctKeysCommute` | src/shelfwise_backend/candidate_factory.py:72-85 | in particular when every key names one candidate |
| `FleetProducts.MonitoringOnly` | src/shelfwise_backend/candidate_factory.py:350-362 | for all stock figures, exactly which candidates are monitoring-only: missing batch evidence; low stock with units other than 0 and a gap under 15; a slow mover below -50 units; a row whose units are far enough below zero |
| `FleetProducts.CountedStockMonitoring` | src/shelfwise_backend/candidate_factory.py:350-362 | with non-negative stock this is read off the candidate: batch evidence missing, or low stock with units left and a gap under 15 |
| `Paths.RelationIsComponentwise` | scripts/session_capsule.py:94-105 | the text test agrees with component-wise prefix on all paths except that a root relates to nothing but itself |
| `Capsule.CapsuleBuilder.CopyDirectory` | scripts/session_capsule.py:145-157 | one directory's files are filtered in order, and the flag says whether anything was copied |
| `Capsule.CapsuleBuilder.CopyTree` | scripts/session_capsule.py:116-158 | the pruned walk makes the same copies in the same order as filtering an unpruned walk, unless the source is a protected root, when it copies nothing |
| `Capsule.CapsuleBuilder.CapturePersistRoot` | scripts/session_capsule.py:376-393 | the children of the durable root but the capsule folder make the copies of one filtering pass over their listings |
| `Capsule.CapsuleBuilder.CaptureState` | scripts/session_capsule.py:345-373 | the durable root and all configured sources together make the copies of one filtering pass |
| `Capsule.PersistExactly` | scripts/session_capsule.py:376-393 | the durable root contributes exactly the files below its children whose name does not fold to `capsules` |
| `Capsule.CopiedExactly` | scripts/session_capsule.py:145-157 | the filtering pass adds each listed unprotected file once and nothing else |
| `Capsule.ProtectionInherited` | scripts/session_capsule.py:108-113 | whatever lies below a protected path other than the root is protected |
| `Capsule.PruningIsInvisible` | scripts/session_capsule.py:140-144 | dropping protected subdirectories changes no copy, whatever was copied before |
| `Capsule.WalkExactly` | scripts/session_capsule.py:138-157 | the walk lists a path if and only if the tree has a file there |
| `Capsule.CapsuleHoldsExactly` | scripts/session_capsule.py:203-213 | for all protected paths a capsule holds exactly the files of the sections it enters that no protected path shields, each once |
| `Capsule.TextTestIsComponentwise` | scripts/session_capsule.py:94-113 | the protection test equals component-wise coverage of a path if and only if that path is not covered by a protected root alone |
| `Capsule.RootSection` | scripts/session_capsule.py:125-126 | with a protected root, skipping the section that starts there loses nothing if and only if every file of the tree lies below another protected path or was copied before |
| `Checksums.Sha256Files` | scripts/session_capsule.py:161-167 | one row per file in the given order: digest, two spaces, name |
| `Checksums.Verify` | scripts/session_capsule.py:485-495 | the failing names among the entries read from the non-blank lines, or the unpacking error |
| `Checksums.SplitsAtFirstGap` | scripts/session_capsule.py:489-489 | a line splits if and only if it has two spaces in a row, at the first place where it does |
| `Checksums.ParseFails` | scripts/session_capsule.py:486-489 | reading fails if and only if some line that is not blank has no two spaces in a row |
| `Checksums.BlankLinesAreSkipped` | scripts/session_capsule.py:487-488 | a line of white space changes nothing |
| `Checksums.LinesKeepText` | scripts/session_capsule.py:486-486 | the lines hold every character of the text but the line breaks, in order |
| `Checksums.RoundTripCondition` | scripts/session_capsule.py:161-167 | the checksum file reads back as the entries it was written from if and only if no file name holds a line break |
| `Checksums.VerifyReads` | scripts/session_capsule.py:478-497 | for names without line breaks, a listed file fails if and only if it is missing or its digest differs, and nothing else fails |
| `Checksums.VerifyDetectsExactly` | scripts/session_capsule.py:478-497 | the failures are exactly the missing and changed files if and only if no listed file changed to a content with the same digest |
| `Chunker.ChunkAnswer` | src/shelfwise_backend/app.py:1056-1062 | the chunks concatenate to the text, none shows more words than asked for, none is superfluous; a zero step is an error, a negative one sends the text whole |
| `Chunker.JoinSplit` | src/shelfwise_backend/app.py:1056-1061 | joining the split text gives it back |
| `Chunker.SplitJoin` | src/shelfwise_backend/app.py:1056-1061 | splitting joined words gives them back |

## Left out

- SQL text, connections, row-level security (which may hide rows that the guard would read) and advisory-lock hashing: a statement is one atomic step, a lock is mutual exclusion.
- Decision ids in the protocol: the step system follows one id, since no statement touches two.
- Annotations under concurrency: that an annotation survives a concurrent Postgres writer is not claimed.
- DecisionRefinement.RunSimulates: an upsert appears in the linearized calls with the status and review it wrote; `DecisionOffers.OwnCallsCondition` says exactly when its own offer would do.
- Decisions.InMemoryDecisionStore.Upsert: `created_at` and `updated_at` are not stored, and an offer cannot carry `write_back`.
- Annotations by the routes: they name neither status nor review (app.py, lines 1971-1980, 2219-2227, 2269-2279); the stability theorems over runs are about these routes.
- Completion by task id: the model completes by the sink's key, which must be of the caller's tenant; the check of approved units and the inventory movement are left out.
- The learning store, event bus, trace registry and twin: calls that do not touch the modelled state.
- Clocks: the time of a call is a parameter, in any order; `created_at`, `updated_at` of decisions and `recorded_at` of history are dropped.
- CandidateHistoryPostgres.FaithfulMatchesMemory: needs timestamps that come back as written; `MemoryCondition` shows that nothing less will do, and conservation and order do not need it.
- History listing with filters, `clear()` and crashes: reads and resets, or events that would weaken the run properties.
- Floating point: scores are reals, so rounding error of the arithmetic itself is not modelled; `round` is half-even on reals.
- Attribute values in scoring are strings or booleans, metrics are numbers; other JSON values and the step builders are left out.
- Rounding of the published anomaly score and threshold, and the training receipt: they do not feed back into the verdict.
- Chat: the Postgres conversation store, which follows the same append and lookup under its lock; prompts, routing and inference, whose answer is a parameter; message ids and domains are given, not generated; negative limits.
- Policy lookup and open-order lookup in fleet generation: their results are inputs, as are the name, category and supplier, carried along as one text; the key digest is a parameter.
- Capsule destinations, manifest and exclusion lists, symbolic links, case folding of paths and I/O errors: only which sources are copied is modelled.
- The archive and restore commands of the capsule script, and the exit codes of verification; the digest is a parameter.
- Checksums.VerifyReads: speaks of names without line breaks; for others `RoundTripCondition` shows that the file does not read back, so its entries name other files.
- Checksums.VerifyDetectsExactly: the same restriction.
- DecisionExactness.TwoTasks: row-level security, where it is enforced, hides the unstamped row from the second tenant.
- DecisionExactness.OneTaskCondition: its only-if half speaks of stores without row-level security, as the in-memory one.
- Checksums.Sha256Files: the sorted order of the names is an input, since verification does not depend on it.
- Chat evidence selection (`chat_context.py`): a sort and two slices like the fleet ranking, over free-form text matching.
- Agent cascades, connectors, benchmark, deployment, authentication and the frontend.

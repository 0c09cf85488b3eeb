# Lifecycle core of the association voting application

This project models, in Dafny, the part of the voting application that
decides what happens to a vote and to the records around it:

- **Time protection** (`time_protection.dfy`, module `TimeProtection`):
  - which status changes along draft → active → closed → evaluated are
    allowed, given the write-once timestamps `startedAt`, `closedAt` and
    `evaluatedAt`;
  - how those timestamps are set;
  - which updates of an event or a question are refused as time
    manipulation;
  - the client/server clock comparison;
  - `safeStatusChange`, which combines the guard and the timestamps.
- **Retention cleanup** (`data_cleanup.dfy`, module `DataCleanup`):
  - the 24-hour eligibility tests;
  - the deletion countdown and its `h/m/s` rendering;
  - the batched cascade deletes of an event or a question;
  - the scans over all events and all questions, which count, record
    failures and carry on;
  - the orphan sweep of votes and voter codes;
  - the order of one `performCleanup` pass.
- **Stored times** (`stored_times.dfy`, module `StoredTimes`): the two
  retention scans as written, on records whose times come back from the
  store as Firestore `Timestamp` objects (see "## Findings").
- **Voting page** (`voting.dfy`, module `Voting`):
  - the code-entry / ballot / thank-you / error step machine of the
    public voting page;
  - normalising and checking a typed code;
  - the ordered rejections;
  - the blank-ballot confirmation;
  - the two separate writes of a submission: insert the vote, then mark
    the code used.
- **Event service** (`event_service.dfy`, module `EventService`):
  - the records `createEvent` and `createQuestion` write, with their
    defaults;
  - the filtered and sorted listings `getEvents` and `getQuestions`;
  - the purge of the collections of the older single-election flow.

Two shared files support them:

- `types.dfy` (module `Types`) holds the store's records and JavaScript's
  `||` defaults, `toUpperCase` and `trim`.
- `store.dfy` (module `Store`) holds the document store. It exists both as
  a value (`Db`, one map per collection) and as a `Database` object whose
  fields the operations update in place.

**How the model represents the source**

- Time is integer milliseconds. Every clock read is a parameter `now`.
  `DataCleanup` reads stored times as instants, as intended;
  `StoredTimes` models what the cleanup's `getTime()` calls do with the
  `Timestamp` objects the store actually returns.
- Every document id that `addDoc` generates is a parameter `freshId`.
- Each way a store call can throw is a parameter: which step of a deletion
  batch fails, which single deletes fail, which reads or writes of the
  voting page fail. The error paths are therefore modelled rather than
  assumed away.
- Pure code is written as functions with lemmas.
- Loops over query snapshots, counters and stores are methods with loop
  invariants. Each method is proved equal to a fold over the order in
  which it visited the documents, and the fold's results are then proved
  for every order.
- The voting page is the class `Voting.VotingPage`. Its fields are the
  page's eight state variables. Each handler is proved equal to a pure
  transition on `PageState`, and the properties are proved about those
  transitions.

**Where the code and the design disagree, the model follows the code:**

- A status may skip forward, for example draft → closed. Only a backward
  change is refused.
- A submission makes two independent writes, not one transaction.
- The voting page checks the code's own `hasVoted` and the election's
  status. It does not track per-question redemption.
- Retention runs from `updatedAt` for events, and from
  `closedAt || evaluatedAt || updatedAt` for questions. It does not run
  from a single status-change time.
- A purged event is deleted, not reset to draft.

## Model

| member | source | states |
|---|---|---|
| TimeProtection.IndexOf | src/lib/time-protection.ts:19-20 | `indexOf`: the first position holding the value, or -1 exactly when it is absent |
| TimeProtection.StatusIndexValues | src/lib/time-protection.ts:18 | draft, active, closed and evaluated are at positions 0 to 3 of the status order |
| TimeProtection.CanChangeStatus | src/lib/time-protection.ts:9-55 | refused as backwards exactly when the target comes earlier in the order (an unknown target, -1, included); with startedAt set, draft is refused; with closedAt set, active is refused; with evaluatedAt set, everything but evaluated is refused; any refusal is one of these four; without timestamps, same-status and forward skips are allowed |
| TimeProtection.CreateStatusTimestamps | src/lib/time-protection.ts:58-93 | an existing timestamp is never overwritten; only the timestamp of the new status may change, and only to `now`; the new status always ends up with its timestamp |
| TimeProtection.StampsUnchangedOutsideFlow | src/lib/time-protection.ts:74-90 | for draft or a status outside the order, the timestamps come back unchanged |
| TimeProtection.StampsIdempotent | src/lib/time-protection.ts:71-92 | applying the timestamp update a second time, at any later time, changes nothing |
| TimeProtection.FirstPresent | src/lib/time-protection.ts:116-124 | the loop over the restricted fields finds nothing exactly when no restricted field is present, and otherwise names one that is |
| TimeProtection.ValidateEventChange | src/lib/time-protection.ts:96-141 | an earlier start date is refused as backdating; an active event refuses startDate, startTime and maxVoters; a closed or evaluated event accepts only a status key; nothing else is refused, so a draft is checked for backdating only |
| TimeProtection.ValidateQuestionChange | src/lib/time-protection.ts:144-184 | evaluated (by status or evaluatedAt) refuses every update, the empty one included; started or closed refuses any key but status; nothing else is refused |
| TimeProtection.FreshDraftQuestionAcceptsAll | src/lib/time-protection.ts:149-183 | a draft question without timestamps accepts every update |
| TimeProtection.DetectTimeAnomalies | src/lib/time-protection.ts:208-222 | the deviation is non-negative and is the clock difference in minutes; suspicious exactly when the difference exceeds the threshold strictly, so exactly the threshold is not suspicious |
| TimeProtection.DetectTimeAnomaliesByDefault | src/lib/time-protection.ts:208-222 | leaving out the threshold means five minutes: suspicious exactly when the clocks are more than 300 000 ms apart |
| TimeProtection.AnomalySymmetric | src/lib/time-protection.ts:214-216 | swapping the client and server times gives the same report |
| TimeProtection.EntityStamps | src/lib/time-protection.ts:237-239 | an event carries none of the three timestamps |
| TimeProtection.SafeStatusChange | src/lib/time-protection.ts:226-282 | refused exactly when the guard refuses, with its reason; otherwise the update carries the new status, the timestamps from the timestamp update and `now` as updatedAt |
| TimeProtection.RunIsMonotone | src/lib/time-protection.ts:241-281 | over any sequence of status requests, a question's status never moves back in the order and its set timestamps never change |
| TimeProtection.EvaluationIsFinal | src/lib/time-protection.ts:47-52 | once evaluatedAt is set, no request sequence changes the status except to evaluated, and evaluatedAt stays |
| TimeProtection.AppliedChangeIsStamped | src/lib/time-protection.ts:273-281 | an applied change sets the requested status and the matching timestamp |
| DataCleanup.ShouldCleanupEvent | src/lib/data-cleanup.ts:112-125 | due exactly when closed or evaluated and at least 24 h (86 400 000 ms) since updatedAt |
| DataCleanup.ShouldCleanupQuestion | src/lib/data-cleanup.ts:128-141 | the same test, run from closedAt, else evaluatedAt, else updatedAt |
| DataCleanup.GetDeletionTimestamp | src/lib/data-cleanup.ts:326-347 | as written: updatedAt + 24 h for a closed or evaluated entity when that is after now, otherwise none; for an event, none exactly when not terminal or already due |
| DataCleanup.QuestionCountdownMissesDueQuestion | src/lib/data-cleanup.ts:329-343 | a question due for cleanup still gets a deletion time an hour in the future |
| DataCleanup.DeletionTimestamp | src/lib/data-cleanup.ts:326-347 | corrected countdown: none exactly when the event or the question is not terminal or is already due, the question timed as in its eligibility test |
| DataCleanup.ClockSplit | src/lib/data-cleanup.ts:358-362 | hours·3600 + minutes·60 + seconds is the whole number of seconds |
| DataCleanup.FormatRemainingTime | src/lib/data-cleanup.ts:350-363 | the overdue marker exactly when remaining ≤ 0; otherwise minutes and seconds are below 60 and hours·3600 + minutes·60 + seconds = ⌊remaining/1000⌋ |
| DataCleanup.WithoutEventsRemovesExactly | src/lib/data-cleanup.ts:144-190 | deleting events removes exactly those events and the votes, voter codes and questions whose eventId names one of them; every other record keeps its value |
| DataCleanup.WithoutQuestionsRemovesExactly | src/lib/data-cleanup.ts:193-219 | deleting questions removes exactly those questions and the votes whose questionId names one; events, codes and other votes are untouched |
| DataCleanup.AddToBatch | src/lib/data-cleanup.ts:153-156 | every document of the snapshot goes into the batch, and the counter grows by their number |
| DataCleanup.DeleteEventData | src/lib/data-cleanup.ts:144-190 | the batch commits all or nothing: it commits exactly when no step throws, and then the store is the store without the event; each counter grows by the number of documents queued before the throw |
| DataCleanup.DeleteQuestionData | src/lib/data-cleanup.ts:193-219 | all or nothing as above, for the question and its votes; only votesDeleted changes |
| DataCleanup.ProcessEvent | src/lib/data-cleanup.ts:70-85 | one iteration of the event scan: processed +1; a due event deleted and counted, or one error entry when its batch throws |
| DataCleanup.CleanupEvents | src/lib/data-cleanup.ts:66-86 | visits every event of the snapshot once, and ends equal to the scan over that visit order |
| DataCleanup.EventScanStore | src/lib/data-cleanup.ts:66-86 | for any visit order, the scan removes exactly the due events whose batch commits, with their data |
| DataCleanup.EventScanTotals | src/lib/data-cleanup.ts:66-86 | every scanned event is counted as processed; only committed ones as deleted; the other counters count the queued documents |
| DataCleanup.EventScanErrors | src/lib/data-cleanup.ts:82-84 | the scan keeps earlier errors and appends exactly one entry per due event whose batch throws, then carries on |
| DataCleanup.ProcessQuestion | src/lib/data-cleanup.ts:93-108 | one iteration of the question scan, as for events |
| DataCleanup.CleanupQuestions | src/lib/data-cleanup.ts:89-109 | visits every question of the snapshot once, and ends equal to the question scan over that order |
| DataCleanup.QuestionScanStore | src/lib/data-cleanup.ts:89-109 | for any order, exactly the due questions whose batch commits are removed with their votes |
| DataCleanup.QuestionScanTotals | src/lib/data-cleanup.ts:89-109 | processed counts every question; deleted counts only committed ones |
| DataCleanup.QuestionScanErrors | src/lib/data-cleanup.ts:105-107 | one error entry per due question whose batch throws; earlier entries kept |
| DataCleanup.WithoutOrphans | src/lib/data-cleanup.ts:222-268 | a sweep without failures keeps events and questions, and keeps every vote and code that names an existing event, with its value |
| DataCleanup.VoteSweepStore | src/lib/data-cleanup.ts:241-253 | for any order, the vote sweep deletes only orphans whose delete does not throw, and counts each deletion once |
| DataCleanup.VoteSweepAborts | src/lib/data-cleanup.ts:241-253 | the sweep aborts exactly when it meets an orphan whose delete throws; otherwise it deletes every orphan it visits |
| DataCleanup.CodeSweepStore | src/lib/data-cleanup.ts:256-268 | the same for voter codes |
| DataCleanup.CodeSweepAborts | src/lib/data-cleanup.ts:256-268 | the same for voter codes |
| DataCleanup.DeleteVote | src/lib/data-cleanup.ts:249 | removes that one vote and nothing else |
| DataCleanup.DeleteVoterCode | src/lib/data-cleanup.ts:264 | removes that one voter code and nothing else |
| DataCleanup.CleanupOrphanedVotes | src/lib/data-cleanup.ts:241-253 | a failed read of the votes aborts with the store and counters unchanged; otherwise equal to the vote sweep over the order it read the votes, a full read when nothing throws |
| DataCleanup.CleanupOrphanedVoterCodes | src/lib/data-cleanup.ts:256-268 | a failed read of the codes aborts with the store and counters unchanged; otherwise equal to the code sweep over its read order |
| DataCleanup.CleanupOrphanedData | src/lib/data-cleanup.ts:222-268 | events, questions and election collections untouched; no vote or code naming an existing event is removed, and each counter grows by exactly the number of votes or codes removed; a failed read of the event ids or of the votes changes nothing, a failed read of the codes keeps every code; without any failure the result is the store without orphans, with no new error; any failure adds exactly one error entry |
| DataCleanup.CleanupPassLeavesNothingDue | src/lib/data-cleanup.ts:32-63 | after a pass without failures, no event or question is due, and every vote and voter code names an existing event |
| DataCleanup.CleanupPassIdempotent | src/lib/data-cleanup.ts:32-63 | a second pass at the same instant changes nothing |
| DataCleanup.ElectionVotesAreSwept | src/lib/data-cleanup.ts:248 | a vote without eventId is deleted by every pass |
| DataCleanup.ElectionCodesAreSwept | src/lib/data-cleanup.ts:263 | a voter code without eventId is deleted by every pass |
| DataCleanup.NoEventFaults | src/lib/data-cleanup.ts:66-86 | without faults, every due event commits and none fails |
| DataCleanup.NoQuestionFaults | src/lib/data-cleanup.ts:89-109 | without faults, every due question commits and none fails |
| DataCleanup.EventPassSummary | src/lib/data-cleanup.ts:66-86 | the event scan of a whole snapshot from zeroed statistics: processed = number of events, deleted = committed due events, the store without them |
| DataCleanup.QuestionPassSummary | src/lib/data-cleanup.ts:89-109 | the question scan of a whole snapshot: processed grows by the number of questions, deleted by the committed due ones |
| DataCleanup.EventPassRecords | src/lib/data-cleanup.ts:66-86 | the event scan of a whole snapshot counts as deleted votes and codes exactly those of the due events whose batch got past their query, and lists exactly the due events whose batch failed |
| DataCleanup.QuestionPassRecords | src/lib/data-cleanup.ts:89-109 | the question scan counts as deleted votes exactly those of the due questions whose batch got past the vote query, leaves voterCodesDeleted alone, keeps the earlier errors and appends exactly the failed due questions |
| DataCleanup.PassCounts | src/lib/data-cleanup.ts:32-63 | the six counters after the three steps of a pass, under any failures |
| DataCleanup.PassStore | src/lib/data-cleanup.ts:32-63 | the store after a pass is a partial orphan sweep of the store the scans left, the full sweep when the orphan pass is clean, and the cleanup pass without failures |
| DataCleanup.PassErrors | src/lib/data-cleanup.ts:32-63 | the error list of a pass: failed events, then failed questions, then one entry if the orphan pass failed; empty without failures |
| DataCleanup.PerformCleanup | src/lib/data-cleanup.ts:32-63 | events are scanned first, then the questions left, then orphans; under any pattern of failures: the exact processed and deleted counts of events and questions (questionsDeleted also counting questions removed with their event), votesDeleted and voterCodesDeleted as the records queued by the scans plus those the orphan pass removed, the store after the orphan pass as a partial sweep of the scanned store and the full sweep when that pass is clean, and the error list as the failed events, then the failed questions, then one entry if the orphan pass failed; without failures the result is the cleanup pass, with no errors |
| StoredTimes.EventCheckAsRead | src/lib/data-cleanup.ts:112-125 | on a raw record the test throws exactly for a closed or evaluated event whose times are `Timestamp`s; otherwise it gives the eligibility verdict |
| StoredTimes.QuestionCheckAsRead | src/lib/data-cleanup.ts:128-141 | the same for questions, whichever of closedAt, evaluatedAt or updatedAt is picked |
| StoredTimes.EventScanAsDates | src/lib/data-cleanup.ts:66-86 | with times read as instants the scan as written equals the event scan of `DataCleanup`, in any order |
| StoredTimes.QuestionScanAsDates | src/lib/data-cleanup.ts:89-109 | the same for the question scan |
| StoredTimes.EventScanKeepsAll | src/lib/data-cleanup.ts:66-86 | on `Timestamp`s, for any order, the scan leaves the store alone and raises no counter but eventsProcessed, by the number of events visited |
| StoredTimes.EventScanFailsTerminal | src/lib/data-cleanup.ts:82-84 | on `Timestamp`s, for any order, the scan keeps the earlier errors and appends exactly one per closed or evaluated event visited |
| StoredTimes.QuestionScanKeepsAll | src/lib/data-cleanup.ts:89-109 | the same store and counters for the question scan |
| StoredTimes.QuestionScanFailsTerminal | src/lib/data-cleanup.ts:105-107 | the same errors for the question scan |
| StoredTimes.StoredTimestampsStopEventCleanup | src/lib/data-cleanup.ts:66-86 | on `Timestamp`s the event scan of a whole snapshot deletes nothing, leaves every deletion counter where it was, and lists exactly the closed or evaluated events, every due event among them |
| StoredTimes.StoredTimestampsStopQuestionCleanup | src/lib/data-cleanup.ts:89-109 | the same for the question scan |
| StoredTimes.ClosedEventOutlivesRetention | src/lib/data-cleanup.ts:112-125 | a closed event 25 h old is due and removed by the intended scan, but kept, with one error, by the scan as written |
| Voting.NormalizeCode | src/app/abstimmen/page.tsx:39 | upper-case then trim: never longer, and no white space at either end |
| Voting.NormalizedIsUpperCase | src/app/abstimmen/page.tsx:39 | a normalised code holds no lower-case ASCII letter |
| Voting.NormalizeWithoutSpace | src/app/abstimmen/page.tsx:39 | input without white space is only upper-cased |
| Voting.InactiveMessage | src/app/abstimmen/page.tsx:94-105 | "not started" exactly for draft, "ended" exactly for closed or evaluated, "not active" exactly for any status outside the order |
| Voting.LookUpCodeOutcome | src/app/abstimmen/page.tsx:51-134 | the checks in order: a read failure, then an unknown code, then a used code, then an unexpected failure exactly when the code has no election id or the election read throws, then a missing election exactly when the election id names no election, then a non-active election with its message; admitted exactly when all pass, with the code and its own active election |
| Voting.VerifyCodeOutcome | src/app/abstimmen/page.tsx:38-135 | a code that is not 4 long gives the invalid-code notification and leaves the page unchanged; otherwise the ballot exactly when the lookup admits, the error screen with the lookup's message otherwise, the spinner off and input, selection and dialog untouched; keeps the page well formed while the dialog is closed |
| Voting.UppercaseInputIsStable | src/app/abstimmen/page.tsx:227 | the upper-casing done on typing does not change what verification reads |
| Voting.TypedCodeReachesLookup | src/app/abstimmen/page.tsx:188-192 | Enter on 4 typed non-space characters reaches the store lookup, with no notification |
| Voting.ResetAfterError | src/app/abstimmen/page.tsx:351-355 | back to code entry with an empty field and no error text, everything else kept; keeps the page well formed |
| Voting.Submit | src/app/abstimmen/page.tsx:157-186 | without a session nothing happens; otherwise the ballot is inserted unless that write throws, and the code is marked used only if both writes succeed, which alone reaches the thank-you screen; a failure keeps the step and raises a notification; spinner and dialog closed either way; other collections untouched; keeps the page well formed |
| Voting.HandleSubmit | src/app/abstimmen/page.tsx:137-155 | no selection writes nothing: a notification if invalid votes are not allowed, the confirmation dialog if they are; with a selection, a valid submission |
| Voting.SubmitAddsOneVote | src/app/abstimmen/page.tsx:162-167 | a submission whose insert goes through adds exactly one vote and keeps every earlier one |
| Voting.BallotIsAnonymous | src/app/abstimmen/page.tsx:162-167 | the stored votes do not depend on which code was used, and the new vote carries only the election id, no event or question |
| Voting.BallotBelongsToCode | src/app/abstimmen/page.tsx:162-174 | a successful submission records a vote for the code's own election, marks that code and no other |
| Voting.BlankBallotNeedsConfirmation | src/app/abstimmen/page.tsx:140-152 | no selection writes nothing and opens the dialog exactly when invalid votes are allowed; confirming stores a vote with no option marked invalid |
| Voting.SubmittedVoteIsValid | src/app/abstimmen/page.tsx:149-154 | the submit button stores a vote only for a selected option, as a valid vote for it |
| Voting.SubmitIgnoresElectionStatus | src/app/abstimmen/page.tsx:157-174 | the outcome of a submission does not depend on the elections collection |
| Voting.NoSecondVoteWithSameCode | src/app/abstimmen/page.tsx:169-172 | after a successful submission, verifying the same (unique) code again is refused as already used |
| Voting.SecondWriteFailureKeepsVote | src/app/abstimmen/page.tsx:162-185 | when the code update fails, the vote stays, the code stays unmarked, the step is not done, and a verification finds the code as before |
| Voting.ElectionVotesDoNotSurviveCleanup | src/app/abstimmen/page.tsx:162-167 | votes and codes of the election flow carry no event id, so any cleanup pass deletes them |
| Voting.VotingPage.constructor | src/app/abstimmen/page.tsx:21-28 | the page starts at code entry with everything empty |
| Voting.VotingPage.LoadCodeFromUrl | src/app/abstimmen/page.tsx:30-36 | a non-empty URL code is upper-cased into the field; otherwise nothing changes |
| Voting.VotingPage.EnterCode | src/app/abstimmen/page.tsx:227 | typing stores the upper-cased text |
| Voting.VotingPage.SelectOption | src/app/abstimmen/page.tsx:277 | choosing an option selects it, nothing else changes |
| Voting.VotingPage.QueryCode | src/app/abstimmen/page.tsx:52-92 | the reads of the verification: the lookup result for one of the matching documents |
| Voting.VotingPage.ShowLookup | src/app/abstimmen/page.tsx:56-127 | the page after the lookup: the error screen with its message, or the ballot with the code and election |
| Voting.VotingPage.HandleVerifyCode | src/app/abstimmen/page.tsx:38-135 | equal to the verification transition on the normalised entered code |
| Voting.VotingPage.HandleKeyPress | src/app/abstimmen/page.tsx:188-192 | equal to the key transition: verification only for Enter with 4 characters in the field |
| Voting.VotingPage.SubmitVote | src/app/abstimmen/page.tsx:157-186 | page and store end as the submission transition says |
| Voting.VotingPage.HandleSubmitVote | src/app/abstimmen/page.tsx:137-155 | page and store end as the submit-button transition says |
| Voting.VotingPage.ConfirmInvalidVote | src/app/abstimmen/page.tsx:380 | the dialog's confirm button submits an invalid vote |
| Voting.VotingPage.DismissInvalidWarning | src/app/abstimmen/page.tsx:363 | closing the dialog changes nothing else |
| Voting.VotingPage.EnterAnotherCode | src/app/abstimmen/page.tsx:351-355 | the error screen's button performs the reset |
| EventService.NewEvent | src/lib/event-service.ts:10-31 | always a draft of the given association, created and updated at `now`; falsy title, description, start time, capacity and invitation take their defaults (empty description, the fixed invitation text), given ones are kept as given, so a capacity of 0 becomes 50; link display only for true; end time present exactly when supplied |
| EventService.NewQuestion | src/lib/event-service.ts:38-48 | a draft of the given event without status timestamps; a falsy question text takes the default, a given one is kept; invalid votes only if true; order 0 and no options unless supplied |
| EventService.NewEventOnlyRefusesBackdating | src/lib/event-service.ts:20 | a new event refuses an update only for moving its start date into the past |
| EventService.NewQuestionIsOpen | src/lib/event-service.ts:44 | a new question accepts every update and may be started |
| EventService.NewRecordsAreKept | src/lib/event-service.ts:20 | a new event or question is never due for cleanup |
| EventService.CreateEvent | src/lib/event-service.ts:10-35 | adds the new event under the generated id and returns that id; nothing else changes |
| EventService.CreateQuestion | src/lib/event-service.ts:38-52 | adds the new question under the generated id; nothing else changes |
| EventService.InsertBy | src/lib/event-service.ts:73 | inserting adds exactly that entry (as a multiset) |
| EventService.InsertKeepsOrder | src/lib/event-service.ts:73 | inserting into an ascending listing keeps it ascending |
| EventService.SortBy | src/lib/event-service.ts:73 | the sort is a permutation of its input, ascending by the comparator's key |
| EventService.SortKeepsIdsDistinct | src/lib/event-service.ts:73 | sorting keeps the ids distinct |
| EventService.SortedListingIsComplete | src/lib/event-service.ts:73 | sorting a complete listing leaves it complete |
| EventService.Collect | src/lib/event-service.ts:57-71 | the snapshot loop lists exactly the selected documents, each once with its stored value |
| EventService.GetEvents | src/lib/event-service.ts:55-74 | exactly the events of the association, each once, newest first |
| EventService.GetQuestions | src/lib/event-service.ts:77-97 | exactly the questions of the event, each once, by ascending order |
| EventService.EmptiedFirst | src/lib/event-service.ts:106-133 | after the first n collections are purged, those are empty, the later ones and the events and questions unchanged |
| EventService.Reached | src/lib/event-service.ts:106-133 | a purge without failure covers all four collections |
| EventService.BatchAll | src/lib/event-service.ts:117-120 | every document of the collection goes into the batch |
| EventService.EmptyCollection | src/lib/event-service.ts:113-124 | the collection is emptied, nothing else changes |
| EventService.CleanupOldTestData | src/lib/event-service.ts:102-134 | elections, election questions, votes and voter codes are emptied in that order; a failure ends the purge with the earlier ones emptied and the later ones untouched; events and questions untouched |
| EventService.PurgeRemovesEventVotes | src/lib/event-service.ts:107-112 | a complete purge also removes the votes of the event flow, which share the collection, while sparing events |

## Left out

- Logging, the audit-log record and the cleanup's audit entry (`createAuditLog`, `logCleanupResults`, `saveAuditLog`) only build or print records; they are not modelled.
- The hourly timer of `startAutomaticCleanup` is scheduling; one `performCleanup` pass is modelled.
- `cleanupEventManually` only calls `deleteEventData` with a different starting statistics record; it is not modelled separately.
- The cleanup reads the clock once per event and once per question; the model reads it once per pass.
- The failure of the snapshot reads that start the event and question scans is not modelled: a throw there escapes to the outer `catch` of `performCleanup`, which skips the rest of the pass. The three reads of the orphan pass are modelled.
- Document order in query snapshots is not fixed by the store: the scans are proved for every visit order, and `querySnapshot.docs[0]` is any matching document.
- `toUpperCase` is modelled on ASCII letters only, and string length counts characters rather than UTF-16 units.
- Patch keys present with the value `undefined` are treated as absent.
- Tallying, per-question redemption and code generation are not part of this core; `generateUniqueCode` is not part of this model.
- The conversion of stored timestamps to `Date` (with `new Date()` defaults) in `getEvents`/`getQuestions` is not modelled; documents are listed with their stored values.
- The input's `maxLength` and the disabled state of the buttons (loading, code length) are rendering; the handlers are modelled as callable in any state.
- Voting.NoSecondVoteWithSameCode: requires the code to match only its own document, because code uniqueness comes from the code generator, which is not part of this model.
- Voting.VotingPage.HandleVerifyCode: keeps the page well formed only when the blank-ballot dialog is closed; with it open, a new election could be loaded under the dialog, which the page's layout prevents but the handler does not.
- Voting.VotingPage.HandleKeyPress: as above, well-formedness is kept only with the dialog closed.
- EventService.SortBy: the sort is proved to be an ascending permutation; its stability (equal keys keep their order) is not stated.
- EventService.CreateEvent: the generated id is a parameter required to be unused, standing in for `addDoc`.
- EventService.CreateQuestion: likewise.

## Findings

| source | as written | input that shows it | evidently intended | confidence | as-written member | corrected member |
|---|---|---|---|---|---|---|
| src/lib/data-cleanup.ts:329-343 | `'status' in entity` holds for questions too, so every question takes the event branch and its countdown runs from `updatedAt` | an evaluated question closed at 0 and evaluated at 1 h (updatedAt 1 h), viewed at 24 h: due for cleanup, yet the countdown shows deletion at 25 h | questions timed from `closedAt \|\| evaluatedAt \|\| updatedAt`, as in their eligibility test, so the countdown is empty exactly when the question is due | not executed | DataCleanup.QuestionCountdownMissesDueQuestion | DataCleanup.DeletionTimestamp |
| src/lib/data-cleanup.ts:66-141 | the scans pass the raw `data()` of each document to the eligibility tests, which call `getTime()` on stored times (lines 122 and 138); `createEvent` and `createQuestion` store `Timestamp.now()` (src/lib/event-service.ts:21-22, 46-47), and a Firestore `Timestamp` has no `getTime`, so the test throws for every closed or evaluated record | a closed event updated 25 h before the pass: the scan records an error for it and keeps it, with its votes and codes | stored times converted with `toDate()`, as `getEvents` and `getQuestions` do (src/lib/event-service.ts:66-69, 88-92), so due records are deleted | not executed | StoredTimes.StoredTimestampsStopEventCleanup | StoredTimes.EventScanAsDates |

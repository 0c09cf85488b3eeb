/** Retention cleanup: events and questions that have been closed or
    evaluated for 24 hours are deleted together with their votes and voter
    codes, and votes or codes that point at no existing event are swept.

    The clock is the parameter `now` (one reading per pass). Failures of the
    store are parameters too: which step of a deletion batch throws, and
    which single deletes of the orphan sweep throw. */
module DataCleanup {
  import opened Types
  import opened Store

  const RetentionHours := 24
  const HourMs := 3_600_000
  /** The 24 hour retention window in milliseconds. */
  const RetentionMs := 86_400_000

  // ---------------------------------------------------------------------
  // Eligibility

  /** A closed or evaluated event whose last update is at least 24 hours
      old. The source compares fractional hours; the contract restates the
      test on integer milliseconds. */
  function ShouldCleanupEvent(event: Event, now: int): (due: bool)
    ensures due <==> IsTerminal(event.status) && now - event.updatedAt >= RetentionMs
  {
    if !IsTerminal(event.status) then false
    else
      var hoursSinceChange := (now - event.updatedAt) as real / (1000.0 * 60.0 * 60.0);
      hoursSinceChange >= RetentionHours as real
  }

  /** `closedAt || evaluatedAt || updatedAt`. */
  function RelevantTimestamp(q: EventQuestion): int {
    if q.closedAt.Some? then q.closedAt.value
    else if q.evaluatedAt.Some? then q.evaluatedAt.value
    else q.updatedAt
  }

  /** The question counterpart: the 24 hours run from the closing time,
      falling back to the evaluation time and then to the last update. */
  function ShouldCleanupQuestion(q: EventQuestion, now: int): (due: bool)
    ensures due <==> IsTerminal(q.status) && now - RelevantTimestamp(q) >= RetentionMs
    ensures q.closedAt.Some? ==> (due <==> IsTerminal(q.status) && now - q.closedAt.value >= RetentionMs)
    ensures q.closedAt.None? && q.evaluatedAt.None? ==>
      (due <==> IsTerminal(q.status) && now - q.updatedAt >= RetentionMs)
  {
    if !IsTerminal(q.status) then false
    else
      var hoursSinceChange := (now - RelevantTimestamp(q)) as real / (1000.0 * 60.0 * 60.0);
      hoursSinceChange >= RetentionHours as real
  }

  // ---------------------------------------------------------------------
  // Deletion countdown

  /** When an entity will be deleted, or None when it is not due for
      deletion or already overdue.

      The source tells events from questions with `'status' in entity`;
      both records carry `status`, so every entity takes the event branch
      and is timed from `updatedAt`, questions included. */
  function GetDeletionTimestamp(entity: Entity, now: int): (r: Option<int>)
    ensures r.Some? ==> IsTerminal(entity.Status()) && r.value > now
    ensures r.Some? ==> r.value == entity.UpdatedAt() + RetentionMs
    ensures entity.EventEntity? ==>
      (r.None? <==> !IsTerminal(entity.event.status) || ShouldCleanupEvent(entity.event, now))
  {
    if IsTerminal(entity.Status()) then
      var deletionTime := entity.UpdatedAt() + RetentionHours * 60 * 60 * 1000;
      if deletionTime > now then Some(deletionTime) else None
    else None
  }

  /** An evaluated question, closed at time 0 and evaluated an hour later,
      is due for cleanup at 24 h, yet the countdown still shows an hour. */
  lemma QuestionCountdownMissesDueQuestion()
    ensures var q := EventQuestion("e1", "Q", [], false, Evaluated, 0, Some(0), Some(0), Some(HourMs), 0, HourMs);
            ShouldCleanupQuestion(q, RetentionMs)
            && GetDeletionTimestamp(QuestionEntity(q), RetentionMs) == Some(RetentionMs + HourMs)
  {
  }

  /** The deletion time with the question branch reachable: questions are
      timed from `closedAt || evaluatedAt || updatedAt`. */
  function DeletionTimestamp(entity: Entity, now: int): (r: Option<int>)
    ensures r.Some? ==> IsTerminal(entity.Status()) && r.value > now
    ensures entity.EventEntity? ==>
      (r.None? <==> !IsTerminal(entity.event.status) || ShouldCleanupEvent(entity.event, now))
    ensures entity.QuestionEntity? ==>
      (r.None? <==> !IsTerminal(entity.question.status) || ShouldCleanupQuestion(entity.question, now))
  {
    match entity
    case EventEntity(_) => GetDeletionTimestamp(entity, now)
    case QuestionEntity(q) =>
      if IsTerminal(q.status) then
        var deletionTime := RelevantTimestamp(q) + RetentionHours * 60 * 60 * 1000;
        if deletionTime > now then Some(deletionTime) else None
      else None
  }

  /** The text `${hours}h ${minutes}m ${seconds}s`, or the overdue marker. */
  datatype RemainingTime = DeletionDue | Remaining(hours: nat, minutes: nat, seconds: nat)

  /** Splitting milliseconds into hours, minutes and seconds loses nothing
      but the milliseconds. */
  lemma ClockSplit(remaining: nat)
    ensures (remaining / 3_600_000) * 3600 + (remaining % 3_600_000) / 60_000 * 60
            + (remaining % 60_000) / 1000 == remaining / 1000
  {
    var h, a := remaining / 3_600_000, remaining % 3_600_000;
    var m, b := a / 60_000, a % 60_000;
    var s, c := b / 1000, b % 1000;
    assert remaining == (60 * h + m) * 60_000 + b;
    assert remaining % 60_000 == b;
    assert remaining == (3600 * h + 60 * m + s) * 1000 + c;
    assert remaining / 1000 == 3600 * h + 60 * m + s;
  }

  function FormatRemainingTime(deletionTime: int, now: int): (r: RemainingTime)
    ensures r.DeletionDue? <==> deletionTime - now <= 0
    ensures r.Remaining? ==>
      && r.minutes < 60 && r.seconds < 60
      && r.hours * 3600 + r.minutes * 60 + r.seconds == (deletionTime - now) / 1000
  {
    var remaining := deletionTime - now;
    if remaining <= 0 then DeletionDue
    else
      var hours := remaining / (1000 * 60 * 60);
      var minutes := (remaining % (1000 * 60 * 60)) / (1000 * 60);
      var seconds := (remaining % (1000 * 60)) / 1000;
      ClockSplit(remaining);
      Remaining(hours, minutes, seconds)
  }

  // ---------------------------------------------------------------------
  // What a deletion removes

  /** The document field `eventId` (or `questionId`) names one of `ids`;
      an absent field names none. */
  predicate RefersTo(ref: Option<string>, ids: set<string>) {
    ref.Some? && ref.value in ids
  }

  function VotesOf(d: Db, eventIds: set<string>): set<string> {
    set k | k in d.votes && RefersTo(d.votes[k].eventId, eventIds)
  }

  function CodesOf(d: Db, eventIds: set<string>): set<string> {
    set k | k in d.voterCodes && RefersTo(d.voterCodes[k].eventId, eventIds)
  }

  function QuestionsOf(d: Db, eventIds: set<string>): set<string> {
    set k | k in d.eventQuestions && d.eventQuestions[k].eventId in eventIds
  }

  function VotesOfQuestions(d: Db, questionIds: set<string>): set<string> {
    set k | k in d.votes && RefersTo(d.votes[k].questionId, questionIds)
  }

  /** The store after the events `ids` are deleted with everything that
      names them. */
  function WithoutEvents(d: Db, ids: set<string>): Db {
    d.(events := d.events - ids,
       eventQuestions := d.eventQuestions - QuestionsOf(d, ids),
       votes := d.votes - VotesOf(d, ids),
       voterCodes := d.voterCodes - CodesOf(d, ids))
  }

  /** Deleting events removes exactly the events, and the votes, voter
      codes and questions whose `eventId` names one of them; every other
      record is kept as it was. */
  lemma WithoutEventsRemovesExactly(d: Db, ids: set<string>)
    ensures var r := WithoutEvents(d, ids);
      && r.events.Keys == d.events.Keys - ids
      && (forall k :: k in r.votes <==> k in d.votes && !RefersTo(d.votes[k].eventId, ids))
      && (forall k :: k in r.voterCodes <==> k in d.voterCodes && !RefersTo(d.voterCodes[k].eventId, ids))
      && (forall k :: k in r.eventQuestions <==> k in d.eventQuestions && d.eventQuestions[k].eventId !in ids)
      && (forall k :: k in r.events ==> r.events[k] == d.events[k])
      && (forall k :: k in r.votes ==> r.votes[k] == d.votes[k])
      && (forall k :: k in r.voterCodes ==> r.voterCodes[k] == d.voterCodes[k])
      && (forall k :: k in r.eventQuestions ==> r.eventQuestions[k] == d.eventQuestions[k])
      && r.elections == d.elections && r.electionQuestions == d.electionQuestions
  {
  }

  /** The store after the questions `ids` are deleted with their votes. */
  function WithoutQuestions(d: Db, ids: set<string>): Db {
    d.(eventQuestions := d.eventQuestions - ids, votes := d.votes - VotesOfQuestions(d, ids))
  }

  /** Deleting questions removes exactly those questions and the votes whose
      `questionId` names one of them; events, voter codes, other questions
      and other votes are kept. */
  lemma WithoutQuestionsRemovesExactly(d: Db, ids: set<string>)
    ensures var r := WithoutQuestions(d, ids);
      && r.eventQuestions.Keys == d.eventQuestions.Keys - ids
      && (forall k :: k in r.votes <==> k in d.votes && !RefersTo(d.votes[k].questionId, ids))
      && (forall k :: k in r.votes ==> r.votes[k] == d.votes[k])
      && (forall k :: k in r.eventQuestions ==> r.eventQuestions[k] == d.eventQuestions[k])
      && r.events == d.events && r.voterCodes == d.voterCodes
      && r.elections == d.elections && r.electionQuestions == d.electionQuestions
  {
  }

  lemma GrowIntersection<T>(s: set<T>, done: set<T>, x: T)
    requires x !in done
    ensures s * (done + {x}) == if x in s then s * done + {x} else s * done
    ensures |s * (done + {x})| == |s * done| + if x in s then 1 else 0
  {
  }

  lemma AppendAssoc<T>(a: seq<T>, b: seq<T>, c: seq<T>)
    ensures a + (b + c) == a + b + c
  {
  }

  /** Deleting no events changes nothing. */
  lemma WithoutNoEvents(d: Db)
    ensures WithoutEvents(d, {}) == d
  {
    assert VotesOf(d, {}) == {} && CodesOf(d, {}) == {} && QuestionsOf(d, {}) == {};
  }

  /** An event not yet deleted still has all its records after other
      events were deleted. */
  lemma {:induction false} RecordsOfUnvisitedEvent(d: Db, done: set<string>, id: string)
    requires id !in done
    ensures VotesOf(WithoutEvents(d, done), {id}) == VotesOf(d, {id})
    ensures CodesOf(WithoutEvents(d, done), {id}) == CodesOf(d, {id})
    ensures QuestionsOf(WithoutEvents(d, done), {id}) == QuestionsOf(d, {id})
  {
    var d1 := WithoutEvents(d, done);
    assert VotesOf(d1, {id}) == VotesOf(d, {id});
    assert CodesOf(d1, {id}) == CodesOf(d, {id});
    assert QuestionsOf(d1, {id}) == QuestionsOf(d, {id});
  }

  /** Deleting two groups of events one after the other is deleting their
      union. */
  lemma {:induction false} WithoutEventsAgain(d: Db, done: set<string>, id: string)
    requires id !in done
    ensures WithoutEvents(WithoutEvents(d, done), {id}) == WithoutEvents(d, done + {id})
  {
    var d1 := WithoutEvents(d, done);
    RecordsOfUnvisitedEvent(d, done, id);
    var l, r := WithoutEvents(d1, {id}), WithoutEvents(d, done + {id});
    assert l.votes.Keys == r.votes.Keys;
    assert l.voterCodes.Keys == r.voterCodes.Keys;
    assert l.eventQuestions.Keys == r.eventQuestions.Keys;
    assert l.events.Keys == r.events.Keys;
  }

  /** A question not yet deleted still has all its votes after other
      questions were deleted. */
  lemma {:induction false} RecordsOfUnvisitedQuestion(d: Db, done: set<string>, id: string)
    requires id !in done
    ensures VotesOfQuestions(WithoutQuestions(d, done), {id}) == VotesOfQuestions(d, {id})
  {
    assert VotesOfQuestions(WithoutQuestions(d, done), {id}) == VotesOfQuestions(d, {id});
  }

  /** The counterpart of `WithoutEventsAgain` for questions. */
  lemma {:induction false} WithoutQuestionsAgain(d: Db, done: set<string>, id: string)
    requires id !in done
    ensures WithoutQuestions(WithoutQuestions(d, done), {id}) == WithoutQuestions(d, done + {id})
  {
    var d1 := WithoutQuestions(d, done);
    RecordsOfUnvisitedQuestion(d, done, id);
    var l, r := WithoutQuestions(d1, {id}), WithoutQuestions(d, done + {id});
    assert l.votes.Keys == r.votes.Keys;
    assert l.eventQuestions.Keys == r.eventQuestions.Keys;
  }

  lemma DisjointUnionSize<T>(a: set<T>, b: set<T>)
    requires a !! b
    ensures |a + b| == |a| + |b|
  {
  }

  /** The records of distinct events are disjoint, so their counts add up. */
  lemma VoteCountsAdd(d: Db, done: set<string>, id: string)
    requires id !in done
    ensures |VotesOf(d, done + {id})| == |VotesOf(d, done)| + |VotesOf(d, {id})|
  {
    var a, b := VotesOf(d, done), VotesOf(d, {id});
    assert VotesOf(d, done + {id}) == a + b;
    DisjointUnionSize(a, b);
  }

  lemma CodeCountsAdd(d: Db, done: set<string>, id: string)
    requires id !in done
    ensures |CodesOf(d, done + {id})| == |CodesOf(d, done)| + |CodesOf(d, {id})|
  {
    var a, b := CodesOf(d, done), CodesOf(d, {id});
    assert CodesOf(d, done + {id}) == a + b;
    DisjointUnionSize(a, b);
  }

  lemma QuestionCountsAdd(d: Db, done: set<string>, id: string)
    requires id !in done
    ensures |QuestionsOf(d, done + {id})| == |QuestionsOf(d, done)| + |QuestionsOf(d, {id})|
  {
    var a, b := QuestionsOf(d, done), QuestionsOf(d, {id});
    assert QuestionsOf(d, done + {id}) == a + b;
    DisjointUnionSize(a, b);
  }

  lemma QuestionVoteCountsAdd(d: Db, done: set<string>, id: string)
    requires id !in done
    ensures |VotesOfQuestions(d, done + {id})| == |VotesOfQuestions(d, done)| + |VotesOfQuestions(d, {id})|
  {
    var a, b := VotesOfQuestions(d, done), VotesOfQuestions(d, {id});
    assert VotesOfQuestions(d, done + {id}) == a + b;
    DisjointUnionSize(a, b);
  }

  // ---------------------------------------------------------------------
  // Statistics and failures

  datatype CleanupError = EventFailed(eventId: string) | QuestionFailed(questionId: string) | OrphanSweepFailed

  datatype CleanupStats = CleanupStats(
    eventsProcessed: nat,
    eventsDeleted: nat,
    questionsProcessed: nat,
    questionsDeleted: nat,
    votesDeleted: nat,
    voterCodesDeleted: nat,
    errors: seq<CleanupError>)

  const EmptyStats := CleanupStats(0, 0, 0, 0, 0, 0, [])

  /** Which await of `deleteEventData` throws. Counters are raised while the
      batch is built, so the steps before the failing one are counted even
      though nothing is committed. */
  datatype EventFault = NoEventFault | VotesQueryFails | CodesQueryFails | QuestionsQueryFails | EventCommitFails {
    predicate CountsVotes() { !VotesQueryFails? }
    predicate CountsCodes() { CountsVotes() && !CodesQueryFails? }
    predicate CountsQuestions() { CountsCodes() && !QuestionsQueryFails? }
  }

  /** Which await of `deleteQuestionData` throws. */
  datatype QuestionFault = NoQuestionFault | QuestionVotesQueryFails | QuestionCommitFails

  function EventFaultOf(faults: map<string, EventFault>, id: string): EventFault {
    if id in faults then faults[id] else NoEventFault
  }

  function QuestionFaultOf(faults: map<string, QuestionFault>, id: string): QuestionFault {
    if id in faults then faults[id] else NoQuestionFault
  }

  // ---------------------------------------------------------------------
  // Deleting one event or question

  /** `snapshot.forEach(doc => { batch.delete(doc); stats.x++ })`: every
      document of the query result goes into the batch, and the counter
      grows by one per document. */
  method AddToBatch(docs: set<string>) returns (batch: set<string>, counted: nat)
    ensures batch == docs && counted == |docs|
  {
    batch, counted := {}, 0;
    var pending := docs;
    while pending != {}
      invariant batch + pending == docs && batch !! pending
      invariant counted == |batch|
      decreases pending
    {
      var k :| k in pending;
      batch, counted := batch + {k}, counted + 1;
      pending := pending - {k};
    }
  }

  /** Deletes an event's votes, voter codes and questions and the event
      itself as one batch: all of it is committed, or nothing. */
  method DeleteEventData(db: Database, eventId: string, fault: EventFault, stats: CleanupStats)
    returns (stats': CleanupStats, committed: bool)
    modifies db
    ensures committed <==> fault == NoEventFault
    ensures committed ==> db.Contents() == WithoutEvents(old(db.Contents()), {eventId})
    ensures !committed ==> db.Contents() == old(db.Contents())
    ensures stats'.votesDeleted == stats.votesDeleted
      + (if fault.CountsVotes() then |VotesOf(old(db.Contents()), {eventId})| else 0)
    ensures stats'.voterCodesDeleted == stats.voterCodesDeleted
      + (if fault.CountsCodes() then |CodesOf(old(db.Contents()), {eventId})| else 0)
    ensures stats'.questionsDeleted == stats.questionsDeleted
      + (if fault.CountsQuestions() then |QuestionsOf(old(db.Contents()), {eventId})| else 0)
    ensures stats' == stats.(votesDeleted := stats'.votesDeleted, voterCodesDeleted := stats'.voterCodesDeleted,
                             questionsDeleted := stats'.questionsDeleted)
  {
    stats', committed := stats, false;
    var d := db.Contents();
    if fault == VotesQueryFails { return; }
    var voteBatch, nVotes := AddToBatch(VotesOf(d, {eventId}));
    stats' := stats'.(votesDeleted := stats'.votesDeleted + nVotes);
    if fault == CodesQueryFails { return; }
    var codeBatch, nCodes := AddToBatch(CodesOf(d, {eventId}));
    stats' := stats'.(voterCodesDeleted := stats'.voterCodesDeleted + nCodes);
    if fault == QuestionsQueryFails { return; }
    var questionBatch, nQuestions := AddToBatch(QuestionsOf(d, {eventId}));
    stats' := stats'.(questionsDeleted := stats'.questionsDeleted + nQuestions);
    if fault == EventCommitFails { return; }
    db.votes := db.votes - voteBatch;
    db.voterCodes := db.voterCodes - codeBatch;
    db.eventQuestions := db.eventQuestions - questionBatch;
    db.events := db.events - {eventId};
    committed := true;
  }

  /** Deletes a question's votes (found by `questionId`) and the question
      as one batch. */
  method DeleteQuestionData(db: Database, questionId: string, fault: QuestionFault, stats: CleanupStats)
    returns (stats': CleanupStats, committed: bool)
    modifies db
    ensures committed <==> fault == NoQuestionFault
    ensures committed ==> db.Contents() == WithoutQuestions(old(db.Contents()), {questionId})
    ensures !committed ==> db.Contents() == old(db.Contents())
    ensures stats' == stats.(votesDeleted := stats.votesDeleted
      + (if fault == QuestionVotesQueryFails then 0 else |VotesOfQuestions(old(db.Contents()), {questionId})|))
  {
    stats', committed := stats, false;
    var d := db.Contents();
    if fault == QuestionVotesQueryFails { return; }
    var voteBatch, nVotes := AddToBatch(VotesOfQuestions(d, {questionId}));
    stats' := stats'.(votesDeleted := stats'.votesDeleted + nVotes);
    if fault == QuestionCommitFails { return; }
    db.votes := db.votes - voteBatch;
    db.eventQuestions := db.eventQuestions - {questionId};
    committed := true;
  }

  // ---------------------------------------------------------------------
  // The event and question scans

  function DueEvents(d: Db, now: int): set<string> {
    set k | k in d.events && ShouldCleanupEvent(d.events[k], now)
  }

  /** How far an event's deletion batch gets: it commits, it fails, or it
      gets far enough that a counter was raised. */
  datatype BatchStage = Committed | FailedFault | CountsVotes | CountsCodes | CountsQuestions

  predicate Reaches(fault: EventFault, stage: BatchStage) {
    match stage
    case Committed => fault == NoEventFault
    case FailedFault => fault != NoEventFault
    case CountsVotes => fault.CountsVotes()
    case CountsCodes => fault.CountsCodes()
    case CountsQuestions => fault.CountsQuestions()
  }

  /** Due events whose deletion batch reaches `stage`. */
  function DueEventsWhere(d: Db, now: int, faults: map<string, EventFault>, stage: BatchStage): set<string> {
    set k | k in DueEvents(d, now) && Reaches(EventFaultOf(faults, k), stage)
  }

  /** The failure entry an event adds to `errors`: one when a due event's
      batch fails, none otherwise. */
  function EventFailure(id: string, due: bool, fault: EventFault): seq<CleanupError> {
    if due && fault != NoEventFault then [EventFailed(id)] else []
  }

  /** The statistics after one iteration of the event scan on store `d`. */
  function EventStep(d: Db, id: string, due: bool, fault: EventFault, stats: CleanupStats): CleanupStats {
    stats.(eventsProcessed := stats.eventsProcessed + 1,
           eventsDeleted := stats.eventsDeleted + (if due && fault == NoEventFault then 1 else 0),
           votesDeleted := stats.votesDeleted + (if due && fault.CountsVotes() then |VotesOf(d, {id})| else 0),
           voterCodesDeleted := stats.voterCodesDeleted + (if due && fault.CountsCodes() then |CodesOf(d, {id})| else 0),
           questionsDeleted := stats.questionsDeleted + (if due && fault.CountsQuestions() then |QuestionsOf(d, {id})| else 0),
           errors := stats.errors + EventFailure(id, due, fault))
  }

  /** The counters (errors left out) after the event scan has visited the
      events `done` of the snapshot `d0`, starting from `stats`. */
  function EventScanCounters(d0: Db, now: int, faults: map<string, EventFault>, done: set<string>,
                             stats: CleanupStats): CleanupStats {
    stats.(eventsProcessed := stats.eventsProcessed + |done|,
           eventsDeleted := stats.eventsDeleted + |DueEventsWhere(d0, now, faults, Committed) * done|,
           votesDeleted := stats.votesDeleted + |VotesOf(d0, DueEventsWhere(d0, now, faults, CountsVotes) * done)|,
           voterCodesDeleted := stats.voterCodesDeleted + |CodesOf(d0, DueEventsWhere(d0, now, faults, CountsCodes) * done)|,
           questionsDeleted := stats.questionsDeleted + |QuestionsOf(d0, DueEventsWhere(d0, now, faults, CountsQuestions) * done)|,
           errors := [])
  }

  /** `es` names each event of `ids` once and nothing else. */
  predicate ListsEventFailures(es: seq<CleanupError>, ids: set<string>) {
    && |es| == |ids|
    && (forall e :: e in es ==> e.EventFailed? && e.eventId in ids)
    && (forall id :: id in ids ==> EventFailed(id) in es)
  }

  /** Before the scan visits any event, the store and the counters are as
      they were. */
  lemma EventScanStart(d0: Db, now: int, faults: map<string, EventFault>, stats: CleanupStats)
    ensures EventScanCounters(d0, now, faults, {}, stats) == stats.(errors := [])
    ensures WithoutEvents(d0, DueEventsWhere(d0, now, faults, Committed) * {}) == d0
    ensures ListsEventFailures([], DueEventsWhere(d0, now, faults, FailedFault) * {})
  {
    assert DueEventsWhere(d0, now, faults, Committed) * {} == {};
    assert VotesOf(d0, DueEventsWhere(d0, now, faults, CountsVotes) * {}) == {};
    assert CodesOf(d0, DueEventsWhere(d0, now, faults, CountsCodes) * {}) == {};
    assert QuestionsOf(d0, DueEventsWhere(d0, now, faults, CountsQuestions) * {}) == {};
    assert DueEventsWhere(d0, now, faults, FailedFault) * {} == {};
    WithoutNoEvents(d0);
  }

  /** Only events of the store are due. */
  lemma DueEventsWithin(d0: Db, now: int, faults: map<string, EventFault>, stage: BatchStage)
    ensures DueEventsWhere(d0, now, faults, stage) * d0.events.Keys == DueEventsWhere(d0, now, faults, stage)
  {
  }

  /** Only questions of the store are due. */
  lemma QuestionsWithin(d0: Db, now: int, faults: map<string, QuestionFault>, stage: QuestionStage)
    ensures DueQuestionsWhere(d0, now, faults, stage) * d0.eventQuestions.Keys == DueQuestionsWhere(d0, now, faults, stage)
  {
  }

  /** Visiting one more event extends the scan's counters by one step. */
  lemma {:induction false} EventScanStep(d0: Db, now: int, faults: map<string, EventFault>, done: set<string>,
                                         id: string, s: CleanupStats, stats: CleanupStats)
    requires id in d0.events && id !in done
    requires s.(errors := []) == EventScanCounters(d0, now, faults, done, stats)
    ensures var d := WithoutEvents(d0, DueEventsWhere(d0, now, faults, Committed) * done);
      EventStep(d, id, DueIn(d0, id, now), EventFaultOf(faults, id), s).(errors := [])
        == EventScanCounters(d0, now, faults, done + {id}, stats)
  {
    var d := WithoutEvents(d0, DueEventsWhere(d0, now, faults, Committed) * done);
    var due, fault := DueIn(d0, id, now), EventFaultOf(faults, id);
    var after := EventScanCounters(d0, now, faults, done + {id}, stats);
    var t := EventStep(d, id, due, fault, s);
    RecordsOfUnvisitedEvent(d0, DueEventsWhere(d0, now, faults, Committed) * done, id);
    DeletedCountStep(d0, now, faults, done, id);
    VoteCountStep(d0, now, faults, done, id);
    CodeCountStep(d0, now, faults, done, id);
    QuestionCountStep(d0, now, faults, done, id);
    assert t.eventsDeleted == after.eventsDeleted;
    assert t.votesDeleted == after.votesDeleted;
    assert t.voterCodesDeleted == after.voterCodesDeleted;
    assert t.questionsDeleted == after.questionsDeleted;
  }

  lemma DeletedCountStep(d0: Db, now: int, faults: map<string, EventFault>, done: set<string>, id: string)
    requires id in d0.events && id !in done
    ensures var removed := DueEventsWhere(d0, now, faults, Committed);
      |removed * (done + {id})| == |removed * done|
        + if DueIn(d0, id, now) && EventFaultOf(faults, id) == NoEventFault then 1 else 0
  {
    var removed := DueEventsWhere(d0, now, faults, Committed);
    assert id in removed <==> DueIn(d0, id, now) && EventFaultOf(faults, id) == NoEventFault;
    GrowIntersection(removed, done, id);
  }

  lemma VoteCountStep(d0: Db, now: int, faults: map<string, EventFault>, done: set<string>, id: string)
    requires id in d0.events && id !in done
    ensures var counted := DueEventsWhere(d0, now, faults, CountsVotes);
      |VotesOf(d0, counted * (done + {id}))| == |VotesOf(d0, counted * done)|
        + if DueIn(d0, id, now) && EventFaultOf(faults, id).CountsVotes() then |VotesOf(d0, {id})| else 0
  {
    var counted := DueEventsWhere(d0, now, faults, CountsVotes);
    assert id in counted <==> DueIn(d0, id, now) && EventFaultOf(faults, id).CountsVotes();
    GrowIntersection(counted, done, id);
    VoteCountsAdd(d0, counted * done, id);
  }

  lemma CodeCountStep(d0: Db, now: int, faults: map<string, EventFault>, done: set<string>, id: string)
    requires id in d0.events && id !in done
    ensures var counted := DueEventsWhere(d0, now, faults, CountsCodes);
      |CodesOf(d0, counted * (done + {id}))| == |CodesOf(d0, counted * done)|
        + if DueIn(d0, id, now) && EventFaultOf(faults, id).CountsCodes() then |CodesOf(d0, {id})| else 0
  {
    var counted := DueEventsWhere(d0, now, faults, CountsCodes);
    assert id in counted <==> DueIn(d0, id, now) && EventFaultOf(faults, id).CountsCodes();
    GrowIntersection(counted, done, id);
    CodeCountsAdd(d0, counted * done, id);
  }

  lemma QuestionCountStep(d0: Db, now: int, faults: map<string, EventFault>, done: set<string>, id: string)
    requires id in d0.events && id !in done
    ensures var counted := DueEventsWhere(d0, now, faults, CountsQuestions);
      |QuestionsOf(d0, counted * (done + {id}))| == |QuestionsOf(d0, counted * done)|
        + if DueIn(d0, id, now) && EventFaultOf(faults, id).CountsQuestions() then |QuestionsOf(d0, {id})| else 0
  {
    var counted := DueEventsWhere(d0, now, faults, CountsQuestions);
    assert id in counted <==> DueIn(d0, id, now) && EventFaultOf(faults, id).CountsQuestions();
    GrowIntersection(counted, done, id);
    QuestionCountsAdd(d0, counted * done, id);
  }

  /** Visiting one more event extends the scan's deletions by that event
      when its batch commits. */
  lemma {:induction false} EventScanStoreStep(d0: Db, now: int, faults: map<string, EventFault>, done: set<string>, id: string)
    requires id in d0.events && id !in done
    ensures var d := WithoutEvents(d0, DueEventsWhere(d0, now, faults, Committed) * done);
      (if DueIn(d0, id, now) && EventFaultOf(faults, id) == NoEventFault then WithoutEvents(d, {id}) else d)
        == WithoutEvents(d0, DueEventsWhere(d0, now, faults, Committed) * (done + {id}))
  {
    var removed := DueEventsWhere(d0, now, faults, Committed);
    assert id in removed <==> DueIn(d0, id, now) && EventFaultOf(faults, id) == NoEventFault;
    WithoutEventsAgain(d0, removed * done, id);
    GrowIntersection(removed, done, id);
  }

  /** The error list grows by the failure entry of the event just visited. */
  lemma {:induction false} EventFailuresStep(d0: Db, now: int, faults: map<string, EventFault>, done: set<string>,
                                             id: string, es: seq<CleanupError>)
    requires id in d0.events && id !in done
    requires ListsEventFailures(es, DueEventsWhere(d0, now, faults, FailedFault) * done)
    ensures ListsEventFailures(es + EventFailure(id, DueIn(d0, id, now), EventFaultOf(faults, id)),
                               DueEventsWhere(d0, now, faults, FailedFault) * (done + {id}))
  {
    var failed := DueEventsWhere(d0, now, faults, FailedFault);
    var due, fault := DueIn(d0, id, now), EventFaultOf(faults, id);
    assert id in failed <==> due && fault != NoEventFault;
    GrowIntersection(failed, done, id);
    var es' := es + EventFailure(id, due, fault);
    forall e | e in es'
      ensures e.EventFailed? && e.eventId in failed * (done + {id})
    {
      if e !in es { assert e == EventFailed(id); }
    }
  }

  /** The store and the statistics between two steps of a scan. */
  datatype ScanState = ScanState(db: Db, stats: CleanupStats)

  /** Whether the scan deletes event `id` of the snapshot `d0`. */
  predicate DueIn(d0: Db, id: string, now: int) {
    id in d0.events && ShouldCleanupEvent(d0.events[id], now)
  }

  /** One iteration of the event scan on state `st`. */
  function EventVisit(st: ScanState, id: string, due: bool, fault: EventFault): ScanState {
    ScanState(if due && fault == NoEventFault then WithoutEvents(st.db, {id}) else st.db,
              EventStep(st.db, id, due, fault, st.stats))
  }

  /** The event scan of the snapshot `d0` after visiting the events `order`
      one by one. */
  function EventScan(d0: Db, now: int, faults: map<string, EventFault>, order: seq<string>, stats: CleanupStats): ScanState
    decreases |order|
  {
    if order == [] then ScanState(d0, stats)
    else
      var id := order[|order| - 1];
      EventVisit(EventScan(d0, now, faults, order[..|order| - 1], stats), id, DueIn(d0, id, now), EventFaultOf(faults, id))
  }

  /** `order` lists each event of `ids` once. */
  predicate Enumerates(order: seq<string>, ids: set<string>) {
    && (forall i, j :: 0 <= i < j < |order| ==> order[i] != order[j])
    && (forall x :: x in order ==> x in ids)
    && (forall x :: x in ids ==> x in order)
  }

  function Elems(order: seq<string>): set<string> {
    set x | x in order
  }

  lemma {:induction false} ElemsSnoc(order: seq<string>)
    requires order != []
    ensures Elems(order) == Elems(order[..|order| - 1]) + {order[|order| - 1]}
    ensures Enumerates(order, Elems(order)) ==>
      (order[|order| - 1] !in Elems(order[..|order| - 1]) && Enumerates(order[..|order| - 1], Elems(order[..|order| - 1])))
  {
    var init := order[..|order| - 1];
    assert order == init + [order[|order| - 1]];
    assert forall x :: x in order <==> x in init || x == order[|order| - 1];
  }

  /** Whatever the visiting order, the event scan deletes exactly the due
      events whose batch commits, with their votes, codes and questions. */
  lemma {:induction false} EventScanStore(d0: Db, now: int, faults: map<string, EventFault>, order: seq<string>,
                                          stats: CleanupStats)
    requires Enumerates(order, Elems(order)) && Elems(order) <= d0.events.Keys
    ensures EventScan(d0, now, faults, order, stats).db
      == WithoutEvents(d0, DueEventsWhere(d0, now, faults, Committed) * Elems(order))
  {
    if order == [] {
      EventScanStart(d0, now, faults, stats);
    } else {
      var init, id := order[..|order| - 1], order[|order| - 1];
      ElemsSnoc(order);
      EventScanStore(d0, now, faults, init, stats);
      var d := EventScan(d0, now, faults, init, stats).db;
      assert EventScan(d0, now, faults, order, stats).db
             == if DueIn(d0, id, now) && EventFaultOf(faults, id) == NoEventFault then WithoutEvents(d, {id}) else d;
      EventScanStoreStep(d0, now, faults, Elems(init), id);
    }
  }

  /** Whatever the visiting order, every event is counted as processed and
      the deletion counters sum the records of the events whose batch got
      far enough to count them. */
  lemma {:induction false} EventScanTotals(d0: Db, now: int, faults: map<string, EventFault>, order: seq<string>,
                                           stats: CleanupStats)
    requires Enumerates(order, Elems(order)) && Elems(order) <= d0.events.Keys
    ensures EventScan(d0, now, faults, order, stats).stats.(errors := [])
      == EventScanCounters(d0, now, faults, Elems(order), stats)
  {
    if order == [] {
      EventScanStart(d0, now, faults, stats);
    } else {
      var init, id := order[..|order| - 1], order[|order| - 1];
      ElemsSnoc(order);
      EventScanTotals(d0, now, faults, init, stats);
      EventScanStore(d0, now, faults, init, stats);
      EventScanStep(d0, now, faults, Elems(init), id, EventScan(d0, now, faults, init, stats).stats, stats);
    }
  }

  /** Whatever the visiting order, the scan appends one error per due
      event whose batch fails, and keeps the earlier errors. */
  lemma {:induction false} EventScanErrors(d0: Db, now: int, faults: map<string, EventFault>, order: seq<string>,
                                           stats: CleanupStats)
    requires Enumerates(order, Elems(order)) && Elems(order) <= d0.events.Keys
    ensures var errors := EventScan(d0, now, faults, order, stats).stats.errors;
      && |stats.errors| <= |errors| && errors[..|stats.errors|] == stats.errors
      && ListsEventFailures(errors[|stats.errors|..], DueEventsWhere(d0, now, faults, FailedFault) * Elems(order))
  {
    if order == [] {
      EventScanStart(d0, now, faults, stats);
      assert EventScan(d0, now, faults, order, stats).stats.errors[|stats.errors|..] == [];
    } else {
      var init, id := order[..|order| - 1], order[|order| - 1];
      ElemsSnoc(order);
      EventScanErrors(d0, now, faults, init, stats);
      var before := EventScan(d0, now, faults, init, stats).stats.errors;
      var step := EventFailure(id, DueIn(d0, id, now), EventFaultOf(faults, id));
      EventFailuresStep(d0, now, faults, Elems(init), id, before[|stats.errors|..]);
      assert EventScan(d0, now, faults, order, stats).stats.errors == before + step;
      SuffixAppend(stats.errors, before, step);
    }
  }

  /** Appending to a list that extends `base` keeps it extending `base`. */
  lemma SuffixAppend<T>(base: seq<T>, before: seq<T>, step: seq<T>)
    requires |base| <= |before| && before[..|base|] == base
    ensures |base| <= |before + step| && (before + step)[..|base|] == base
    ensures (before + step)[|base|..] == before[|base|..] + step
  {
  }

  /** One iteration of the event scan: count the event, and delete it when
      it is due; a failed deletion is recorded and swallowed. */
  method ProcessEvent(db: Database, id: string, due: bool, fault: EventFault, stats: CleanupStats)
    returns (stats': CleanupStats)
    modifies db
    ensures ScanState(db.Contents(), stats') == EventVisit(ScanState(old(db.Contents()), stats), id, due, fault)
  {
    stats' := stats.(eventsProcessed := stats.eventsProcessed + 1);
    if due {
      var committed;
      stats', committed := DeleteEventData(db, id, fault, stats');
      if committed {
        stats' := stats'.(eventsDeleted := stats'.eventsDeleted + 1);
      } else {
        stats' := stats'.(errors := stats'.errors + [EventFailed(id)]);
      }
    }
  }

  /** The scan of the `events` collection: every event of the snapshot is
      visited once, in the order the store returns them (`visited`). */
  method CleanupEvents(db: Database, now: int, faults: map<string, EventFault>, stats: CleanupStats)
    returns (stats': CleanupStats, ghost visited: seq<string>)
    modifies db
    ensures Enumerates(visited, old(db.events.Keys))
    ensures ScanState(db.Contents(), stats') == EventScan(old(db.Contents()), now, faults, visited, stats)
  {
    ghost var d0 := db.Contents();
    var snapshot := db.events;
    var pending := snapshot.Keys;
    visited := [];
    stats' := stats;
    while pending != {}
      invariant Enumerates(visited, d0.events.Keys - pending) && pending <= d0.events.Keys
      invariant ScanState(db.Contents(), stats') == EventScan(d0, now, faults, visited, stats)
      decreases pending
    {
      var id :| id in pending;
      stats' := ProcessEvent(db, id, ShouldCleanupEvent(snapshot[id], now), EventFaultOf(faults, id), stats');
      assert (visited + [id])[..|visited|] == visited;
      visited := visited + [id];
      pending := pending - {id};
    }
  }

  // ---------------------------------------------------------------------
  // The question scan

  function DueQuestions(d: Db, now: int): set<string> {
    set k | k in d.eventQuestions && ShouldCleanupQuestion(d.eventQuestions[k], now)
  }

  /** How far a question's deletion batch gets. */
  datatype QuestionStage = QuestionCommitted | QuestionFailedFault | CountsQuestionVotes

  predicate QuestionReaches(fault: QuestionFault, stage: QuestionStage) {
    match stage
    case QuestionCommitted => fault == NoQuestionFault
    case QuestionFailedFault => fault != NoQuestionFault
    case CountsQuestionVotes => fault != QuestionVotesQueryFails
  }

  function DueQuestionsWhere(d: Db, now: int, faults: map<string, QuestionFault>, stage: QuestionStage): set<string> {
    set k | k in DueQuestions(d, now) && QuestionReaches(QuestionFaultOf(faults, k), stage)
  }

  predicate QuestionDueIn(d0: Db, id: string, now: int) {
    id in d0.eventQuestions && ShouldCleanupQuestion(d0.eventQuestions[id], now)
  }

  function QuestionFailure(id: string, due: bool, fault: QuestionFault): seq<CleanupError> {
    if due && fault != NoQuestionFault then [QuestionFailed(id)] else []
  }

  /** The statistics after one iteration of the question scan on store `d`. */
  function QuestionStep(d: Db, id: string, due: bool, fault: QuestionFault, stats: CleanupStats): CleanupStats {
    stats.(questionsProcessed := stats.questionsProcessed + 1,
           questionsDeleted := stats.questionsDeleted + (if due && fault == NoQuestionFault then 1 else 0),
           votesDeleted := stats.votesDeleted
             + (if due && fault != QuestionVotesQueryFails then |VotesOfQuestions(d, {id})| else 0),
           errors := stats.errors + QuestionFailure(id, due, fault))
  }

  function QuestionVisit(st: ScanState, id: string, due: bool, fault: QuestionFault): ScanState {
    ScanState(if due && fault == NoQuestionFault then WithoutQuestions(st.db, {id}) else st.db,
              QuestionStep(st.db, id, due, fault, st.stats))
  }

  /** The question scan of the snapshot `d0` after visiting `order`. */
  function QuestionScan(d0: Db, now: int, faults: map<string, QuestionFault>, order: seq<string>,
                        stats: CleanupStats): ScanState
    decreases |order|
  {
    if order == [] then ScanState(d0, stats)
    else
      var id := order[|order| - 1];
      QuestionVisit(QuestionScan(d0, now, faults, order[..|order| - 1], stats), id,
                    QuestionDueIn(d0, id, now), QuestionFaultOf(faults, id))
  }

  /** The counters (errors left out) after the question scan has visited
      the questions `done`. */
  function QuestionScanCounters(d0: Db, now: int, faults: map<string, QuestionFault>, done: set<string>,
                                stats: CleanupStats): CleanupStats {
    stats.(questionsProcessed := stats.questionsProcessed + |done|,
           questionsDeleted := stats.questionsDeleted + |DueQuestionsWhere(d0, now, faults, QuestionCommitted) * done|,
           votesDeleted := stats.votesDeleted
             + |VotesOfQuestions(d0, DueQuestionsWhere(d0, now, faults, CountsQuestionVotes) * done)|,
           errors := [])
  }

  /** `es` names each question of `ids` once and nothing else. */
  predicate ListsQuestionFailures(es: seq<CleanupError>, ids: set<string>) {
    && |es| == |ids|
    && (forall e :: e in es ==> e.QuestionFailed? && e.questionId in ids)
    && (forall id :: id in ids ==> QuestionFailed(id) in es)
  }

  lemma WithoutNoQuestions(d: Db)
    ensures WithoutQuestions(d, {}) == d
  {
    assert VotesOfQuestions(d, {}) == {};
  }

  lemma QuestionScanStart(d0: Db, now: int, faults: map<string, QuestionFault>, stats: CleanupStats)
    ensures QuestionScanCounters(d0, now, faults, {}, stats) == stats.(errors := [])
    ensures WithoutQuestions(d0, DueQuestionsWhere(d0, now, faults, QuestionCommitted) * {}) == d0
    ensures ListsQuestionFailures([], DueQuestionsWhere(d0, now, faults, QuestionFailedFault) * {})
  {
    assert DueQuestionsWhere(d0, now, faults, QuestionCommitted) * {} == {};
    assert VotesOfQuestions(d0, DueQuestionsWhere(d0, now, faults, CountsQuestionVotes) * {}) == {};
    assert DueQuestionsWhere(d0, now, faults, QuestionFailedFault) * {} == {};
    WithoutNoQuestions(d0);
  }

  lemma {:induction false} QuestionScanStoreStep(d0: Db, now: int, faults: map<string, QuestionFault>,
                                                 done: set<string>, id: string)
    requires id in d0.eventQuestions && id !in done
    ensures var d := WithoutQuestions(d0, DueQuestionsWhere(d0, now, faults, QuestionCommitted) * done);
      (if QuestionDueIn(d0, id, now) && QuestionFaultOf(faults, id) == NoQuestionFault then WithoutQuestions(d, {id}) else d)
        == WithoutQuestions(d0, DueQuestionsWhere(d0, now, faults, QuestionCommitted) * (done + {id}))
  {
    var removed := DueQuestionsWhere(d0, now, faults, QuestionCommitted);
    assert id in removed <==> QuestionDueIn(d0, id, now) && QuestionFaultOf(faults, id) == NoQuestionFault;
    WithoutQuestionsAgain(d0, removed * done, id);
    GrowIntersection(removed, done, id);
  }

  lemma {:induction false} QuestionScanStep(d0: Db, now: int, faults: map<string, QuestionFault>, done: set<string>,
                                            id: string, s: CleanupStats, stats: CleanupStats)
    requires id in d0.eventQuestions && id !in done
    requires s.(errors := []) == QuestionScanCounters(d0, now, faults, done, stats)
    ensures var d := WithoutQuestions(d0, DueQuestionsWhere(d0, now, faults, QuestionCommitted) * done);
      QuestionStep(d, id, QuestionDueIn(d0, id, now), QuestionFaultOf(faults, id), s).(errors := [])
        == QuestionScanCounters(d0, now, faults, done + {id}, stats)
  {
    var d := WithoutQuestions(d0, DueQuestionsWhere(d0, now, faults, QuestionCommitted) * done);
    var due, fault := QuestionDueIn(d0, id, now), QuestionFaultOf(faults, id);
    var after := QuestionScanCounters(d0, now, faults, done + {id}, stats);
    var t := QuestionStep(d, id, due, fault, s);
    RecordsOfUnvisitedQuestion(d0, DueQuestionsWhere(d0, now, faults, QuestionCommitted) * done, id);
    QuestionDeletedCountStep(d0, now, faults, done, id);
    QuestionVoteCountStep(d0, now, faults, done, id);
    assert t.questionsDeleted == after.questionsDeleted;
    assert t.votesDeleted == after.votesDeleted;
  }

  lemma QuestionDeletedCountStep(d0: Db, now: int, faults: map<string, QuestionFault>, done: set<string>, id: string)
    requires id in d0.eventQuestions && id !in done
    ensures var removed := DueQuestionsWhere(d0, now, faults, QuestionCommitted);
      |removed * (done + {id})| == |removed * done|
        + if QuestionDueIn(d0, id, now) && QuestionFaultOf(faults, id) == NoQuestionFault then 1 else 0
  {
    var removed := DueQuestionsWhere(d0, now, faults, QuestionCommitted);
    assert id in removed <==> QuestionDueIn(d0, id, now) && QuestionFaultOf(faults, id) == NoQuestionFault;
    GrowIntersection(removed, done, id);
  }

  lemma QuestionVoteCountStep(d0: Db, now: int, faults: map<string, QuestionFault>, done: set<string>, id: string)
    requires id in d0.eventQuestions && id !in done
    ensures var counted := DueQuestionsWhere(d0, now, faults, CountsQuestionVotes);
      |VotesOfQuestions(d0, counted * (done + {id}))| == |VotesOfQuestions(d0, counted * done)|
        + if QuestionDueIn(d0, id, now) && QuestionFaultOf(faults, id) != QuestionVotesQueryFails
          then |VotesOfQuestions(d0, {id})| else 0
  {
    var counted := DueQuestionsWhere(d0, now, faults, CountsQuestionVotes);
    assert id in counted <==> QuestionDueIn(d0, id, now) && QuestionFaultOf(faults, id) != QuestionVotesQueryFails;
    GrowIntersection(counted, done, id);
    QuestionVoteCountsAdd(d0, counted * done, id);
  }

  lemma {:induction false} QuestionFailuresStep(d0: Db, now: int, faults: map<string, QuestionFault>,
                                                done: set<string>, id: string, es: seq<CleanupError>)
    requires id in d0.eventQuestions && id !in done
    requires ListsQuestionFailures(es, DueQuestionsWhere(d0, now, faults, QuestionFailedFault) * done)
    ensures ListsQuestionFailures(es + QuestionFailure(id, QuestionDueIn(d0, id, now), QuestionFaultOf(faults, id)),
                                  DueQuestionsWhere(d0, now, faults, QuestionFailedFault) * (done + {id}))
  {
    var failed := DueQuestionsWhere(d0, now, faults, QuestionFailedFault);
    var due, fault := QuestionDueIn(d0, id, now), QuestionFaultOf(faults, id);
    assert id in failed <==> due && fault != NoQuestionFault;
    GrowIntersection(failed, done, id);
    var es' := es + QuestionFailure(id, due, fault);
    forall e | e in es'
      ensures e.QuestionFailed? && e.questionId in failed * (done + {id})
    {
      if e !in es { assert e == QuestionFailed(id); }
    }
  }

  /** Whatever the visiting order, the question scan deletes exactly the
      due questions whose batch commits, with their votes. */
  lemma {:induction false} QuestionScanStore(d0: Db, now: int, faults: map<string, QuestionFault>, order: seq<string>,
                                             stats: CleanupStats)
    requires Enumerates(order, Elems(order)) && Elems(order) <= d0.eventQuestions.Keys
    ensures QuestionScan(d0, now, faults, order, stats).db
      == WithoutQuestions(d0, DueQuestionsWhere(d0, now, faults, QuestionCommitted) * Elems(order))
  {
    if order == [] {
      QuestionScanStart(d0, now, faults, stats);
    } else {
      var init, id := order[..|order| - 1], order[|order| - 1];
      ElemsSnoc(order);
      QuestionScanStore(d0, now, faults, init, stats);
      QuestionScanStoreStep(d0, now, faults, Elems(init), id);
    }
  }

  /** Whatever the visiting order, every question is counted as processed
      and the vote counter sums the votes of the questions whose batch got
      past the vote query. */
  lemma {:induction false} QuestionScanTotals(d0: Db, now: int, faults: map<string, QuestionFault>, order: seq<string>,
                                              stats: CleanupStats)
    requires Enumerates(order, Elems(order)) && Elems(order) <= d0.eventQuestions.Keys
    ensures QuestionScan(d0, now, faults, order, stats).stats.(errors := [])
      == QuestionScanCounters(d0, now, faults, Elems(order), stats)
  {
    if order == [] {
      QuestionScanStart(d0, now, faults, stats);
    } else {
      var init, id := order[..|order| - 1], order[|order| - 1];
      ElemsSnoc(order);
      QuestionScanTotals(d0, now, faults, init, stats);
      QuestionScanStore(d0, now, faults, init, stats);
      QuestionScanStep(d0, now, faults, Elems(init), id, QuestionScan(d0, now, faults, init, stats).stats, stats);
    }
  }

  /** Whatever the visiting order, the scan appends one error per due
      question whose batch fails, and keeps the earlier errors. */
  lemma {:induction false} QuestionScanErrors(d0: Db, now: int, faults: map<string, QuestionFault>, order: seq<string>,
                                              stats: CleanupStats)
    requires Enumerates(order, Elems(order)) && Elems(order) <= d0.eventQuestions.Keys
    ensures var errors := QuestionScan(d0, now, faults, order, stats).stats.errors;
      && |stats.errors| <= |errors| && errors[..|stats.errors|] == stats.errors
      && ListsQuestionFailures(errors[|stats.errors|..], DueQuestionsWhere(d0, now, faults, QuestionFailedFault) * Elems(order))
  {
    if order == [] {
      QuestionScanStart(d0, now, faults, stats);
      assert QuestionScan(d0, now, faults, order, stats).stats.errors[|stats.errors|..] == [];
    } else {
      var init, id := order[..|order| - 1], order[|order| - 1];
      ElemsSnoc(order);
      QuestionScanErrors(d0, now, faults, init, stats);
      var before := QuestionScan(d0, now, faults, init, stats).stats.errors;
      var step := QuestionFailure(id, QuestionDueIn(d0, id, now), QuestionFaultOf(faults, id));
      QuestionFailuresStep(d0, now, faults, Elems(init), id, before[|stats.errors|..]);
      assert QuestionScan(d0, now, faults, order, stats).stats.errors == before + step;
      SuffixAppend(stats.errors, before, step);
    }
  }

  /** One iteration of the question scan. */
  method ProcessQuestion(db: Database, id: string, due: bool, fault: QuestionFault, stats: CleanupStats)
    returns (stats': CleanupStats)
    modifies db
    ensures ScanState(db.Contents(), stats') == QuestionVisit(ScanState(old(db.Contents()), stats), id, due, fault)
  {
    stats' := stats.(questionsProcessed := stats.questionsProcessed + 1);
    if due {
      var committed;
      stats', committed := DeleteQuestionData(db, id, fault, stats');
      if committed {
        stats' := stats'.(questionsDeleted := stats'.questionsDeleted + 1);
      } else {
        stats' := stats'.(errors := stats'.errors + [QuestionFailed(id)]);
      }
    }
  }

  /** The scan of the `eventQuestions` collection, read after the event
      scan: each question is visited once, in the order `visited`. */
  method CleanupQuestions(db: Database, now: int, faults: map<string, QuestionFault>, stats: CleanupStats)
    returns (stats': CleanupStats, ghost visited: seq<string>)
    modifies db
    ensures Enumerates(visited, old(db.eventQuestions.Keys))
    ensures ScanState(db.Contents(), stats') == QuestionScan(old(db.Contents()), now, faults, visited, stats)
  {
    ghost var d0 := db.Contents();
    var snapshot := db.eventQuestions;
    var pending := snapshot.Keys;
    visited := [];
    stats' := stats;
    while pending != {}
      invariant Enumerates(visited, d0.eventQuestions.Keys - pending) && pending <= d0.eventQuestions.Keys
      invariant ScanState(db.Contents(), stats') == QuestionScan(d0, now, faults, visited, stats)
      decreases pending
    {
      var id :| id in pending;
      stats' := ProcessQuestion(db, id, ShouldCleanupQuestion(snapshot[id], now), QuestionFaultOf(faults, id), stats');
      assert (visited + [id])[..|visited|] == visited;
      visited := visited + [id];
      pending := pending - {id};
    }
  }

  // ---------------------------------------------------------------------
  // The orphan sweep

  /** Votes whose `eventId` names none of `eventIds`; a vote without an
      `eventId` is one of them. */
  function OrphanVotes(d: Db, eventIds: set<string>): set<string> {
    set k | k in d.votes && !RefersTo(d.votes[k].eventId, eventIds)
  }

  function OrphanCodes(d: Db, eventIds: set<string>): set<string> {
    set k | k in d.voterCodes && !RefersTo(d.voterCodes[k].eventId, eventIds)
  }

  /** The store after a sweep that meets no failure: every vote and voter
      code that does not name an existing event is gone, and nothing else. */
  function WithoutOrphans(d: Db): (r: Db)
    ensures r.events == d.events && r.eventQuestions == d.eventQuestions
    ensures r.elections == d.elections && r.electionQuestions == d.electionQuestions
    ensures forall k :: k in r.votes ==> RefersTo(r.votes[k].eventId, r.events.Keys)
    ensures forall k :: k in r.voterCodes ==> RefersTo(r.voterCodes[k].eventId, r.events.Keys)
    ensures forall k :: k in d.votes && RefersTo(d.votes[k].eventId, d.events.Keys) ==> k in r.votes && r.votes[k] == d.votes[k]
    ensures forall k :: k in d.voterCodes && RefersTo(d.voterCodes[k].eventId, d.events.Keys) ==>
      k in r.voterCodes && r.voterCodes[k] == d.voterCodes[k]
    ensures r.votes.Keys <= d.votes.Keys && r.voterCodes.Keys <= d.voterCodes.Keys
  {
    d.(votes := d.votes - OrphanVotes(d, d.events.Keys), voterCodes := d.voterCodes - OrphanCodes(d, d.events.Keys))
  }

  /** The store, statistics, deleted ids and abort flag during a sweep. */
  datatype SweepState = SweepState(db: Db, stats: CleanupStats, removed: set<string>, aborted: bool)

  predicate IsOrphanVote(d0: Db, eventIds: set<string>, id: string) {
    id in d0.votes && !RefersTo(d0.votes[id].eventId, eventIds)
  }

  predicate IsOrphanCode(d0: Db, eventIds: set<string>, id: string) {
    id in d0.voterCodes && !RefersTo(d0.voterCodes[id].eventId, eventIds)
  }

  /** One iteration of the vote sweep: an orphan is deleted, unless its
      delete throws, which aborts the sweep. */
  function VoteSweepVisit(st: SweepState, id: string, orphan: bool, fails: bool): SweepState {
    if st.aborted || !orphan then st
    else if fails then st.(aborted := true)
    else SweepState(st.db.(votes := st.db.votes - {id}), st.stats.(votesDeleted := st.stats.votesDeleted + 1),
                    st.removed + {id}, false)
  }

  function VoteSweep(d0: Db, eventIds: set<string>, failing: set<string>, order: seq<string>, stats: CleanupStats): SweepState
    decreases |order|
  {
    if order == [] then SweepState(d0, stats, {}, false)
    else
      var id := order[|order| - 1];
      VoteSweepVisit(VoteSweep(d0, eventIds, failing, order[..|order| - 1], stats), id,
                     IsOrphanVote(d0, eventIds, id), id in failing)
  }

  function CodeSweepVisit(st: SweepState, id: string, orphan: bool, fails: bool): SweepState {
    if st.aborted || !orphan then st
    else if fails then st.(aborted := true)
    else SweepState(st.db.(voterCodes := st.db.voterCodes - {id}),
                    st.stats.(voterCodesDeleted := st.stats.voterCodesDeleted + 1), st.removed + {id}, false)
  }

  function CodeSweep(d0: Db, eventIds: set<string>, failing: set<string>, order: seq<string>, stats: CleanupStats): SweepState
    decreases |order|
  {
    if order == [] then SweepState(d0, stats, {}, false)
    else
      var id := order[|order| - 1];
      CodeSweepVisit(CodeSweep(d0, eventIds, failing, order[..|order| - 1], stats), id,
                     IsOrphanCode(d0, eventIds, id), id in failing)
  }

  lemma MapMinusGrow<K, V>(m: map<K, V>, removed: set<K>, k: K)
    ensures (m - removed) - {k} == m - (removed + {k})
  {
  }

  /** One visit of the votes sweep keeps what VoteSweepStore states. */
  lemma VoteSweepStoreStep(d0: Db, eventIds: set<string>, failing: set<string>, seen: set<string>, st: SweepState,
                        id: string, stats: CleanupStats)
    requires id !in seen
    requires st.removed <= OrphanVotes(d0, eventIds) * seen - failing
    requires st.db == d0.(votes := d0.votes - st.removed)
    requires st.stats == stats.(votesDeleted := stats.votesDeleted + |st.removed|)
    ensures var r := VoteSweepVisit(st, id, IsOrphanVote(d0, eventIds, id), id in failing);
      && r.removed <= OrphanVotes(d0, eventIds) * (seen + {id}) - failing
      && r.db == d0.(votes := d0.votes - r.removed)
      && r.stats == stats.(votesDeleted := stats.votesDeleted + |r.removed|)
  {
    if !st.aborted && IsOrphanVote(d0, eventIds, id) && id !in failing {
      assert id in OrphanVotes(d0, eventIds);
      MapMinusGrow(d0.votes, st.removed, id);
    }
  }

  /** Whatever the order, the vote sweep deletes only orphans whose delete
      does not fail, and counts each deletion once. */
  lemma {:induction false} VoteSweepStore(d0: Db, eventIds: set<string>, failing: set<string>, order: seq<string>,
                                         stats: CleanupStats)
    requires Enumerates(order, Elems(order))
    ensures var r := VoteSweep(d0, eventIds, failing, order, stats);
      && r.removed <= OrphanVotes(d0, eventIds) * Elems(order) - failing
      && r.db == d0.(votes := d0.votes - r.removed)
      && r.stats == stats.(votesDeleted := stats.votesDeleted + |r.removed|)
  {
    if order == [] {
      assert d0.(votes := d0.votes - {}) == d0;
    } else {
      var init, id := order[..|order| - 1], order[|order| - 1];
      ElemsSnoc(order);
      VoteSweepStore(d0, eventIds, failing, init, stats);
      var st := VoteSweep(d0, eventIds, failing, init, stats);
      assert VoteSweep(d0, eventIds, failing, order, stats)
             == VoteSweepVisit(st, id, IsOrphanVote(d0, eventIds, id), id in failing);
      VoteSweepStoreStep(d0, eventIds, failing, Elems(init), st, id, stats);
    }
  }

  /** Whatever the order, the vote sweep aborts exactly when it meets an
      orphan whose delete fails, and otherwise deletes every orphan it
      visits. */
  lemma {:induction false} VoteSweepAborts(d0: Db, eventIds: set<string>, failing: set<string>, order: seq<string>,
                                          stats: CleanupStats)
    requires Enumerates(order, Elems(order))
    ensures var r := VoteSweep(d0, eventIds, failing, order, stats);
      && (r.aborted <==> OrphanVotes(d0, eventIds) * Elems(order) * failing != {})
      && (!r.aborted ==> r.removed == OrphanVotes(d0, eventIds) * Elems(order))
  {
    var orphans := OrphanVotes(d0, eventIds);
    if order != [] {
      var init, id := order[..|order| - 1], order[|order| - 1];
      ElemsSnoc(order);
      VoteSweepAborts(d0, eventIds, failing, init, stats);
      assert id in orphans <==> IsOrphanVote(d0, eventIds, id);
      GrowIntersection(orphans, Elems(init), id);
    }
  }

  /** One visit of the voterCodes sweep keeps what CodeSweepStore states. */
  lemma CodeSweepStoreStep(d0: Db, eventIds: set<string>, failing: set<string>, seen: set<string>, st: SweepState,
                        id: string, stats: CleanupStats)
    requires id !in seen
    requires st.removed <= OrphanCodes(d0, eventIds) * seen - failing
    requires st.db == d0.(voterCodes := d0.voterCodes - st.removed)
    requires st.stats == stats.(voterCodesDeleted := stats.voterCodesDeleted + |st.removed|)
    ensures var r := CodeSweepVisit(st, id, IsOrphanCode(d0, eventIds, id), id in failing);
      && r.removed <= OrphanCodes(d0, eventIds) * (seen + {id}) - failing
      && r.db == d0.(voterCodes := d0.voterCodes - r.removed)
      && r.stats == stats.(voterCodesDeleted := stats.voterCodesDeleted + |r.removed|)
  {
    if !st.aborted && IsOrphanCode(d0, eventIds, id) && id !in failing {
      assert id in OrphanCodes(d0, eventIds);
      MapMinusGrow(d0.voterCodes, st.removed, id);
    }
  }

  /** Whatever the order, the voter code sweep deletes only orphans whose delete
      does not fail, and counts each deletion once. */
  lemma {:induction false} CodeSweepStore(d0: Db, eventIds: set<string>, failing: set<string>, order: seq<string>,
                                         stats: CleanupStats)
    requires Enumerates(order, Elems(order))
    ensures var r := CodeSweep(d0, eventIds, failing, order, stats);
      && r.removed <= OrphanCodes(d0, eventIds) * Elems(order) - failing
      && r.db == d0.(voterCodes := d0.voterCodes - r.removed)
      && r.stats == stats.(voterCodesDeleted := stats.voterCodesDeleted + |r.removed|)
  {
    if order == [] {
      assert d0.(voterCodes := d0.voterCodes - {}) == d0;
    } else {
      var init, id := order[..|order| - 1], order[|order| - 1];
      ElemsSnoc(order);
      CodeSweepStore(d0, eventIds, failing, init, stats);
      var st := CodeSweep(d0, eventIds, failing, init, stats);
      assert CodeSweep(d0, eventIds, failing, order, stats)
             == CodeSweepVisit(st, id, IsOrphanCode(d0, eventIds, id), id in failing);
      CodeSweepStoreStep(d0, eventIds, failing, Elems(init), st, id, stats);
    }
  }

  /** Whatever the order, the voter code sweep aborts exactly when it meets an
      orphan whose delete fails, and otherwise deletes every orphan it
      visits. */
  lemma {:induction false} CodeSweepAborts(d0: Db, eventIds: set<string>, failing: set<string>, order: seq<string>,
                                          stats: CleanupStats)
    requires Enumerates(order, Elems(order))
    ensures var r := CodeSweep(d0, eventIds, failing, order, stats);
      && (r.aborted <==> OrphanCodes(d0, eventIds) * Elems(order) * failing != {})
      && (!r.aborted ==> r.removed == OrphanCodes(d0, eventIds) * Elems(order))
  {
    var orphans := OrphanCodes(d0, eventIds);
    if order != [] {
      var init, id := order[..|order| - 1], order[|order| - 1];
      ElemsSnoc(order);
      CodeSweepAborts(d0, eventIds, failing, init, stats);
      assert id in orphans <==> IsOrphanCode(d0, eventIds, id);
      GrowIntersection(orphans, Elems(init), id);
    }
  }

  /** `deleteDoc` on one vote. */
  method DeleteVote(db: Database, id: string)
    modifies db
    ensures db.Contents() == old(db.Contents()).(votes := old(db.votes) - {id})
  {
    db.votes := db.votes - {id};
  }

  /** `deleteDoc` on one voter code. */
  method DeleteVoterCode(db: Database, id: string)
    modifies db
    ensures db.Contents() == old(db.Contents()).(voterCodes := old(db.voterCodes) - {id})
  {
    db.voterCodes := db.voterCodes - {id};
  }

  /** Deletes, one document at a time, every vote whose `eventId` is not in
      `eventIds`. When the read of the votes throws, nothing happens; a
      delete of an id in `failing` throws, which ends the pass with the
      deletes made so far kept. `visited` is the order in which the votes
      were read, up to the one that failed. */
  method CleanupOrphanedVotes(db: Database, eventIds: set<string>, readFails: bool, failing: set<string>,
                              stats: CleanupStats)
    returns (stats': CleanupStats, aborted: bool, ghost removed: set<string>, ghost visited: seq<string>)
    modifies db
    ensures readFails ==> aborted && db.Contents() == old(db.Contents()) && stats' == stats
    ensures !readFails ==> Enumerates(visited, Elems(visited)) && Elems(visited) <= old(db.votes.Keys)
    ensures !readFails && !aborted ==> Elems(visited) == old(db.votes.Keys)
    ensures !readFails ==>
      SweepState(db.Contents(), stats', removed, aborted) == VoteSweep(old(db.Contents()), eventIds, failing, visited, stats)
  {
    if readFails {
      return stats, true, {}, [];
    }
    ghost var d0 := db.Contents();
    var snapshot := db.votes;
    var pending := snapshot.Keys;
    removed, aborted, stats', visited := {}, false, stats, [];
    while pending != {}
      invariant Enumerates(visited, d0.votes.Keys - pending) && pending <= d0.votes.Keys
      invariant SweepState(db.Contents(), stats', removed, false) == VoteSweep(d0, eventIds, failing, visited, stats)
      decreases pending
    {
      var id :| id in pending;
      assert (visited + [id])[..|visited|] == visited;
      if !RefersTo(snapshot[id].eventId, eventIds) {
        if id in failing {
          aborted := true;
          visited := visited + [id];
          return;
        }
        DeleteVote(db, id);
        removed := removed + {id};
        stats' := stats'.(votesDeleted := stats'.votesDeleted + 1);
      }
      visited := visited + [id];
      pending := pending - {id};
    }
  }

  /** The same sweep over `voterCodes`. */
  method CleanupOrphanedVoterCodes(db: Database, eventIds: set<string>, readFails: bool, failing: set<string>,
                              stats: CleanupStats)
    returns (stats': CleanupStats, aborted: bool, ghost removed: set<string>, ghost visited: seq<string>)
    modifies db
    ensures readFails ==> aborted && db.Contents() == old(db.Contents()) && stats' == stats
    ensures !readFails ==> Enumerates(visited, Elems(visited)) && Elems(visited) <= old(db.voterCodes.Keys)
    ensures !readFails && !aborted ==> Elems(visited) == old(db.voterCodes.Keys)
    ensures !readFails ==>
      SweepState(db.Contents(), stats', removed, aborted) == CodeSweep(old(db.Contents()), eventIds, failing, visited, stats)
  {
    if readFails {
      return stats, true, {}, [];
    }
    ghost var d0 := db.Contents();
    var snapshot := db.voterCodes;
    var pending := snapshot.Keys;
    removed, aborted, stats', visited := {}, false, stats, [];
    while pending != {}
      invariant Enumerates(visited, d0.voterCodes.Keys - pending) && pending <= d0.voterCodes.Keys
      invariant SweepState(db.Contents(), stats', removed, false) == CodeSweep(d0, eventIds, failing, visited, stats)
      decreases pending
    {
      var id :| id in pending;
      assert (visited + [id])[..|visited|] == visited;
      if !RefersTo(snapshot[id].eventId, eventIds) {
        if id in failing {
          aborted := true;
          visited := visited + [id];
          return;
        }
        DeleteVoterCode(db, id);
        removed := removed + {id};
        stats' := stats'.(voterCodesDeleted := stats'.voterCodesDeleted + 1);
      }
      visited := visited + [id];
      pending := pending - {id};
    }
  }

  /** Which snapshot read of the orphan pass throws: the event ids, the
      votes or the voter codes. */
  datatype OrphanReadFault = NoOrphanReadFault | EventIdsReadFails | VotesReadFails | CodesReadFails

  /** The orphan pass over store `d` meets no failure. */
  predicate OrphanPassClean(d: Db, readFault: OrphanReadFault, voteFailures: set<string>, codeFailures: set<string>) {
    && readFault == NoOrphanReadFault
    && OrphanVotes(d, d.events.Keys) * voteFailures == {}
    && OrphanCodes(d, d.events.Keys) * codeFailures == {}
  }

  /** `d` is `d0` with some of its orphaned votes and voter codes deleted:
      every other record is kept with its value. */
  predicate OrphansPartlySwept(d0: Db, d: Db) {
    && d.events == d0.events && d.eventQuestions == d0.eventQuestions
    && d.elections == d0.elections && d.electionQuestions == d0.electionQuestions
    && d.votes.Keys <= d0.votes.Keys && d.voterCodes.Keys <= d0.voterCodes.Keys
    && (forall k :: k in d.votes ==> d.votes[k] == d0.votes[k])
    && (forall k :: k in d.voterCodes ==> d.voterCodes[k] == d0.voterCodes[k])
    && (forall k :: k in d0.votes && RefersTo(d0.votes[k].eventId, d0.events.Keys) ==> k in d.votes)
    && (forall k :: k in d0.voterCodes && RefersTo(d0.voterCodes[k].eventId, d0.events.Keys) ==> k in d.voterCodes)
  }

  /** Removing keys of a map shrinks it by their number. */
  lemma MapMinusSize<V>(m: map<string, V>, s: set<string>)
    requires s <= m.Keys
    ensures |m - s| + |s| == |m|
  {
    assert (m - s).Keys == m.Keys - s;
    assert m.Keys == (m.Keys - s) + s;
    DisjointUnionSize(m.Keys - s, s);
  }

  /** The orphan pass: the event ids are read once, then votes and then
      voter codes are swept. A failure anywhere records one error and skips
      the rest of the pass; the counters count what was deleted before. */
  method CleanupOrphanedData(db: Database, readFault: OrphanReadFault, voteFailures: set<string>, codeFailures: set<string>,
                             stats: CleanupStats)
    returns (stats': CleanupStats)
    modifies db
    ensures OrphansPartlySwept(old(db.Contents()), db.Contents())
    ensures stats'.votesDeleted + |db.votes| == stats.votesDeleted + |old(db.votes)|
    ensures stats'.voterCodesDeleted + |db.voterCodes| == stats.voterCodesDeleted + |old(db.voterCodes)|
    ensures stats'.eventsProcessed == stats.eventsProcessed && stats'.eventsDeleted == stats.eventsDeleted
    ensures stats'.questionsProcessed == stats.questionsProcessed && stats'.questionsDeleted == stats.questionsDeleted
    ensures readFault == EventIdsReadFails || readFault == VotesReadFails ==> db.Contents() == old(db.Contents())
    ensures readFault == CodesReadFails ==> db.voterCodes == old(db.voterCodes)
    ensures var clean := OrphanPassClean(old(db.Contents()), readFault, voteFailures, codeFailures);
      && (clean ==> db.Contents() == WithoutOrphans(old(db.Contents())) && stats'.errors == stats.errors)
      && (clean ==> stats'.votesDeleted == stats.votesDeleted + |OrphanVotes(old(db.Contents()), old(db.events.Keys))|)
      && (clean ==> stats'.voterCodesDeleted == stats.voterCodesDeleted
                    + |OrphanCodes(old(db.Contents()), old(db.events.Keys))|)
      && (!clean ==> stats'.errors == stats.errors + [OrphanSweepFailed])
  {
    ghost var d0 := db.Contents();
    if readFault == EventIdsReadFails {
      stats' := stats.(errors := stats.errors + [OrphanSweepFailed]);
      return;
    }
    var eventIds := db.events.Keys;
    var aborted;
    ghost var removedVotes, removedCodes, visitedVotes, visitedCodes;
    stats', aborted, removedVotes, visitedVotes :=
      CleanupOrphanedVotes(db, eventIds, readFault == VotesReadFails, voteFailures, stats);
    if readFault != VotesReadFails {
      VoteSweepStore(d0, eventIds, voteFailures, visitedVotes, stats);
      VoteSweepAborts(d0, eventIds, voteFailures, visitedVotes, stats);
      DueWithin(OrphanVotes(d0, eventIds), Elems(visitedVotes), d0.votes.Keys);
      MapMinusSize(d0.votes, removedVotes);
    }
    if aborted {
      stats' := stats'.(errors := stats'.errors + [OrphanSweepFailed]);
      return;
    }
    ghost var d1 := db.Contents();
    ghost var afterVotes := stats';
    assert OrphanCodes(d1, eventIds) == OrphanCodes(d0, eventIds);
    stats', aborted, removedCodes, visitedCodes :=
      CleanupOrphanedVoterCodes(db, eventIds, readFault == CodesReadFails, codeFailures, stats');
    if readFault != CodesReadFails {
      CodeSweepStore(d1, eventIds, codeFailures, visitedCodes, afterVotes);
      CodeSweepAborts(d1, eventIds, codeFailures, visitedCodes, afterVotes);
      DueWithin(OrphanCodes(d1, eventIds), Elems(visitedCodes), d1.voterCodes.Keys);
      MapMinusSize(d1.voterCodes, removedCodes);
    }
    if aborted {
      stats' := stats'.(errors := stats'.errors + [OrphanSweepFailed]);
      return;
    }
  }

  /** A subset of `keys`, cut down to a part that covers it, is unchanged;
      a failing element in the part is one in the whole. */
  lemma DueWithin(s: set<string>, part: set<string>, keys: set<string>)
    requires s <= keys && part <= keys
    ensures part == keys ==> s * part == s
  {
  }

  // ---------------------------------------------------------------------
  // One cleanup pass

  /** A pass that meets no failure: due events go with their data, then
      due questions of what is left go with their votes, then orphans. */
  function CleanupPass(d: Db, now: int): Db {
    var d1 := WithoutEvents(d, DueEvents(d, now));
    var d2 := WithoutQuestions(d1, DueQuestions(d1, now));
    WithoutOrphans(d2)
  }

  /** After a pass without failures no event or question is due, and every
      vote and voter code names an existing event. */
  lemma {:induction false} CleanupPassLeavesNothingDue(d: Db, now: int)
    ensures var r := CleanupPass(d, now);
      && DueEvents(r, now) == {}
      && DueQuestions(r, now) == {}
      && OrphanVotes(r, r.events.Keys) == {}
      && OrphanCodes(r, r.events.Keys) == {}
  {
    var d1 := WithoutEvents(d, DueEvents(d, now));
    var d2 := WithoutQuestions(d1, DueQuestions(d1, now));
    var r := WithoutOrphans(d2);
    assert r.events == d2.events == d1.events;
    assert DueEvents(r, now) == {} by {
      forall k | k in r.events ensures !ShouldCleanupEvent(r.events[k], now) {
        assert k !in DueEvents(d, now);
      }
    }
    assert DueQuestions(r, now) == {} by {
      forall k | k in r.eventQuestions ensures !ShouldCleanupQuestion(r.eventQuestions[k], now) {
        assert k !in DueQuestions(d1, now);
      }
    }
  }

  /** Votes written by the single-election voting page carry no `eventId`,
      so a pass deletes every one of them. */
  lemma ElectionVotesAreSwept(d: Db, now: int, k: string)
    requires k in d.votes && d.votes[k].eventId.None?
    ensures k !in CleanupPass(d, now).votes
  {
  }

  /** Likewise a voter code without an event id. */
  lemma ElectionCodesAreSwept(d: Db, now: int, k: string)
    requires k in d.voterCodes && d.voterCodes[k].eventId.None?
    ensures k !in CleanupPass(d, now).voterCodes
  {
  }

  /** A second pass at the same instant finds nothing left to do. */
  lemma {:induction false} CleanupPassIdempotent(d: Db, now: int)
    ensures CleanupPass(CleanupPass(d, now), now) == CleanupPass(d, now)
  {
    var r := CleanupPass(d, now);
    CleanupPassLeavesNothingDue(d, now);
    WithoutNoEvents(r);
    WithoutNoQuestions(r);
    assert WithoutOrphans(r) == r by {
      assert OrphanVotes(r, r.events.Keys) == {};
      assert OrphanCodes(r, r.events.Keys) == {};
    }
  }

  /** With no faults every due event commits and none fails. */
  lemma NoEventFaults(d: Db, now: int)
    ensures DueEventsWhere(d, now, map[], Committed) == DueEvents(d, now)
    ensures DueEventsWhere(d, now, map[], FailedFault) == {}
  {
  }

  lemma NoQuestionFaults(d: Db, now: int)
    ensures DueQuestionsWhere(d, now, map[], QuestionCommitted) == DueQuestions(d, now)
    ensures DueQuestionsWhere(d, now, map[], QuestionFailedFault) == {}
  {
  }

  /** What the event scan of a whole snapshot amounts to, from zeroed
      statistics. */
  lemma {:induction false} EventPassSummary(d0: Db, now: int, faults: map<string, EventFault>, order: seq<string>)
    requires Enumerates(order, d0.events.Keys)
    ensures var r := EventScan(d0, now, faults, order, EmptyStats);
      && r.stats.eventsProcessed == |d0.events|
      && r.stats.eventsDeleted == |DueEventsWhere(d0, now, faults, Committed)|
      && r.stats.questionsProcessed == 0
      && r.stats.questionsDeleted == |QuestionsOf(d0, DueEventsWhere(d0, now, faults, CountsQuestions))|
      && r.db == WithoutEvents(d0, DueEventsWhere(d0, now, faults, Committed))
      && (faults == map[] ==> r.stats.errors == [] && r.db == WithoutEvents(d0, DueEvents(d0, now)))
  {
    assert Elems(order) == d0.events.Keys;
    EventScanStore(d0, now, faults, order, EmptyStats);
    EventScanTotals(d0, now, faults, order, EmptyStats);
    EventScanErrors(d0, now, faults, order, EmptyStats);
    DueEventsWithin(d0, now, faults, Committed);
    DueEventsWithin(d0, now, faults, CountsQuestions);
    DueEventsWithin(d0, now, faults, FailedFault);
    NoEventFaults(d0, now);
  }

  /** What the event scan of a whole snapshot deletes besides events, and
      the errors it records. */
  lemma {:induction false} EventPassRecords(d0: Db, now: int, faults: map<string, EventFault>, order: seq<string>)
    requires Enumerates(order, d0.events.Keys)
    ensures var r := EventScan(d0, now, faults, order, EmptyStats);
      && r.stats.votesDeleted == |VotesOf(d0, DueEventsWhere(d0, now, faults, CountsVotes))|
      && r.stats.voterCodesDeleted == |CodesOf(d0, DueEventsWhere(d0, now, faults, CountsCodes))|
      && ListsEventFailures(r.stats.errors, DueEventsWhere(d0, now, faults, FailedFault))
  {
    assert Elems(order) == d0.events.Keys;
    EventScanTotals(d0, now, faults, order, EmptyStats);
    EventScanErrors(d0, now, faults, order, EmptyStats);
    DueEventsWithin(d0, now, faults, CountsVotes);
    DueEventsWithin(d0, now, faults, CountsCodes);
    DueEventsWithin(d0, now, faults, FailedFault);
    var errors := EventScan(d0, now, faults, order, EmptyStats).stats.errors;
    assert errors[|EmptyStats.errors|..] == errors;
  }

  /** What the question scan of a whole snapshot amounts to. */
  lemma {:induction false} QuestionPassSummary(d1: Db, now: int, faults: map<string, QuestionFault>, order: seq<string>,
                                               stats: CleanupStats)
    requires Enumerates(order, d1.eventQuestions.Keys)
    ensures var r := QuestionScan(d1, now, faults, order, stats);
      && r.stats.eventsProcessed == stats.eventsProcessed
      && r.stats.eventsDeleted == stats.eventsDeleted
      && r.stats.questionsProcessed == stats.questionsProcessed + |d1.eventQuestions|
      && r.stats.questionsDeleted == stats.questionsDeleted + |DueQuestionsWhere(d1, now, faults, QuestionCommitted)|
      && r.db == WithoutQuestions(d1, DueQuestionsWhere(d1, now, faults, QuestionCommitted))
      && (faults == map[] ==> r.stats.errors == stats.errors && r.db == WithoutQuestions(d1, DueQuestions(d1, now)))
  {
    assert Elems(order) == d1.eventQuestions.Keys;
    QuestionScanStore(d1, now, faults, order, stats);
    QuestionScanTotals(d1, now, faults, order, stats);
    QuestionScanErrors(d1, now, faults, order, stats);
    QuestionsWithin(d1, now, faults, QuestionCommitted);
    QuestionsWithin(d1, now, faults, QuestionFailedFault);
    NoQuestionFaults(d1, now);
  }

  /** What the question scan of a whole snapshot deletes besides
      questions, and the errors it appends. */
  lemma {:induction false} QuestionPassRecords(d1: Db, now: int, faults: map<string, QuestionFault>, order: seq<string>,
                                               stats: CleanupStats)
    requires Enumerates(order, d1.eventQuestions.Keys)
    ensures var r := QuestionScan(d1, now, faults, order, stats);
      && r.stats.votesDeleted
         == stats.votesDeleted + |VotesOfQuestions(d1, DueQuestionsWhere(d1, now, faults, CountsQuestionVotes))|
      && r.stats.voterCodesDeleted == stats.voterCodesDeleted
      && |stats.errors| <= |r.stats.errors| && r.stats.errors[..|stats.errors|] == stats.errors
      && ListsQuestionFailures(r.stats.errors[|stats.errors|..], DueQuestionsWhere(d1, now, faults, QuestionFailedFault))
  {
    assert Elems(order) == d1.eventQuestions.Keys;
    QuestionScanTotals(d1, now, faults, order, stats);
    QuestionScanErrors(d1, now, faults, order, stats);
    QuestionsWithin(d1, now, faults, CountsQuestionVotes);
    QuestionsWithin(d1, now, faults, QuestionFailedFault);
  }

  /** The store after the event scan: the due events whose batch commits
      are gone, with their records. */
  function AfterEventScan(d: Db, now: int, faults: map<string, EventFault>): Db {
    WithoutEvents(d, DueEventsWhere(d, now, faults, Committed))
  }

  /** The store after the question scan. */
  function AfterQuestionScan(d: Db, now: int, faults: map<string, QuestionFault>): Db {
    WithoutQuestions(d, DueQuestionsWhere(d, now, faults, QuestionCommitted))
  }

  lemma SplitAt<T>(s: seq<T>, n: nat)
    requires n <= |s|
    ensures s == s[..n] + s[n..]
  {
  }

  /** The error list of a pass, read back part by part: the event
      failures, the question failures, then what the orphan pass added. */
  lemma ErrorReport(all: seq<CleanupError>, eventErrors: seq<CleanupError>, questionErrors: seq<CleanupError>,
                    orphanErrors: seq<CleanupError>, failedEvents: set<string>, failedQuestions: set<string>)
    requires all == eventErrors + questionErrors + orphanErrors
    requires ListsEventFailures(eventErrors, failedEvents)
    requires ListsQuestionFailures(questionErrors, failedQuestions)
    ensures var k := |failedEvents| + |failedQuestions|;
      && k <= |all|
      && ListsEventFailures(all[..|failedEvents|], failedEvents)
      && ListsQuestionFailures(all[|failedEvents|..k], failedQuestions)
      && all[k..] == orphanErrors
  {
    assert all[..|eventErrors|] == eventErrors;
    assert all[|eventErrors|..|eventErrors| + |questionErrors|] == questionErrors;
    assert all[|eventErrors| + |questionErrors|..] == orphanErrors;
  }

  /** The error list of a pass: the failed due events, then the failed due
      questions, then `OrphanSweepFailed` unless the orphan pass was clean. */
  predicate PassErrorList(all: seq<CleanupError>, failedEvents: set<string>, failedQuestions: set<string>, clean: bool) {
    var k := |failedEvents| + |failedQuestions|;
    && k <= |all|
    && ListsEventFailures(all[..|failedEvents|], failedEvents)
    && ListsQuestionFailures(all[|failedEvents|..k], failedQuestions)
    && all[k..] == if clean then [] else [OrphanSweepFailed]
  }

  /** The error list of a pass assembled from the event scan's list, the
      question scan's extension of it and the orphan pass's verdict. */
  lemma ErrorAssembly(eventErrors: seq<CleanupError>, scanErrors: seq<CleanupError>, all: seq<CleanupError>,
                      clean: bool, failedEvents: set<string>, failedQuestions: set<string>)
    requires ListsEventFailures(eventErrors, failedEvents)
    requires |eventErrors| <= |scanErrors| && scanErrors[..|eventErrors|] == eventErrors
    requires ListsQuestionFailures(scanErrors[|eventErrors|..], failedQuestions)
    requires all == scanErrors + (if clean then [] else [OrphanSweepFailed])
    ensures PassErrorList(all, failedEvents, failedQuestions, clean)
  {
    var questionErrors := scanErrors[|eventErrors|..];
    SplitAt(scanErrors, |eventErrors|);
    ErrorReport(all, eventErrors, questionErrors, if clean then [] else [OrphanSweepFailed],
                failedEvents, failedQuestions);
  }

  /** What the orphan pass guarantees, from store `d` and statistics `s` to
      `d'` and `s'` (the contract of `CleanupOrphanedData`). */
  predicate OrphanPassReport(d: Db, s: CleanupStats, d': Db, s': CleanupStats, readFault: OrphanReadFault,
                             voteFailures: set<string>, codeFailures: set<string>) {
    && OrphansPartlySwept(d, d')
    && s'.votesDeleted + |d'.votes| == s.votesDeleted + |d.votes|
    && s'.voterCodesDeleted + |d'.voterCodes| == s.voterCodesDeleted + |d.voterCodes|
    && s'.eventsProcessed == s.eventsProcessed && s'.eventsDeleted == s.eventsDeleted
    && s'.questionsProcessed == s.questionsProcessed && s'.questionsDeleted == s.questionsDeleted
    && (OrphanPassClean(d, readFault, voteFailures, codeFailures) ==> d' == WithoutOrphans(d) && s'.errors == s.errors)
    && (!OrphanPassClean(d, readFault, voteFailures, codeFailures) ==> s'.errors == s.errors + [OrphanSweepFailed])
  }

  /** The counters of a whole pass. */
  lemma PassCounts(d0: Db, now: int, eventFaults: map<string, EventFault>, questionFaults: map<string, QuestionFault>,
                   orphanReads: OrphanReadFault, voteFailures: set<string>, codeFailures: set<string>,
                   visitedEvents: seq<string>, visitedQuestions: seq<string>, d3: Db, s3: CleanupStats)
    requires Enumerates(visitedEvents, d0.events.Keys)
    requires var r1 := EventScan(d0, now, eventFaults, visitedEvents, EmptyStats);
      && Enumerates(visitedQuestions, r1.db.eventQuestions.Keys)
      && var r2 := QuestionScan(r1.db, now, questionFaults, visitedQuestions, r1.stats);
         OrphanPassReport(r2.db, r2.stats, d3, s3, orphanReads, voteFailures, codeFailures)
    ensures s3.eventsProcessed == |d0.events|
    ensures s3.eventsDeleted == |DueEventsWhere(d0, now, eventFaults, Committed)|
    ensures var d1 := AfterEventScan(d0, now, eventFaults);
      && s3.questionsProcessed == |d1.eventQuestions|
      && s3.questionsDeleted
         == |QuestionsOf(d0, DueEventsWhere(d0, now, eventFaults, CountsQuestions))|
            + |DueQuestionsWhere(d1, now, questionFaults, QuestionCommitted)|
    ensures var d1 := AfterEventScan(d0, now, eventFaults);
      var d2 := AfterQuestionScan(d1, now, questionFaults);
      && s3.votesDeleted + |d3.votes|
         == |VotesOf(d0, DueEventsWhere(d0, now, eventFaults, CountsVotes))|
            + |VotesOfQuestions(d1, DueQuestionsWhere(d1, now, questionFaults, CountsQuestionVotes))| + |d2.votes|
      && s3.voterCodesDeleted + |d3.voterCodes|
         == |CodesOf(d0, DueEventsWhere(d0, now, eventFaults, CountsCodes))| + |d2.voterCodes|
  {
    var r1 := EventScan(d0, now, eventFaults, visitedEvents, EmptyStats);
    var r2 := QuestionScan(r1.db, now, questionFaults, visitedQuestions, r1.stats);
    EventPassSummary(d0, now, eventFaults, visitedEvents);
    EventPassRecords(d0, now, eventFaults, visitedEvents);
    QuestionPassSummary(r1.db, now, questionFaults, visitedQuestions, r1.stats);
    QuestionPassRecords(r1.db, now, questionFaults, visitedQuestions, r1.stats);
  }

  /** The store after a whole pass. */
  lemma PassStore(d0: Db, now: int, eventFaults: map<string, EventFault>, questionFaults: map<string, QuestionFault>,
                   orphanReads: OrphanReadFault, voteFailures: set<string>, codeFailures: set<string>,
                   visitedEvents: seq<string>, visitedQuestions: seq<string>, d3: Db, s3: CleanupStats)
    requires Enumerates(visitedEvents, d0.events.Keys)
    requires var r1 := EventScan(d0, now, eventFaults, visitedEvents, EmptyStats);
      && Enumerates(visitedQuestions, r1.db.eventQuestions.Keys)
      && var r2 := QuestionScan(r1.db, now, questionFaults, visitedQuestions, r1.stats);
         OrphanPassReport(r2.db, r2.stats, d3, s3, orphanReads, voteFailures, codeFailures)
    ensures var d2 := AfterQuestionScan(AfterEventScan(d0, now, eventFaults), now, questionFaults);
      && OrphansPartlySwept(d2, d3)
      && (OrphanPassClean(d2, orphanReads, voteFailures, codeFailures) ==> d3 == WithoutOrphans(d2))
    ensures eventFaults == map[] && questionFaults == map[] && orphanReads == NoOrphanReadFault
            && voteFailures == {} && codeFailures == {} ==>
      d3 == CleanupPass(d0, now)
  {
    var r1 := EventScan(d0, now, eventFaults, visitedEvents, EmptyStats);
    var r2 := QuestionScan(r1.db, now, questionFaults, visitedQuestions, r1.stats);
    EventPassSummary(d0, now, eventFaults, visitedEvents);
    var d1 := AfterEventScan(d0, now, eventFaults);
    assert r1.db == d1;
    QuestionPassSummary(d1, now, questionFaults, visitedQuestions, r1.stats);
    var d2 := AfterQuestionScan(d1, now, questionFaults);
    assert r2.db == d2;
    if eventFaults == map[] && questionFaults == map[] && orphanReads == NoOrphanReadFault
       && voteFailures == {} && codeFailures == {} {
      NoEventFaults(d0, now);
      assert d1 == WithoutEvents(d0, DueEvents(d0, now));
      NoQuestionFaults(d1, now);
      assert d2 == WithoutQuestions(d1, DueQuestions(d1, now));
      assert OrphanPassClean(d2, orphanReads, voteFailures, codeFailures);
    }
  }

  /** The error list of a whole pass. */
  lemma PassErrors(d0: Db, now: int, eventFaults: map<string, EventFault>, questionFaults: map<string, QuestionFault>,
                   orphanReads: OrphanReadFault, voteFailures: set<string>, codeFailures: set<string>,
                   visitedEvents: seq<string>, visitedQuestions: seq<string>, s3: CleanupStats)
    requires Enumerates(visitedEvents, d0.events.Keys)
    requires var r1 := EventScan(d0, now, eventFaults, visitedEvents, EmptyStats);
      && Enumerates(visitedQuestions, r1.db.eventQuestions.Keys)
      && var r2 := QuestionScan(r1.db, now, questionFaults, visitedQuestions, r1.stats);
         s3.errors
         == r2.stats.errors
            + (if OrphanPassClean(r2.db, orphanReads, voteFailures, codeFailures) then [] else [OrphanSweepFailed])
    ensures var d1 := AfterEventScan(d0, now, eventFaults);
      PassErrorList(s3.errors, DueEventsWhere(d0, now, eventFaults, FailedFault),
                    DueQuestionsWhere(d1, now, questionFaults, QuestionFailedFault),
                    OrphanPassClean(AfterQuestionScan(d1, now, questionFaults), orphanReads, voteFailures, codeFailures))
    ensures eventFaults == map[] && questionFaults == map[] && orphanReads == NoOrphanReadFault
            && voteFailures == {} && codeFailures == {} ==>
      s3.errors == []
  {
    var d1 := AfterEventScan(d0, now, eventFaults);
    var d2 := AfterQuestionScan(d1, now, questionFaults);
    var r1 := EventScan(d0, now, eventFaults, visitedEvents, EmptyStats);
    var r2 := QuestionScan(r1.db, now, questionFaults, visitedQuestions, r1.stats);
    var clean := OrphanPassClean(d2, orphanReads, voteFailures, codeFailures);
    assert PassErrorList(s3.errors, DueEventsWhere(d0, now, eventFaults, FailedFault),
                         DueQuestionsWhere(d1, now, questionFaults, QuestionFailedFault), clean) by {
      EventPassSummary(d0, now, eventFaults, visitedEvents);
      EventPassRecords(d0, now, eventFaults, visitedEvents);
      assert r1.db == d1;
      QuestionPassSummary(d1, now, questionFaults, visitedQuestions, r1.stats);
      QuestionPassRecords(d1, now, questionFaults, visitedQuestions, r1.stats);
      assert r2.db == d2;
      ErrorAssembly(r1.stats.errors, r2.stats.errors, s3.errors, clean,
                    DueEventsWhere(d0, now, eventFaults, FailedFault),
                    DueQuestionsWhere(d1, now, questionFaults, QuestionFailedFault));
    }
    if eventFaults == map[] && questionFaults == map[] && orphanReads == NoOrphanReadFault
       && voteFailures == {} && codeFailures == {} {
      assert s3.errors == [] by {
        EventPassSummary(d0, now, eventFaults, visitedEvents);
        assert r1.db == d1;
        QuestionPassSummary(d1, now, questionFaults, visitedQuestions, r1.stats);
        assert r2.db == d2;
        NoEventFaults(d0, now);
        NoQuestionFaults(d1, now);
        assert clean;
      }
    }
  }

  /** `performCleanup`: the event scan, then the question scan of what is
      left, then the orphan pass, starting from zeroed statistics.
      Questions removed with their event are counted in `questionsDeleted`
      too, and the votes and codes an event or question batch queued are
      counted even when the batch then fails. */
  method PerformCleanup(db: Database, now: int, eventFaults: map<string, EventFault>,
                        questionFaults: map<string, QuestionFault>, orphanReads: OrphanReadFault,
                        voteFailures: set<string>, codeFailures: set<string>)
    returns (stats: CleanupStats)
    modifies db
    ensures stats.eventsProcessed == |old(db.events)|
    ensures stats.eventsDeleted == |DueEventsWhere(old(db.Contents()), now, eventFaults, Committed)|
    ensures var d1 := AfterEventScan(old(db.Contents()), now, eventFaults);
      && stats.questionsProcessed == |d1.eventQuestions|
      && stats.questionsDeleted
         == |QuestionsOf(old(db.Contents()), DueEventsWhere(old(db.Contents()), now, eventFaults, CountsQuestions))|
            + |DueQuestionsWhere(d1, now, questionFaults, QuestionCommitted)|
    ensures var d0 := old(db.Contents());
      var d1 := AfterEventScan(d0, now, eventFaults);
      var d2 := AfterQuestionScan(d1, now, questionFaults);
      && stats.votesDeleted + |db.votes|
         == |VotesOf(d0, DueEventsWhere(d0, now, eventFaults, CountsVotes))|
            + |VotesOfQuestions(d1, DueQuestionsWhere(d1, now, questionFaults, CountsQuestionVotes))| + |d2.votes|
      && stats.voterCodesDeleted + |db.voterCodes|
         == |CodesOf(d0, DueEventsWhere(d0, now, eventFaults, CountsCodes))| + |d2.voterCodes|
    ensures var d2 := AfterQuestionScan(AfterEventScan(old(db.Contents()), now, eventFaults), now, questionFaults);
      && OrphansPartlySwept(d2, db.Contents())
      && (OrphanPassClean(d2, orphanReads, voteFailures, codeFailures) ==> db.Contents() == WithoutOrphans(d2))
    ensures var d0 := old(db.Contents());
      var d1 := AfterEventScan(d0, now, eventFaults);
      PassErrorList(stats.errors, DueEventsWhere(d0, now, eventFaults, FailedFault),
                    DueQuestionsWhere(d1, now, questionFaults, QuestionFailedFault),
                    OrphanPassClean(AfterQuestionScan(d1, now, questionFaults), orphanReads, voteFailures, codeFailures))
    ensures eventFaults == map[] && questionFaults == map[] && orphanReads == NoOrphanReadFault
            && voteFailures == {} && codeFailures == {} ==>
      db.Contents() == CleanupPass(old(db.Contents()), now) && stats.errors == []
  {
    ghost var d0 := db.Contents();
    ghost var visitedEvents, visitedQuestions;
    stats := EmptyStats;
    stats, visitedEvents := CleanupEvents(db, now, eventFaults, stats);
    ghost var d1 := db.Contents();
    ghost var afterEvents := stats;
    stats, visitedQuestions := CleanupQuestions(db, now, questionFaults, stats);
    ghost var d2 := db.Contents();
    ghost var afterQuestions := stats;
    stats := CleanupOrphanedData(db, orphanReads, voteFailures, codeFailures, stats);
    assert ScanState(d1, afterEvents) == EventScan(d0, now, eventFaults, visitedEvents, EmptyStats);
    assert ScanState(d2, afterQuestions) == QuestionScan(d1, now, questionFaults, visitedQuestions, afterEvents);
    assert OrphanPassReport(d2, afterQuestions, db.Contents(), stats, orphanReads, voteFailures, codeFailures);
    assert stats.errors
           == afterQuestions.errors
              + (if OrphanPassClean(d2, orphanReads, voteFailures, codeFailures) then [] else [OrphanSweepFailed]);
    PassCounts(d0, now, eventFaults, questionFaults, orphanReads, voteFailures, codeFailures,
               visitedEvents, visitedQuestions, db.Contents(), stats);
    PassStore(d0, now, eventFaults, questionFaults, orphanReads, voteFailures, codeFailures,
              visitedEvents, visitedQuestions, db.Contents(), stats);
    PassErrors(d0, now, eventFaults, questionFaults, orphanReads, voteFailures, codeFailures,
               visitedEvents, visitedQuestions, stats);
  }
}

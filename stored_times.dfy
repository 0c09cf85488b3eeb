/** The retention scans as `data-cleanup.ts` writes them, with the times
    of a stored record in the form the store hands them back.

    `createEvent` and `createQuestion` store `Timestamp.now()`, and the
    readers of `event-service.ts` turn every stored time back into a
    `Date` with `toDate()`. The cleanup scans instead pass the raw
    `data()` to the eligibility tests, which call `getTime()` on
    `updatedAt` (events) or on `closedAt || evaluatedAt || updatedAt`
    (questions). A Firestore `Timestamp` has no `getTime`, so for every
    closed or evaluated record that call throws a `TypeError`; the scan's
    `catch` records the error and goes on with the next record.

    `DataCleanup` models the scans as intended, with times already read as
    instants; this module models them as written and relates the two. */
module StoredTimes {
  import opened Types
  import opened Store
  import opened DataCleanup

  /** How the time fields of a stored record come back from the store:
      as instants with `getTime()`, or as Firestore `Timestamp` objects. */
  datatype TimeEncoding = AsDate | AsFirestoreTimestamp

  /** The outcome of an eligibility test: a verdict, or the `TypeError`
      thrown by `getTime()`. */
  datatype Check = Decided(due: bool) | Throws

  /** `shouldCleanupEvent` on a raw record: the status test comes first, so
      only a closed or evaluated event reaches `updatedAt.getTime()`. */
  function EventCheckAsRead(event: Event, enc: TimeEncoding, now: int): (c: Check)
    ensures c == Throws <==> IsTerminal(event.status) && enc == AsFirestoreTimestamp
    ensures c.Decided? ==> c.due == ShouldCleanupEvent(event, now)
  {
    if !IsTerminal(event.status) then Decided(false)
    else if enc == AsFirestoreTimestamp then Throws
    else Decided(ShouldCleanupEvent(event, now))
  }

  /** `shouldCleanupQuestion` on a raw record. `updatedAt` is always set,
      so `closedAt || evaluatedAt || updatedAt` is a `Timestamp` whichever
      field it picks. */
  function QuestionCheckAsRead(q: EventQuestion, enc: TimeEncoding, now: int): (c: Check)
    ensures c == Throws <==> IsTerminal(q.status) && enc == AsFirestoreTimestamp
    ensures c.Decided? ==> c.due == ShouldCleanupQuestion(q, now)
  {
    if !IsTerminal(q.status) then Decided(false)
    else if enc == AsFirestoreTimestamp then Throws
    else Decided(ShouldCleanupQuestion(q, now))
  }

  /** The check of the snapshot's event `id`. */
  function EventCheckIn(d0: Db, id: string, enc: TimeEncoding, now: int): Check {
    if id in d0.events then EventCheckAsRead(d0.events[id], enc, now) else Decided(false)
  }

  function QuestionCheckIn(d0: Db, id: string, enc: TimeEncoding, now: int): Check {
    if id in d0.eventQuestions then QuestionCheckAsRead(d0.eventQuestions[id], enc, now) else Decided(false)
  }

  /** One iteration of `cleanupEvents` as written: `eventsProcessed` is
      raised first; a throwing test records the event and deletes nothing. */
  function EventVisitAsRead(st: ScanState, id: string, check: Check, fault: EventFault): ScanState {
    match check
    case Throws =>
      ScanState(st.db, st.stats.(eventsProcessed := st.stats.eventsProcessed + 1,
                                 errors := st.stats.errors + [EventFailed(id)]))
    case Decided(due) => EventVisit(st, id, due, fault)
  }

  function QuestionVisitAsRead(st: ScanState, id: string, check: Check, fault: QuestionFault): ScanState {
    match check
    case Throws =>
      ScanState(st.db, st.stats.(questionsProcessed := st.stats.questionsProcessed + 1,
                                 errors := st.stats.errors + [QuestionFailed(id)]))
    case Decided(due) => QuestionVisit(st, id, due, fault)
  }

  /** `cleanupEvents` as written, over the events `order` of the snapshot. */
  function EventScanAsRead(d0: Db, now: int, enc: TimeEncoding, faults: map<string, EventFault>,
                           order: seq<string>, stats: CleanupStats): ScanState
    decreases |order|
  {
    if order == [] then ScanState(d0, stats)
    else
      var id := order[|order| - 1];
      EventVisitAsRead(EventScanAsRead(d0, now, enc, faults, order[..|order| - 1], stats), id,
                       EventCheckIn(d0, id, enc, now), EventFaultOf(faults, id))
  }

  /** `cleanupQuestions` as written. */
  function QuestionScanAsRead(d0: Db, now: int, enc: TimeEncoding, faults: map<string, QuestionFault>,
                              order: seq<string>, stats: CleanupStats): ScanState
    decreases |order|
  {
    if order == [] then ScanState(d0, stats)
    else
      var id := order[|order| - 1];
      QuestionVisitAsRead(QuestionScanAsRead(d0, now, enc, faults, order[..|order| - 1], stats), id,
                          QuestionCheckIn(d0, id, enc, now), QuestionFaultOf(faults, id))
  }

  /** The closed or evaluated events among `ids`. */
  function TerminalEventsAmong(d0: Db, ids: set<string>): set<string> {
    set id | id in ids && id in d0.events && IsTerminal(d0.events[id].status)
  }

  function TerminalQuestionsAmong(d0: Db, ids: set<string>): set<string> {
    set id | id in ids && id in d0.eventQuestions && IsTerminal(d0.eventQuestions[id].status)
  }

  // ---------------------------------------------------------------------
  // Times read as instants: the scans of `DataCleanup`

  /** With times read as instants the scan as written is the event scan of
      `DataCleanup`, in any visiting order. */
  lemma {:induction false} EventScanAsDates(d0: Db, now: int, faults: map<string, EventFault>, order: seq<string>,
                                            stats: CleanupStats)
    ensures EventScanAsRead(d0, now, AsDate, faults, order, stats) == EventScan(d0, now, faults, order, stats)
    decreases |order|
  {
    if order != [] {
      var id := order[|order| - 1];
      EventScanAsDates(d0, now, faults, order[..|order| - 1], stats);
      assert EventCheckIn(d0, id, AsDate, now) == Decided(DueIn(d0, id, now));
    }
  }

  lemma {:induction false} QuestionScanAsDates(d0: Db, now: int, faults: map<string, QuestionFault>,
                                               order: seq<string>, stats: CleanupStats)
    ensures QuestionScanAsRead(d0, now, AsDate, faults, order, stats) == QuestionScan(d0, now, faults, order, stats)
    decreases |order|
  {
    if order != [] {
      var id := order[|order| - 1];
      QuestionScanAsDates(d0, now, faults, order[..|order| - 1], stats);
      assert QuestionCheckIn(d0, id, AsDate, now) == Decided(QuestionDueIn(d0, id, now));
    }
  }

  // ---------------------------------------------------------------------
  // Times read as Timestamps: nothing is deleted

  /** The error a visit on `Timestamp`s adds: one for a closed or
      evaluated event of the snapshot, none otherwise. */
  function EventTimestampFailure(d0: Db, id: string): seq<CleanupError> {
    if id in d0.events && IsTerminal(d0.events[id].status) then [EventFailed(id)] else []
  }

  function QuestionTimestampFailure(d0: Db, id: string): seq<CleanupError> {
    if id in d0.eventQuestions && IsTerminal(d0.eventQuestions[id].status) then [QuestionFailed(id)] else []
  }

  lemma EventTimestampFailuresStep(d0: Db, done: set<string>, id: string, es: seq<CleanupError>)
    requires id !in done
    requires ListsEventFailures(es, TerminalEventsAmong(d0, done))
    ensures ListsEventFailures(es + EventTimestampFailure(d0, id), TerminalEventsAmong(d0, done + {id}))
  {
    var es' := es + EventTimestampFailure(d0, id);
    assert TerminalEventsAmong(d0, done + {id})
           == TerminalEventsAmong(d0, done) + (if EventTimestampFailure(d0, id) == [] then {} else {id});
    forall e | e in es'
      ensures e.EventFailed? && e.eventId in TerminalEventsAmong(d0, done + {id})
    {
      if e !in es { assert e == EventFailed(id); }
    }
  }

  lemma QuestionTimestampFailuresStep(d0: Db, done: set<string>, id: string, es: seq<CleanupError>)
    requires id !in done
    requires ListsQuestionFailures(es, TerminalQuestionsAmong(d0, done))
    ensures ListsQuestionFailures(es + QuestionTimestampFailure(d0, id), TerminalQuestionsAmong(d0, done + {id}))
  {
    var es' := es + QuestionTimestampFailure(d0, id);
    assert TerminalQuestionsAmong(d0, done + {id})
           == TerminalQuestionsAmong(d0, done) + (if QuestionTimestampFailure(d0, id) == [] then {} else {id});
    forall e | e in es'
      ensures e.QuestionFailed? && e.questionId in TerminalQuestionsAmong(d0, done + {id})
    {
      if e !in es { assert e == QuestionFailed(id); }
    }
  }

  /** One visit on `Timestamp`s: the store stays, only `eventsProcessed`
      moves, and a closed or evaluated event adds its error. */
  lemma EventVisitOnTimestamps(d0: Db, st: ScanState, id: string, now: int, fault: EventFault)
    ensures var r := EventVisitAsRead(st, id, EventCheckIn(d0, id, AsFirestoreTimestamp, now), fault);
      && r.db == st.db
      && r.stats.(errors := []) == st.stats.(eventsProcessed := st.stats.eventsProcessed + 1, errors := [])
      && r.stats.errors == st.stats.errors + EventTimestampFailure(d0, id)
  {
  }

  lemma QuestionVisitOnTimestamps(d0: Db, st: ScanState, id: string, now: int, fault: QuestionFault)
    ensures var r := QuestionVisitAsRead(st, id, QuestionCheckIn(d0, id, AsFirestoreTimestamp, now), fault);
      && r.db == st.db
      && r.stats.(errors := []) == st.stats.(questionsProcessed := st.stats.questionsProcessed + 1, errors := [])
      && r.stats.errors == st.stats.errors + QuestionTimestampFailure(d0, id)
  {
  }

  /** With stored `Timestamp`s the event scan deletes nothing and counts
      nothing but the visited events. */
  lemma {:induction false} EventScanKeepsAll(d0: Db, now: int, faults: map<string, EventFault>, order: seq<string>,
                                             stats: CleanupStats)
    requires Enumerates(order, Elems(order))
    ensures var r := EventScanAsRead(d0, now, AsFirestoreTimestamp, faults, order, stats);
      && r.db == d0
      && r.stats.(errors := []) == stats.(eventsProcessed := stats.eventsProcessed + |Elems(order)|, errors := [])
    decreases |order|
  {
    if order != [] {
      var init, id := order[..|order| - 1], order[|order| - 1];
      ElemsSnoc(order);
      EventScanKeepsAll(d0, now, faults, init, stats);
      EventVisitOnTimestamps(d0, EventScanAsRead(d0, now, AsFirestoreTimestamp, faults, init, stats), id, now,
                             EventFaultOf(faults, id));
    }
  }

  lemma {:induction false} QuestionScanKeepsAll(d0: Db, now: int, faults: map<string, QuestionFault>,
                                                order: seq<string>, stats: CleanupStats)
    requires Enumerates(order, Elems(order))
    ensures var r := QuestionScanAsRead(d0, now, AsFirestoreTimestamp, faults, order, stats);
      && r.db == d0
      && r.stats.(errors := []) == stats.(questionsProcessed := stats.questionsProcessed + |Elems(order)|, errors := [])
    decreases |order|
  {
    if order != [] {
      var init, id := order[..|order| - 1], order[|order| - 1];
      ElemsSnoc(order);
      QuestionScanKeepsAll(d0, now, faults, init, stats);
      QuestionVisitOnTimestamps(d0, QuestionScanAsRead(d0, now, AsFirestoreTimestamp, faults, init, stats), id, now,
                                QuestionFaultOf(faults, id));
    }
  }

  /** On `Timestamp`s the event scan keeps the earlier errors and appends
      one for each closed or evaluated event it visits. */
  lemma {:induction false} EventScanFailsTerminal(d0: Db, now: int, faults: map<string, EventFault>, order: seq<string>,
                                                  stats: CleanupStats)
    requires Enumerates(order, Elems(order))
    ensures var errors := EventScanAsRead(d0, now, AsFirestoreTimestamp, faults, order, stats).stats.errors;
      && |stats.errors| <= |errors| && errors[..|stats.errors|] == stats.errors
      && ListsEventFailures(errors[|stats.errors|..], TerminalEventsAmong(d0, Elems(order)))
    decreases |order|
  {
    var errors := EventScanAsRead(d0, now, AsFirestoreTimestamp, faults, order, stats).stats.errors;
    if order == [] {
      assert TerminalEventsAmong(d0, Elems(order)) == {};
      assert errors[|stats.errors|..] == [];
    } else {
      var init, id := order[..|order| - 1], order[|order| - 1];
      ElemsSnoc(order);
      EventScanFailsTerminal(d0, now, faults, init, stats);
      var before := EventScanAsRead(d0, now, AsFirestoreTimestamp, faults, init, stats).stats.errors;
      EventVisitOnTimestamps(d0, EventScanAsRead(d0, now, AsFirestoreTimestamp, faults, init, stats), id, now,
                             EventFaultOf(faults, id));
      EventTimestampFailuresStep(d0, Elems(init), id, before[|stats.errors|..]);
      SuffixAppend(stats.errors, before, EventTimestampFailure(d0, id));
    }
  }

  lemma {:induction false} QuestionScanFailsTerminal(d0: Db, now: int, faults: map<string, QuestionFault>,
                                                     order: seq<string>, stats: CleanupStats)
    requires Enumerates(order, Elems(order))
    ensures var errors := QuestionScanAsRead(d0, now, AsFirestoreTimestamp, faults, order, stats).stats.errors;
      && |stats.errors| <= |errors| && errors[..|stats.errors|] == stats.errors
      && ListsQuestionFailures(errors[|stats.errors|..], TerminalQuestionsAmong(d0, Elems(order)))
    decreases |order|
  {
    var errors := QuestionScanAsRead(d0, now, AsFirestoreTimestamp, faults, order, stats).stats.errors;
    if order == [] {
      assert TerminalQuestionsAmong(d0, Elems(order)) == {};
      assert errors[|stats.errors|..] == [];
    } else {
      var init, id := order[..|order| - 1], order[|order| - 1];
      ElemsSnoc(order);
      QuestionScanFailsTerminal(d0, now, faults, init, stats);
      var before := QuestionScanAsRead(d0, now, AsFirestoreTimestamp, faults, init, stats).stats.errors;
      QuestionVisitOnTimestamps(d0, QuestionScanAsRead(d0, now, AsFirestoreTimestamp, faults, init, stats), id, now,
                                QuestionFaultOf(faults, id));
      QuestionTimestampFailuresStep(d0, Elems(init), id, before[|stats.errors|..]);
      SuffixAppend(stats.errors, before, QuestionTimestampFailure(d0, id));
    }
  }

  /** The event scan of a whole snapshot as written: the store is left as
      it was, `eventsDeleted` and the record counters stay at their start,
      and the errors name exactly the closed or evaluated events, every
      event due for deletion among them. */
  lemma StoredTimestampsStopEventCleanup(d0: Db, now: int, faults: map<string, EventFault>, order: seq<string>,
                                         stats: CleanupStats)
    requires Enumerates(order, d0.events.Keys)
    ensures var r := EventScanAsRead(d0, now, AsFirestoreTimestamp, faults, order, stats);
      && r.db == d0
      && r.stats.eventsProcessed == stats.eventsProcessed + |d0.events|
      && r.stats.eventsDeleted == stats.eventsDeleted
      && r.stats.votesDeleted == stats.votesDeleted
      && r.stats.voterCodesDeleted == stats.voterCodesDeleted
      && r.stats.questionsDeleted == stats.questionsDeleted
      && |stats.errors| <= |r.stats.errors| && r.stats.errors[..|stats.errors|] == stats.errors
      && ListsEventFailures(r.stats.errors[|stats.errors|..], TerminalEventsAmong(d0, d0.events.Keys))
    ensures DueEvents(d0, now) <= TerminalEventsAmong(d0, d0.events.Keys)
  {
    assert Elems(order) == d0.events.Keys;
    EventScanKeepsAll(d0, now, faults, order, stats);
    EventScanFailsTerminal(d0, now, faults, order, stats);
  }

  /** The question scan of a whole snapshot as written. */
  lemma StoredTimestampsStopQuestionCleanup(d0: Db, now: int, faults: map<string, QuestionFault>,
                                            order: seq<string>, stats: CleanupStats)
    requires Enumerates(order, d0.eventQuestions.Keys)
    ensures var r := QuestionScanAsRead(d0, now, AsFirestoreTimestamp, faults, order, stats);
      && r.db == d0
      && r.stats.questionsProcessed == stats.questionsProcessed + |d0.eventQuestions|
      && r.stats.questionsDeleted == stats.questionsDeleted
      && r.stats.votesDeleted == stats.votesDeleted
      && |stats.errors| <= |r.stats.errors| && r.stats.errors[..|stats.errors|] == stats.errors
      && ListsQuestionFailures(r.stats.errors[|stats.errors|..], TerminalQuestionsAmong(d0, d0.eventQuestions.Keys))
    ensures DueQuestions(d0, now) <= TerminalQuestionsAmong(d0, d0.eventQuestions.Keys)
  {
    assert Elems(order) == d0.eventQuestions.Keys;
    QuestionScanKeepsAll(d0, now, faults, order, stats);
    QuestionScanFailsTerminal(d0, now, faults, order, stats);
  }

  /** A closed event last updated 25 hours ago is due; the scan of
      `DataCleanup` deletes it, the scan as written keeps it and records
      an error instead. */
  lemma ClosedEventOutlivesRetention()
    ensures var e := Event("a", "t", "", 0, None, "10:00", None, 10, "", false, Closed, 0, 0);
      var d0 := Db(map["e" := e], map[], map[], map[], map[], map[]);
      var now := 25 * HourMs;
      && ShouldCleanupEvent(e, now)
      && EventScan(d0, now, map[], ["e"], EmptyStats).db.events == map[]
      && EventScanAsRead(d0, now, AsFirestoreTimestamp, map[], ["e"], EmptyStats).db.events == map["e" := e]
      && EventScanAsRead(d0, now, AsFirestoreTimestamp, map[], ["e"], EmptyStats).stats.errors == [EventFailed("e")]
  {
    var e := Event("a", "t", "", 0, None, "10:00", None, 10, "", false, Closed, 0, 0);
    var d0 := Db(map["e" := e], map[], map[], map[], map[], map[]);
    var now := 25 * HourMs;
    assert ["e"][..0] == [];
    assert DueIn(d0, "e", now);
    assert (map["e" := e] - {"e"}).Keys == {};
  }
}

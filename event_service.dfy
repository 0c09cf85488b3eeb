/** The event service: creating events and their questions with default
    values, listing the events of an association and the questions of an
    event in display order, and the purge of the collections of the older
    single-question election flow.

    `Timestamp.now()` is the parameter `now`; the id `addDoc` generates is
    the parameter `freshId`. */
module EventService {
  import opened Types
  import opened Store
  import TimeProtection
  import DataCleanup

  // ---------------------------------------------------------------------
  // createEvent / createQuestion: the records written

  const DefaultEventTitle: string := "Neue Veranstaltung"
  const DefaultStartTime: string := "09:00"
  const DefaultMaxVoters: int := 50
  const DefaultInvitationText: string := "Sie sind zur Abstimmung eingeladen."
  const DefaultQuestionText: string := "Neue Frage"

  /** A truthy string: present and not empty. */
  predicate Given(s: Option<string>) {
    s.Some? && s.value != ""
  }

  /** The event document `createEvent` writes. Every falsy field takes its
      default, so a capacity of 0 becomes 50; a supplied status or
      association is ignored; the end date and end time are written only
      when supplied. */
  function NewEvent(associationId: string, data: EventPatch, now: int): (e: Event)
    ensures e.status == Draft && e.associationId == associationId
    ensures e.createdAt == now && e.updatedAt == now
    ensures e.title != "" && e.startTime != "" && e.invitationText != "" && e.maxVoters != 0
    ensures Given(data.title) ==> e.title == data.title.value
    ensures !Given(data.title) ==> e.title == DefaultEventTitle
    ensures e.description == (if Given(data.description) then data.description.value else "")
    ensures Given(data.invitationText) ==> e.invitationText == data.invitationText.value
    ensures !Given(data.invitationText) ==> e.invitationText == DefaultInvitationText
    ensures Given(data.startTime) ==> e.startTime == data.startTime.value
    ensures !Given(data.startTime) ==> e.startTime == DefaultStartTime
    ensures data.maxVoters.Some? && data.maxVoters.value != 0 ==> e.maxVoters == data.maxVoters.value
    ensures data.maxVoters.None? || data.maxVoters.value == 0 ==> e.maxVoters == DefaultMaxVoters
    ensures e.startDate == (if data.startDate.Some? then data.startDate.value else now)
    ensures e.endDate == data.endDate
    ensures e.endTime.Some? <==> Given(data.endTime)
    ensures e.endTime.Some? ==> e.endTime == data.endTime
    ensures e.showLinkWithCode <==> data.showLinkWithCode == Some(true)
  {
    Event(
      associationId,
      OrString(data.title, DefaultEventTitle),
      OrString(data.description, ""),
      if data.startDate.Some? then data.startDate.value else now,
      data.endDate,
      OrString(data.startTime, DefaultStartTime),
      if Given(data.endTime) then data.endTime else None,
      OrNumber(data.maxVoters, DefaultMaxVoters),
      OrString(data.invitationText, DefaultInvitationText),
      OrFalse(data.showLinkWithCode),
      Draft,
      now,
      now)
  }

  /** The question document `createQuestion` writes: a draft without any
      status timestamp, invalid votes off, order 0 and no options unless
      supplied. */
  function NewQuestion(eventId: string, data: QuestionPatch, now: int): (q: EventQuestion)
    ensures q.eventId == eventId && q.status == Draft
    ensures q.startedAt.None? && q.closedAt.None? && q.evaluatedAt.None?
    ensures q.createdAt == now && q.updatedAt == now
    ensures q.question != ""
    ensures Given(data.question) ==> q.question == data.question.value
    ensures !Given(data.question) ==> q.question == DefaultQuestionText
    ensures q.options == (if data.options.Some? then data.options.value else [])
    ensures q.allowInvalidVotes <==> data.allowInvalidVotes == Some(true)
    ensures q.order == (if data.order.Some? then data.order.value else 0)
  {
    EventQuestion(
      eventId,
      OrString(data.question, DefaultQuestionText),
      if data.options.Some? then data.options.value else [],
      OrFalse(data.allowInvalidVotes),
      Draft,
      OrNumber(data.order, 0),
      None, None, None,
      now,
      now)
  }

  /** A new event is a draft: the time protection refuses an update of it
      only for moving its start date into the past. */
  lemma NewEventOnlyRefusesBackdating(associationId: string, data: EventPatch, now: int, patch: EventPatch)
    ensures var e := NewEvent(associationId, data, now);
      TimeProtection.ValidateEventChange(e, patch).Valid? <==> !TimeProtection.Backdates(e, patch)
  {
  }

  /** A new question accepts every update, and may be started. */
  lemma NewQuestionIsOpen(eventId: string, data: QuestionPatch, now: int, patch: QuestionPatch)
    ensures TimeProtection.ValidateQuestionChange(NewQuestion(eventId, data, now), patch) == TimeProtection.Valid
    ensures TimeProtection.SafeStatusChange(QuestionEntity(NewQuestion(eventId, data, now)), Active, now).ChangeApplied?
  {
    TimeProtection.FreshDraftQuestionAcceptsAll(NewQuestion(eventId, data, now), patch);
    TimeProtection.StatusIndexValues();
  }

  /** New events and questions are never due for the retention cleanup. */
  lemma NewRecordsAreKept(associationId: string, eventId: string, eventData: EventPatch, questionData: QuestionPatch, now: int, later: int)
    ensures !DataCleanup.ShouldCleanupEvent(NewEvent(associationId, eventData, now), later)
    ensures !DataCleanup.ShouldCleanupQuestion(NewQuestion(eventId, questionData, now), later)
  {
  }

  /** `createEvent`: adds the new event under the id the store generated. */
  method CreateEvent(db: Database, associationId: string, data: EventPatch, freshId: string, now: int)
    returns (id: string)
    requires freshId !in db.events
    modifies db
    ensures id == freshId
    ensures db.Contents() == old(db.Contents()).(events := old(db.events)[freshId := NewEvent(associationId, data, now)])
  {
    db.events := db.events[freshId := NewEvent(associationId, data, now)];
    id := freshId;
  }

  /** `createQuestion`: adds the new question under the id the store
      generated. The event id is not checked against the events. */
  method CreateQuestion(db: Database, eventId: string, data: QuestionPatch, freshId: string, now: int)
    returns (id: string)
    requires freshId !in db.eventQuestions
    modifies db
    ensures id == freshId
    ensures db.Contents() == old(db.Contents()).(eventQuestions := old(db.eventQuestions)[freshId := NewQuestion(eventId, data, now)])
  {
    db.eventQuestions := db.eventQuestions[freshId := NewQuestion(eventId, data, now)];
    id := freshId;
  }

  // ---------------------------------------------------------------------
  // getEvents / getQuestions

  /** A document with its id, as the listing functions return it. */
  datatype Entry<T> = Entry(id: string, doc: T)

  /** No id is listed twice. */
  predicate DistinctIds<T>(s: seq<Entry<T>>) {
    forall i, j :: 0 <= i < j < |s| ==> s[i].id != s[j].id
  }

  /** `s` lists exactly the documents of `m` that `keep` selects, each once
      and with its stored value. */
  predicate ListsExactly<T(==)>(s: seq<Entry<T>>, m: map<string, T>, keep: T -> bool) {
    && (forall i :: 0 <= i < |s| ==> s[i].id in m && s[i].doc == m[s[i].id] && keep(s[i].doc))
    && (forall id :: id in m && keep(m[id]) ==> exists i :: 0 <= i < |s| && s[i].id == id)
    && DistinctIds(s)
  }

  /** Ascending by `key`, the order a comparator `key(a) - key(b)` gives. */
  predicate SortedBy<T>(s: seq<Entry<T>>, key: T -> int) {
    forall i, j :: 0 <= i < j < |s| ==> key(s[i].doc) <= key(s[j].doc)
  }

  /** Inserts `x` in front of the first element whose key is not smaller,
      so that it stays ahead of the elements with an equal key. */
  function InsertBy<T(==)>(x: Entry<T>, s: seq<Entry<T>>, key: T -> int): (r: seq<Entry<T>>)
    ensures multiset(r) == multiset(s) + multiset{x}
  {
    if s == [] || key(x.doc) <= key(s[0].doc) then [x] + s
    else
      assert s == [s[0]] + s[1..];
      [s[0]] + InsertBy(x, s[1..], key)
  }

  /** A property every entry of `s` and `x` have holds of every entry
      after the insertion. */
  lemma {:induction false} InsertKeepsAll<T>(x: Entry<T>, s: seq<Entry<T>>, key: T -> int, ok: Entry<T> -> bool)
    requires ok(x)
    requires forall i :: 0 <= i < |s| ==> ok(s[i])
    ensures forall j :: 0 <= j < |InsertBy(x, s, key)| ==> ok(InsertBy(x, s, key)[j])
  {
    if s != [] && key(s[0].doc) < key(x.doc) {
      var rest := InsertBy(x, s[1..], key);
      InsertKeepsAll(x, s[1..], key, ok);
      var r := [s[0]] + rest;
      assert InsertBy(x, s, key) == r;
      forall j | 0 <= j < |r|
        ensures ok(r[j])
      {
        if j > 0 {
          assert r[j] == rest[j - 1];
        }
      }
    }
  }

  /** Inserting into an ascending listing keeps it ascending. */
  lemma {:induction false} InsertKeepsOrder<T>(x: Entry<T>, s: seq<Entry<T>>, key: T -> int)
    requires SortedBy(s, key)
    ensures SortedBy(InsertBy(x, s, key), key)
  {
    if s != [] && key(s[0].doc) < key(x.doc) {
      var rest := InsertBy(x, s[1..], key);
      InsertKeepsOrder(x, s[1..], key);
      var least := key(s[0].doc);
      InsertKeepsAll(x, s[1..], key, (e: Entry<T>) => least <= key(e.doc));
      var r := [s[0]] + rest;
      forall i, j | 0 <= i < j < |r|
        ensures key(r[i].doc) <= key(r[j].doc)
      {
        if i > 0 {
          assert r[i] == rest[i - 1];
        }
        assert r[j] == rest[j - 1];
      }
    }
  }

  /** Inserting an entry whose id is not listed keeps the ids distinct. */
  lemma {:induction false} InsertKeepsIdsDistinct<T>(x: Entry<T>, s: seq<Entry<T>>, key: T -> int)
    requires DistinctIds(s)
    requires forall i :: 0 <= i < |s| ==> s[i].id != x.id
    ensures DistinctIds(InsertBy(x, s, key))
  {
    if s != [] && key(s[0].doc) < key(x.doc) {
      var rest := InsertBy(x, s[1..], key);
      InsertKeepsIdsDistinct(x, s[1..], key);
      var taken := s[0].id;
      InsertKeepsAll(x, s[1..], key, (e: Entry<T>) => e.id != taken);
      var r := [s[0]] + rest;
      forall i, j | 0 <= i < j < |r|
        ensures r[i].id != r[j].id
      {
        if i > 0 {
          assert r[i] == rest[i - 1];
        }
        assert r[j] == rest[j - 1];
      }
    }
  }

  /** `Array.prototype.sort` with the comparator `key(a) - key(b)`, as a
      stable insertion sort: a permutation of its input, ascending by key. */
  function SortBy<T(==)>(s: seq<Entry<T>>, key: T -> int): (r: seq<Entry<T>>)
    ensures multiset(r) == multiset(s)
    ensures SortedBy(r, key)
  {
    if s == [] then []
    else
      assert s == [s[0]] + s[1..];
      InsertKeepsOrder(s[0], SortBy(s[1..], key), key);
      InsertBy(s[0], SortBy(s[1..], key), key)
  }

  /** A property every entry of `s` has holds of every entry after
      sorting. */
  lemma {:induction false} SortKeepsAll<T>(s: seq<Entry<T>>, key: T -> int, ok: Entry<T> -> bool)
    requires forall i :: 0 <= i < |s| ==> ok(s[i])
    ensures forall j :: 0 <= j < |SortBy(s, key)| ==> ok(SortBy(s, key)[j])
  {
    if s != [] {
      SortKeepsAll(s[1..], key, ok);
      InsertKeepsAll(s[0], SortBy(s[1..], key), key, ok);
    }
  }

  /** Sorting keeps the ids distinct. */
  lemma {:induction false} SortKeepsIdsDistinct<T>(s: seq<Entry<T>>, key: T -> int)
    requires DistinctIds(s)
    ensures DistinctIds(SortBy(s, key))
  {
    if s != [] {
      var sorted := SortBy(s[1..], key);
      SortKeepsIdsDistinct(s[1..], key);
      assert s == [s[0]] + s[1..];
      var taken := s[0].id;
      SortKeepsAll(s[1..], key, (e: Entry<T>) => e.id != taken);
      InsertKeepsIdsDistinct(s[0], sorted, key);
    }
  }

  /** Every entry is still listed after sorting. */
  lemma SortKeepsEntry<T>(s: seq<Entry<T>>, key: T -> int, j: int)
    requires 0 <= j < |s|
    ensures exists i :: 0 <= i < |SortBy(s, key)| && SortBy(s, key)[i] == s[j]
  {
    assert s[j] in multiset(SortBy(s, key));
  }

  /** Sorting a complete listing leaves it complete. */
  lemma SortedListingIsComplete<T>(s: seq<Entry<T>>, m: map<string, T>, keep: T -> bool, key: T -> int)
    requires ListsExactly(s, m, keep)
    ensures ListsExactly(SortBy(s, key), m, keep)
  {
    var r := SortBy(s, key);
    SortKeepsAll(s, key, (e: Entry<T>) => e.id in m && e.doc == m[e.id] && keep(e.doc));
    forall id | id in m && keep(m[id])
      ensures exists i :: 0 <= i < |r| && r[i].id == id
    {
      var j :| 0 <= j < |s| && s[j].id == id;
      SortKeepsEntry(s, key, j);
    }
    SortKeepsIdsDistinct(s, key);
  }

  /** The `getDocs` + `forEach` + `push` accumulation: every document of
      `m` that `keep` selects, in the order the snapshot lists them. */
  method Collect<T(==)>(m: map<string, T>, keep: T -> bool) returns (found: seq<Entry<T>>)
    ensures ListsExactly(found, m, keep)
  {
    var pending := m.Keys;
    found := [];
    while pending != {}
      invariant pending <= m.Keys
      invariant forall i :: 0 <= i < |found| ==>
        found[i].id in m && found[i].doc == m[found[i].id] && keep(found[i].doc) && found[i].id !in pending
      invariant forall id :: id in m && id !in pending && keep(m[id]) ==>
        exists i :: 0 <= i < |found| && found[i].id == id
      invariant DistinctIds(found)
      decreases pending
    {
      var id :| id in pending;
      if keep(m[id]) {
        var prev := found;
        found := found + [Entry(id, m[id])];
        forall k | k in m && k !in pending - {id} && keep(m[k])
          ensures exists i :: 0 <= i < |found| && found[i].id == k
        {
          if k == id {
            assert found[|prev|].id == k;
          } else {
            var i :| 0 <= i < |prev| && prev[i].id == k;
            assert found[i].id == k;
          }
        }
      }
      pending := pending - {id};
    }
  }

  /** Newest first: the comparator `b.createdAt - a.createdAt`. */
  function NewestFirst(e: Event): int {
    -e.createdAt
  }

  /** The comparator `a.order - b.order`. */
  function QuestionOrder(q: EventQuestion): int {
    q.order
  }

  /** `getEvents`: the events of the association, newest first. */
  method GetEvents(db: Database, associationId: string) returns (events: seq<Entry<Event>>)
    ensures ListsExactly(events, db.events, (e: Event) => e.associationId == associationId)
    ensures forall i, j :: 0 <= i < j < |events| ==> events[i].doc.createdAt >= events[j].doc.createdAt
  {
    var keep := (e: Event) => e.associationId == associationId;
    var found := Collect(db.events, keep);
    events := SortBy(found, NewestFirst);
    SortedListingIsComplete(found, db.events, keep, NewestFirst);
  }

  /** `getQuestions`: the questions of the event, by ascending `order`. */
  method GetQuestions(db: Database, eventId: string) returns (questions: seq<Entry<EventQuestion>>)
    ensures ListsExactly(questions, db.eventQuestions, (q: EventQuestion) => q.eventId == eventId)
    ensures forall i, j :: 0 <= i < j < |questions| ==> questions[i].doc.order <= questions[j].doc.order
  {
    var keep := (q: EventQuestion) => q.eventId == eventId;
    var found := Collect(db.eventQuestions, keep);
    questions := SortBy(found, QuestionOrder);
    SortedListingIsComplete(found, db.eventQuestions, keep, QuestionOrder);
  }

  // ---------------------------------------------------------------------
  // TestDataCleanup.cleanupOldTestData

  /** The collections of the older election flow, purged in this order. */
  datatype OldCollection = ElectionsCollection | ElectionQuestionsCollection | VotesCollection | VoterCodesCollection

  const OldCollections: seq<OldCollection> :=
    [ElectionsCollection, ElectionQuestionsCollection, VotesCollection, VoterCodesCollection]

  /** The store with one of the old collections emptied. */
  function Emptied(d: Db, c: OldCollection): Db {
    match c
    case ElectionsCollection => d.(elections := map[])
    case ElectionQuestionsCollection => d.(electionQuestions := map[])
    case VotesCollection => d.(votes := map[])
    case VoterCodesCollection => d.(voterCodes := map[])
  }

  /** The store once the first `n` old collections are emptied: those are
      empty, the later ones and the events with their questions are as
      they were. */
  function EmptiedFirst(d: Db, n: nat): (r: Db)
    requires n <= |OldCollections|
    ensures r.events == d.events && r.eventQuestions == d.eventQuestions
    ensures r.elections == if n >= 1 then map[] else d.elections
    ensures r.electionQuestions == if n >= 2 then map[] else d.electionQuestions
    ensures r.votes == if n >= 3 then map[] else d.votes
    ensures r.voterCodes == if n >= 4 then map[] else d.voterCodes
  {
    if n == 0 then d else Emptied(EmptiedFirst(d, n - 1), OldCollections[n - 1])
  }

  /** How many collections a purge empties: all four, unless the read or
      the commit for one of them throws, which ends the purge there. */
  function Reached(failAt: Option<nat>): (n: nat)
    ensures n <= |OldCollections|
    ensures failAt.None? ==> n == |OldCollections|
  {
    if failAt.Some? && failAt.value < |OldCollections| then failAt.value else |OldCollections|
  }

  /** The `forEach` that puts a delete of every document in the batch. */
  method BatchAll<T>(m: map<string, T>) returns (batch: set<string>)
    ensures batch == m.Keys
  {
    batch := {};
    var pending := m.Keys;
    while pending != {}
      invariant pending <= m.Keys && batch == m.Keys - pending
      decreases pending
    {
      var id :| id in pending;
      batch := batch + {id};
      pending := pending - {id};
    }
  }

  /** One collection: read it, delete every document in one batch, and
      commit when there was anything to delete. */
  method EmptyCollection(db: Database, c: OldCollection)
    modifies db
    ensures db.Contents() == Emptied(old(db.Contents()), c)
  {
    match c {
      case ElectionsCollection =>
        var batch := BatchAll(db.elections);
        if |batch| > 0 {
          db.elections := db.elections - batch;
        }
      case ElectionQuestionsCollection =>
        var batch := BatchAll(db.electionQuestions);
        if |batch| > 0 {
          db.electionQuestions := db.electionQuestions - batch;
        }
      case VotesCollection =>
        var batch := BatchAll(db.votes);
        if |batch| > 0 {
          db.votes := db.votes - batch;
        }
      case VoterCodesCollection =>
        var batch := BatchAll(db.voterCodes);
        if |batch| > 0 {
          db.voterCodes := db.voterCodes - batch;
        }
    }
  }

  /** `cleanupOldTestData`: the four collections in turn; a failure for
      collection `failAt` is caught and ends the purge with the earlier
      collections emptied and the later ones untouched. */
  method CleanupOldTestData(db: Database, failAt: Option<nat>)
    modifies db
    ensures db.Contents() == EmptiedFirst(old(db.Contents()), Reached(failAt))
  {
    var i := 0;
    while i < |OldCollections|
      invariant 0 <= i <= |OldCollections|
      invariant failAt.Some? ==> i <= failAt.value
      invariant db.Contents() == EmptiedFirst(old(db.Contents()), i)
    {
      if failAt == Some(i) {
        return;
      }
      EmptyCollection(db, OldCollections[i]);
      i := i + 1;
    }
  }

  /** The purge spares the events and their questions but, since the event
      flow writes its votes and voter codes to the same collections, a
      complete purge removes those as well. */
  lemma PurgeRemovesEventVotes(d: Db, k: string)
    requires k in d.votes && d.votes[k].eventId.Some?
    ensures k !in EmptiedFirst(d, Reached(None)).votes
    ensures EmptiedFirst(d, Reached(None)).events == d.events
  {
  }
}

/** Guard against time manipulation of events and questions: which status
    changes are allowed, the write-once status timestamps, which field
    updates are refused, and the client/server clock comparison.

    The clock read of the source (`new Date()`) is the parameter `now`. */
module TimeProtection {
  import opened Types

  // ---------------------------------------------------------------------
  // Status order

  /** `Array.prototype.indexOf`: the first position of `x` in `xs`, or -1. */
  function IndexOf<T(==)>(xs: seq<T>, x: T): (i: int)
    ensures -1 <= i < |xs|
    ensures 0 <= i ==> xs[i] == x && x !in xs[..i]
    ensures i == -1 <==> x !in xs
  {
    if xs == [] then -1
    else if xs[0] == x then 0
    else
      var j := IndexOf(xs[1..], x);
      if j == -1 then -1
      else
        assert xs[..j + 1] == [xs[0]] + xs[1..][..j];
        j + 1
  }

  /** Position of a status in draft -> active -> closed -> evaluated, -1 for
      any other string. */
  function StatusIndex(status: string): int {
    IndexOf(StatusFlow, status)
  }

  lemma StatusIndexValues()
    ensures StatusIndex(Draft) == 0 && StatusIndex(Active) == 1
    ensures StatusIndex(Closed) == 2 && StatusIndex(Evaluated) == 3
  {
    assert StatusFlow[0] == Draft;
    assert StatusFlow[1] == Active && StatusFlow[..1] == [Draft];
    assert StatusFlow[2] == Closed && StatusFlow[..2] == [Draft, Active];
    assert StatusFlow[3] == Evaluated && StatusFlow[..3] == [Draft, Active, Closed];
  }

  // ---------------------------------------------------------------------
  // canChangeStatus

  /** The write-once moments at which an entity was started, closed and
      evaluated. */
  datatype Timestamps = Timestamps(startedAt: Option<int>, closedAt: Option<int>, evaluatedAt: Option<int>)

  const NoTimestamps := Timestamps(None, None, None)

  /** The four refusals of `canChangeStatus`, in the order they are tested. */
  datatype Rejection =
    | BackwardChange     // "Status darf nicht rückwärts geändert werden"
    | RestartToDraft     // started entities cannot return to draft
    | ReopenClosed       // closed entities cannot become active again
    | EvaluatedIsFinal   // evaluated entities cannot change any more

  datatype Decision = Allowed | Refused(reason: Rejection)

  /** Whether `current` may change to `target`, given the timestamps the
      entity already carries. The checks run in order and the first that
      fires gives the reason. */
  function CanChangeStatus(current: string, target: string, stamps: Timestamps): (d: Decision)
    // 1. never backwards in the status order (an unknown target, -1, is
    //    behind every known current status)
    ensures d == Refused(BackwardChange) <==> StatusIndex(target) < StatusIndex(current)
    // 2.-4. the timestamp guards
    ensures d.Allowed? && stamps.startedAt.Some? ==> target != Draft
    ensures d.Allowed? && stamps.closedAt.Some? ==> target != Active
    ensures d.Allowed? && stamps.evaluatedAt.Some? ==> target == Evaluated
    // allowed exactly when none of the four checks fires
    ensures d.Refused? ==>
      StatusIndex(target) < StatusIndex(current)
      || (stamps.startedAt.Some? && target == Draft)
      || (stamps.closedAt.Some? && target == Active)
      || (stamps.evaluatedAt.Some? && target != Evaluated)
    // without timestamps, same-status and forward changes (skips included)
    // are allowed and backward ones refused
    ensures stamps == NoTimestamps ==> (d.Allowed? <==> StatusIndex(current) <= StatusIndex(target))
  {
    if StatusIndex(target) < StatusIndex(current) then Refused(BackwardChange)
    else if stamps.startedAt.Some? && target == Draft then Refused(RestartToDraft)
    else if stamps.closedAt.Some? && target == Active then Refused(ReopenClosed)
    else if stamps.evaluatedAt.Some? && target != Evaluated then Refused(EvaluatedIsFinal)
    else Allowed
  }

  // ---------------------------------------------------------------------
  // createStatusTimestamps

  /** The timestamps after a change to `newStatus`: the one belonging to the
      new status is set to `now` if it was absent; nothing else changes. */
  function CreateStatusTimestamps(newStatus: string, existing: Timestamps, now: int): (r: Timestamps)
    // existing timestamps are never overwritten
    ensures existing.startedAt.Some? ==> r.startedAt == existing.startedAt
    ensures existing.closedAt.Some? ==> r.closedAt == existing.closedAt
    ensures existing.evaluatedAt.Some? ==> r.evaluatedAt == existing.evaluatedAt
    // only the timestamp of the new status may be set, and only to now
    ensures newStatus != Active ==> r.startedAt == existing.startedAt
    ensures newStatus != Closed ==> r.closedAt == existing.closedAt
    ensures newStatus != Evaluated ==> r.evaluatedAt == existing.evaluatedAt
    ensures r.startedAt != existing.startedAt ==> r.startedAt == Some(now)
    ensures r.closedAt != existing.closedAt ==> r.closedAt == Some(now)
    ensures r.evaluatedAt != existing.evaluatedAt ==> r.evaluatedAt == Some(now)
    // the new status always ends up with its timestamp
    ensures newStatus == Active ==> r.startedAt.Some?
    ensures newStatus == Closed ==> r.closedAt.Some?
    ensures newStatus == Evaluated ==> r.evaluatedAt.Some?
  {
    if newStatus == Active then
      if existing.startedAt.None? then existing.(startedAt := Some(now)) else existing
    else if newStatus == Closed then
      if existing.closedAt.None? then existing.(closedAt := Some(now)) else existing
    else if newStatus == Evaluated then
      if existing.evaluatedAt.None? then existing.(evaluatedAt := Some(now)) else existing
    else existing
  }

  /** Draft or an unknown status leaves the timestamps as they are. */
  lemma StampsUnchangedOutsideFlow(newStatus: string, existing: Timestamps, now: int)
    requires newStatus == Draft || newStatus !in StatusFlow
    ensures CreateStatusTimestamps(newStatus, existing, now) == existing
  {
  }

  /** Applying `createStatusTimestamps` twice equals applying it once, even
      with a later clock. */
  lemma StampsIdempotent(newStatus: string, existing: Timestamps, now: int, later: int)
    ensures var once := CreateStatusTimestamps(newStatus, existing, now);
            CreateStatusTimestamps(newStatus, once, later) == once
  {
  }

  // ---------------------------------------------------------------------
  // validateEventChange / validateQuestionChange

  /** The refusals of the two update validators. */
  datatype ChangeRejection =
    | Backdated                     // the new start date is before the old one
    | LockedWhileActive(field: EventField)
    | EventFrozen                   // closed/evaluated events
    | QuestionStarted               // active or started questions
    | QuestionClosed                // closed questions
    | QuestionEvaluated             // evaluated questions

  datatype Validity = Valid | Invalid(reason: ChangeRejection)

  /** The fields an active event may not change, in the order they are
      tested. */
  const RestrictedWhileActive: seq<EventField> := [StartDateKey, StartTimeKey, MaxVotersKey]

  /** The first of `fields` the patch carries. */
  function FirstPresent(fields: seq<EventField>, keys: set<EventField>): (r: Option<EventField>)
    ensures r.None? <==> forall f :: f in fields ==> f !in keys
    ensures r.Some? ==> r.value in fields && r.value in keys
  {
    if fields == [] then None
    else if fields[0] in keys then Some(fields[0])
    else FirstPresent(fields[1..], keys)
  }

  predicate Backdates(original: Event, patch: EventPatch) {
    patch.startDate.Some? && patch.startDate.value < original.startDate
  }

  /** Whether an update of an event is refused as time manipulation. */
  function ValidateEventChange(original: Event, patch: EventPatch): (v: Validity)
    // the start date may not move into the past
    ensures Backdates(original, patch) ==> v == Invalid(Backdated)
    // an active event keeps its start date, start time and capacity
    ensures v.Valid? && original.status == Active ==>
      patch.startDate.None? && patch.startTime.None? && patch.maxVoters.None?
    // a closed or evaluated event accepts a status change only
    ensures v.Valid? && IsTerminal(original.status) ==> EventPatchKeys(patch) <= {StatusKey}
    // nothing else is refused: a draft event is checked for backdating only
    ensures v.Invalid? ==>
      Backdates(original, patch)
      || (original.status == Active && (patch.startDate.Some? || patch.startTime.Some? || patch.maxVoters.Some?))
      || (IsTerminal(original.status) && !(EventPatchKeys(patch) <= {StatusKey}))
  {
    if Backdates(original, patch) then Invalid(Backdated)
    else
      var locked := FirstPresent(RestrictedWhileActive, EventPatchKeys(patch));
      if original.status == Active && locked.Some? then Invalid(LockedWhileActive(locked.value))
      else if IsTerminal(original.status) && EventPatchKeys(patch) - {StatusKey} != {} then Invalid(EventFrozen)
      else Valid
  }

  /** Whether an update of a question is refused as time manipulation. */
  function ValidateQuestionChange(original: EventQuestion, patch: QuestionPatch): (v: Validity)
    // an evaluated question refuses every update, the empty one included
    ensures original.status == Evaluated || original.evaluatedAt.Some? ==> v.Invalid?
    // a started or closed question accepts a status change only
    ensures ((original.status == Active || original.startedAt.Some?
              || original.status == Closed || original.closedAt.Some?)
             && !(QuestionPatchKeys(patch) <= {QuestionStatusKey})) ==> v.Invalid?
    // nothing else is refused
    ensures v.Invalid? ==>
      original.status == Evaluated || original.evaluatedAt.Some?
      || ((original.status == Active || original.startedAt.Some?
           || original.status == Closed || original.closedAt.Some?)
          && !(QuestionPatchKeys(patch) <= {QuestionStatusKey}))
  {
    var extraKeys := QuestionPatchKeys(patch) - {QuestionStatusKey} != {};
    if (original.status == Active || original.startedAt.Some?) && extraKeys then Invalid(QuestionStarted)
    else if (original.status == Closed || original.closedAt.Some?) && extraKeys then Invalid(QuestionClosed)
    else if original.status == Evaluated || original.evaluatedAt.Some? then Invalid(QuestionEvaluated)
    else Valid
  }

  /** A draft question that was never started, closed or evaluated accepts
      any update. */
  lemma FreshDraftQuestionAcceptsAll(original: EventQuestion, patch: QuestionPatch)
    requires original.status == Draft
    requires original.startedAt.None? && original.closedAt.None? && original.evaluatedAt.None?
    ensures ValidateQuestionChange(original, patch) == Valid
  {
  }

  // ---------------------------------------------------------------------
  // detectTimeAnomalies

  const MinuteMs := 60_000
  const DefaultMaxDeviationMinutes := 5

  function Abs(x: int): nat {
    if x < 0 then -x else x
  }

  /** `deviation` is in minutes, as a real: the source divides
      milliseconds by 60000. */
  datatype AnomalyReport = AnomalyReport(suspicious: bool, deviation: real)

  /** Compares a client-supplied time with the server's. */
  function DetectTimeAnomalies(clientTime: int, serverTime: int, maxDeviationMinutes: int): (r: AnomalyReport)
    ensures r.deviation >= 0.0
    ensures r.deviation * 60000.0 == Abs(clientTime - serverTime) as real
    // suspicious exactly when the clocks differ by strictly more than the
    // threshold, restated on integer milliseconds
    ensures r.suspicious <==> Abs(clientTime - serverTime) > maxDeviationMinutes * MinuteMs
  {
    var deviation := Abs(clientTime - serverTime) as real / (1000.0 * 60.0);
    AnomalyReport(deviation > maxDeviationMinutes as real, deviation)
  }

  /** A call that leaves out `maxDeviationMinutes` uses five minutes:
      clocks more than 300 000 ms apart are suspicious. */
  function DetectTimeAnomaliesByDefault(clientTime: int, serverTime: int): (r: AnomalyReport)
    ensures r.suspicious <==> Abs(clientTime - serverTime) > 300_000
  {
    DetectTimeAnomalies(clientTime, serverTime, DefaultMaxDeviationMinutes)
  }

  /** The report does not depend on which time is the client's. */
  lemma AnomalySymmetric(a: int, b: int, maxDeviationMinutes: int)
    ensures DetectTimeAnomalies(a, b, maxDeviationMinutes) == DetectTimeAnomalies(b, a, maxDeviationMinutes)
  {
  }

  // ---------------------------------------------------------------------
  // safeStatusChange

  /** The timestamps an entity carries: events have none. */
  function EntityStamps(entity: Entity): (s: Timestamps)
    ensures entity.EventEntity? ==> s == NoTimestamps
  {
    match entity
    case EventEntity(_) => NoTimestamps
    case QuestionEntity(q) => Timestamps(q.startedAt, q.closedAt, q.evaluatedAt)
  }

  /** The fields to write on a successful change (the audit log is not
      modelled). */
  datatype UpdatedData = UpdatedData(status: string, stamps: Timestamps, updatedAt: int)

  datatype ChangeResult = ChangeRefused(reason: Rejection) | ChangeApplied(updatedData: UpdatedData)

  /** Checks a status change and, when allowed, produces the data to write. */
  function SafeStatusChange(entity: Entity, newStatus: string, now: int): (r: ChangeResult)
    ensures r.ChangeRefused? <==> CanChangeStatus(entity.Status(), newStatus, EntityStamps(entity)).Refused?
    ensures r.ChangeRefused? ==> r.reason == CanChangeStatus(entity.Status(), newStatus, EntityStamps(entity)).reason
    ensures r.ChangeApplied? ==>
      && r.updatedData.status == newStatus
      && r.updatedData.stamps == CreateStatusTimestamps(newStatus, EntityStamps(entity), now)
      && r.updatedData.updatedAt == now
  {
    var stamps := EntityStamps(entity);
    match CanChangeStatus(entity.Status(), newStatus, stamps)
    case Refused(reason) => ChangeRefused(reason)
    case Allowed =>
      ChangeApplied(UpdatedData(newStatus, CreateStatusTimestamps(newStatus, stamps, now), now))
  }

  // ---------------------------------------------------------------------
  // Runs of status changes on one question

  /** A requested status change and the clock at the moment of the request. */
  datatype StatusRequest = StatusRequest(target: string, now: int)

  /** The question after the caller writes the result of one
      `safeStatusChange` back (a refusal writes nothing). */
  function ApplyRequest(q: EventQuestion, req: StatusRequest): EventQuestion {
    match SafeStatusChange(QuestionEntity(q), req.target, req.now)
    case ChangeRefused(_) => q
    case ChangeApplied(u) =>
      q.(status := u.status, startedAt := u.stamps.startedAt, closedAt := u.stamps.closedAt,
         evaluatedAt := u.stamps.evaluatedAt, updatedAt := u.updatedAt)
  }

  function Run(q: EventQuestion, reqs: seq<StatusRequest>): EventQuestion
    decreases |reqs|
  {
    if reqs == [] then q else Run(ApplyRequest(q, reqs[0]), reqs[1..])
  }

  /** Along any run of guarded changes, a known status only moves forward
      and a timestamp, once written, is never changed. */
  lemma {:induction false} RunIsMonotone(q: EventQuestion, reqs: seq<StatusRequest>)
    requires q.status in StatusFlow
    ensures Run(q, reqs).status in StatusFlow
    ensures StatusIndex(q.status) <= StatusIndex(Run(q, reqs).status)
    ensures q.startedAt.Some? ==> Run(q, reqs).startedAt == q.startedAt
    ensures q.closedAt.Some? ==> Run(q, reqs).closedAt == q.closedAt
    ensures q.evaluatedAt.Some? ==> Run(q, reqs).evaluatedAt == q.evaluatedAt
    decreases |reqs|
  {
    if reqs != [] {
      var next := ApplyRequest(q, reqs[0]);
      assert next.status in StatusFlow && StatusIndex(q.status) <= StatusIndex(next.status);
      RunIsMonotone(next, reqs[1..]);
    }
  }

  /** Once evaluated, a question can at most be re-marked evaluated: no run
      leads to any other status. */
  lemma {:induction false} EvaluationIsFinal(q: EventQuestion, reqs: seq<StatusRequest>)
    requires q.evaluatedAt.Some?
    ensures Run(q, reqs).status == q.status || Run(q, reqs).status == Evaluated
    ensures Run(q, reqs).evaluatedAt == q.evaluatedAt
    decreases |reqs|
  {
    if reqs != [] {
      var next := ApplyRequest(q, reqs[0]);
      EvaluationIsFinal(next, reqs[1..]);
    }
  }

  /** A successful change to a status in the flow leaves the question with
      that status and its timestamp set. */
  lemma AppliedChangeIsStamped(q: EventQuestion, req: StatusRequest)
    requires SafeStatusChange(QuestionEntity(q), req.target, req.now).ChangeApplied?
    ensures ApplyRequest(q, req).status == req.target
    ensures req.target == Active ==> ApplyRequest(q, req).startedAt.Some?
    ensures req.target == Closed ==> ApplyRequest(q, req).closedAt.Some?
    ensures req.target == Evaluated ==> ApplyRequest(q, req).evaluatedAt.Some?
  {
  }
}

/** Records of the voting application's document store, as the lifecycle
    core reads and writes them.

    Times are integer milliseconds since the epoch. A field the source
    declares optional (or reads with `?.`) is an `Option`. Statuses stay
    strings, because the source compares raw strings and a stored document
    may carry any value. */
module Types {

  datatype Option<+T> = None | Some(value: T)

  // ---------------------------------------------------------------------
  // Lifecycle statuses

  const Draft: string := "draft"
  const Active: string := "active"
  const Closed: string := "closed"
  const Evaluated: string := "evaluated"

  /** The fixed status order draft -> active -> closed -> evaluated. */
  const StatusFlow: seq<string> := [Draft, Active, Closed, Evaluated]

  /** closed and evaluated are the statuses the retention cleanup acts on. */
  predicate IsTerminal(status: string) {
    status == Closed || status == Evaluated
  }

  // ---------------------------------------------------------------------
  // Events ("Veranstaltungen") and their questions ("Wahlfragen")

  datatype Event = Event(
    associationId: string,
    title: string,
    description: string,
    startDate: int,
    endDate: Option<int>,
    startTime: string,
    endTime: Option<string>,
    maxVoters: int,
    invitationText: string,
    showLinkWithCode: bool,
    status: string,
    createdAt: int,
    updatedAt: int)

  /** The keys a `Partial<Event>` may carry. */
  datatype EventField =
    | AssociationIdKey | TitleKey | DescriptionKey | StartDateKey | EndDateKey
    | StartTimeKey | EndTimeKey | MaxVotersKey | InvitationTextKey
    | ShowLinkWithCodeKey | StatusKey | CreatedAtKey | UpdatedAtKey

  /** `Partial<Event>`: every field may be absent. */
  datatype EventPatch = EventPatch(
    associationId: Option<string>,
    title: Option<string>,
    description: Option<string>,
    startDate: Option<int>,
    endDate: Option<int>,
    startTime: Option<string>,
    endTime: Option<string>,
    maxVoters: Option<int>,
    invitationText: Option<string>,
    showLinkWithCode: Option<bool>,
    status: Option<string>,
    createdAt: Option<int>,
    updatedAt: Option<int>)

  const EmptyEventPatch := EventPatch(None, None, None, None, None, None, None, None, None, None, None, None, None)

  /** The keys `Object.entries` lists for a patch: the fields it carries. */
  function EventPatchKeys(p: EventPatch): (keys: set<EventField>)
  {
    (if p.associationId.Some? then {AssociationIdKey} else {})
    + (if p.title.Some? then {TitleKey} else {})
    + (if p.description.Some? then {DescriptionKey} else {})
    + (if p.startDate.Some? then {StartDateKey} else {})
    + (if p.endDate.Some? then {EndDateKey} else {})
    + (if p.startTime.Some? then {StartTimeKey} else {})
    + (if p.endTime.Some? then {EndTimeKey} else {})
    + (if p.maxVoters.Some? then {MaxVotersKey} else {})
    + (if p.invitationText.Some? then {InvitationTextKey} else {})
    + (if p.showLinkWithCode.Some? then {ShowLinkWithCodeKey} else {})
    + (if p.status.Some? then {StatusKey} else {})
    + (if p.createdAt.Some? then {CreatedAtKey} else {})
    + (if p.updatedAt.Some? then {UpdatedAtKey} else {})
  }

  /** An answer option of a question (the `ElectionOption` shape). */
  datatype AnswerOption = AnswerOption(id: string, text: string, order: int)

  datatype EventQuestion = EventQuestion(
    eventId: string,
    question: string,
    options: seq<AnswerOption>,
    allowInvalidVotes: bool,
    status: string,
    order: int,
    startedAt: Option<int>,
    closedAt: Option<int>,
    evaluatedAt: Option<int>,
    createdAt: int,
    updatedAt: int)

  /** The keys a `Partial<EventQuestion>` may carry. */
  datatype QuestionField =
    | EventIdKey | QuestionTextKey | OptionsKey | AllowInvalidVotesKey | QuestionStatusKey
    | OrderKey | StartedAtKey | ClosedAtKey | EvaluatedAtKey | QuestionCreatedAtKey
    | QuestionUpdatedAtKey

  /** `Partial<EventQuestion>`. */
  datatype QuestionPatch = QuestionPatch(
    eventId: Option<string>,
    question: Option<string>,
    options: Option<seq<AnswerOption>>,
    allowInvalidVotes: Option<bool>,
    status: Option<string>,
    order: Option<int>,
    startedAt: Option<int>,
    closedAt: Option<int>,
    evaluatedAt: Option<int>,
    createdAt: Option<int>,
    updatedAt: Option<int>)

  const EmptyQuestionPatch := QuestionPatch(None, None, None, None, None, None, None, None, None, None, None)

  function QuestionPatchKeys(p: QuestionPatch): (keys: set<QuestionField>)
  {
    (if p.eventId.Some? then {EventIdKey} else {})
    + (if p.question.Some? then {QuestionTextKey} else {})
    + (if p.options.Some? then {OptionsKey} else {})
    + (if p.allowInvalidVotes.Some? then {AllowInvalidVotesKey} else {})
    + (if p.status.Some? then {QuestionStatusKey} else {})
    + (if p.order.Some? then {OrderKey} else {})
    + (if p.startedAt.Some? then {StartedAtKey} else {})
    + (if p.closedAt.Some? then {ClosedAtKey} else {})
    + (if p.evaluatedAt.Some? then {EvaluatedAtKey} else {})
    + (if p.createdAt.Some? then {QuestionCreatedAtKey} else {})
    + (if p.updatedAt.Some? then {QuestionUpdatedAtKey} else {})
  }

  /** `Event | EventQuestion`, for the helpers that accept either record. */
  datatype Entity = EventEntity(event: Event) | QuestionEntity(question: EventQuestion) {
    function Status(): string {
      if EventEntity? then event.status else question.status
    }
    function UpdatedAt(): int {
      if EventEntity? then event.updatedAt else question.updatedAt
    }
  }

  // ---------------------------------------------------------------------
  // Single-question elections, voter codes and votes

  /** A document of the `elections` collection, with the fields the voting
      page reads. */
  datatype Election = Election(
    associationId: string,
    title: string,
    status: string,
    allowInvalidVotes: bool,
    options: seq<AnswerOption>,
    maxVoters: int)

  /** A document of the `electionQuestions` collection. */
  datatype ElectionQuestion = ElectionQuestion(
    electionId: string,
    question: string,
    options: seq<AnswerOption>,
    allowInvalidVotes: bool,
    isActive: bool,
    order: int)

  /** A document of the `votes` collection. Both flows write here: event
      votes carry `eventId`/`questionId`, the voting page writes
      `electionId` only. There is deliberately no field that could hold a
      voter code or its document id. */
  datatype VoteDoc = VoteDoc(
    eventId: Option<string>,
    questionId: Option<string>,
    electionId: Option<string>,
    optionId: Option<string>,
    isInvalid: bool,
    votedAt: int)

  /** A document of the `voterCodes` collection. An absent `hasVoted`
      reads as false. */
  datatype CodeDoc = CodeDoc(
    code: string,
    eventId: Option<string>,
    electionId: Option<string>,
    hasVoted: bool,
    votedAt: Option<int>,
    createdAt: int)

  // ---------------------------------------------------------------------
  // JavaScript truthiness of the `x || default` idiom

  /** `s || d` for a possibly absent string: "" is falsy. */
  function OrString(s: Option<string>, d: string): string {
    if s.Some? && s.value != "" then s.value else d
  }

  /** `n || d` for a possibly absent number: 0 is falsy. */
  function OrNumber(n: Option<int>, d: int): int {
    if n.Some? && n.value != 0 then n.value else d
  }

  /** `b || false` for a possibly absent boolean. */
  function OrFalse(b: Option<bool>): bool {
    b.Some? && b.value
  }

  // ---------------------------------------------------------------------
  // String normalisation used on typed voter codes

  /** `toUpperCase` on the ASCII letters; every other character is kept. */
  function UpperChar(c: char): (u: char)
    ensures 'a' <= c <= 'z' ==> 'A' <= u <= 'Z' && u as int == c as int - 32
    ensures !('a' <= c <= 'z') ==> u == c
  {
    if 'a' <= c <= 'z' then (c as int - 32) as char else c
  }

  function ToUpper(s: string): (r: string)
    ensures |r| == |s|
    ensures forall i :: 0 <= i < |s| ==> r[i] == UpperChar(s[i])
  {
    seq(|s|, i requires 0 <= i < |s| => UpperChar(s[i]))
  }

  /** The characters `String.prototype.trim` removes: ECMAScript's
      WhiteSpace (tab, vertical tab, form feed, the byte-order mark and the
      space separators of Unicode category Zs) and LineTerminator. */
  predicate IsSpace(c: char) {
    || c == '\t' || c == '\U{B}' || c == '\U{C}' || c == '\U{FEFF}'
    || c == ' ' || c == '\U{A0}' || c == '\U{1680}' || '\U{2000}' <= c <= '\U{200A}'
    || c == '\U{202F}' || c == '\U{205F}' || c == '\U{3000}'
    || c == '\n' || c == '\r' || c == '\U{2028}' || c == '\U{2029}'
  }

  function TrimStart(s: string): (r: string)
    ensures |r| <= |s| && r == s[|s| - |r|..]
    ensures r == [] || !IsSpace(r[0])
    ensures forall i :: 0 <= i < |s| - |r| ==> IsSpace(s[i])
  {
    if s != [] && IsSpace(s[0]) then TrimStart(s[1..]) else s
  }

  function TrimEnd(s: string): (r: string)
    ensures |r| <= |s| && r == s[..|r|]
    ensures r == [] || !IsSpace(r[|r| - 1])
    ensures forall i :: |r| <= i < |s| ==> IsSpace(s[i])
  {
    if s != [] && IsSpace(s[|s| - 1]) then TrimEnd(s[..|s| - 1]) else s
  }

  /** `String.prototype.trim`: the slice of `s` left after dropping
      white space at both ends. */
  function Trim(s: string): (r: string)
    ensures |r| <= |s|
    ensures r == [] || (!IsSpace(r[0]) && !IsSpace(r[|r| - 1]))
    ensures (forall i :: 0 <= i < |s| ==> !IsSpace(s[i])) ==> r == s
  {
    TrimEnd(TrimStart(s))
  }

  /** What `Trim` leaves is a slice of its argument. */
  lemma TrimIsSlice(s: string)
    ensures var k := |s| - |TrimStart(s)|;
      k + |Trim(s)| <= |s| && Trim(s) == s[k..k + |Trim(s)|]
  {
  }
}

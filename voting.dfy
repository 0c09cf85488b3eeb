/** The public voting page of a single-question election: a voter types a
    four-character code, the page checks it against the `voterCodes` and
    `elections` collections, shows the ballot, and records the vote with
    two separate writes (a new `votes` document, then the code marked as
    used).

    The page's React state is the class `VotingPage`; each handler is a
    method that updates its fields and the shared `Database`, proved equal
    to a pure transition on `PageState`/`Db` below. Network failures of the
    individual reads and writes are fault flags; the clock is `now`; the id
    `addDoc` generates is `freshId`. */
module Voting {
  import opened Types
  import opened Store
  import DataCleanup

  // ---------------------------------------------------------------------
  // Page state

  /** The four screens: code entry, ballot, thank-you and error. */
  datatype Step = CodeStep | VotingStep | DoneStep | ErrorStep

  /** The error texts the verification can show, one constructor each. */
  datatype ErrorMessage =
    | UnknownCode          // the code matches no voter code document
    | CodeAlreadyUsed      // the code has been used to vote already
    | ElectionMissing      // the code's election document is gone
    | ElectionNotStarted   // the election is still a draft
    | ElectionEnded        // the election is closed or evaluated
    | ElectionNotActive    // any other status
    | UnexpectedFailure    // a read threw

  /** The transient notifications (`toast`) the handlers raise. */
  datatype Toast = InvalidCodeToast | SelectionRequiredToast | SubmitFailedToast

  /** The part of a voter code document the page keeps once it is accepted. */
  datatype VoterCodeView = VoterCodeView(id: string, electionId: string, code: string, hasVoted: bool)

  /** The part of an election document the page keeps and shows. */
  datatype ElectionView = ElectionView(id: string, status: string, allowInvalidVotes: bool, options: seq<AnswerOption>)

  /** The eight state variables of the page; the empty error text is `None`. */
  datatype PageState = PageState(
    step: Step,
    inputCode: string,
    loading: bool,
    voterCode: Option<VoterCodeView>,
    election: Option<ElectionView>,
    selectedOption: Option<string>,
    showInvalidWarning: bool,
    errorMessage: Option<ErrorMessage>)

  const InitialPage := PageState(CodeStep, "", false, None, None, None, false, None)

  /** A code and its election have been accepted (`voterCode && election`). */
  predicate HasSession(st: PageState) {
    st.voterCode.Some? && st.election.Some?
  }

  /** A truthy `selectedOption`: present and not the empty string. */
  predicate Selected(option: Option<string>) {
    option.Some? && option.value != ""
  }

  /** What every state the handlers can reach satisfies: the ballot screen
      only with an accepted code, the code and the election loaded together
      and belonging to each other, and the blank-ballot dialog only for an
      election that allows invalid votes. */
  predicate WellFormed(st: PageState) {
    && (st.voterCode.Some? <==> st.election.Some?)
    && (HasSession(st) ==> st.voterCode.value.electionId == st.election.value.id)
    && (st.step == VotingStep ==> HasSession(st))
    && (st.showInvalidWarning ==> HasSession(st) && st.election.value.allowInvalidVotes)
  }

  // ---------------------------------------------------------------------
  // Code verification

  /** The code as the verification reads it: upper-cased, then trimmed. */
  function NormalizeCode(raw: string): (code: string)
    ensures |code| <= |raw|
    ensures code == [] || (!IsSpace(code[0]) && !IsSpace(code[|code| - 1]))
  {
    Trim(ToUpper(raw))
  }

  /** A normalised code holds no lower-case letter. */
  lemma NormalizedIsUpperCase(raw: string, i: int)
    requires 0 <= i < |NormalizeCode(raw)|
    ensures !('a' <= NormalizeCode(raw)[i] <= 'z')
  {
    var upper := ToUpper(raw);
    var k := |upper| - |TrimStart(upper)|;
    TrimIsSlice(upper);
    assert NormalizeCode(raw)[i] == upper[k + i] == UpperChar(raw[k + i]);
  }

  /** Upper-casing neither creates nor removes white space. */
  lemma UpperKeepsSpace(c: char)
    ensures IsSpace(UpperChar(c)) <==> IsSpace(c)
  {
  }

  /** A code typed without white space is read exactly as upper-cased. */
  lemma NormalizeWithoutSpace(raw: string)
    requires forall i :: 0 <= i < |raw| ==> !IsSpace(raw[i])
    ensures NormalizeCode(raw) == ToUpper(raw)
  {
    var upper := ToUpper(raw);
    forall i | 0 <= i < |upper|
      ensures !IsSpace(upper[i])
    {
      UpperKeepsSpace(raw[i]);
    }
  }

  /** The code a verification reads: the argument when it is a non-empty
      string, otherwise the input field. */
  function EnteredCode(st: PageState, codeToVerify: Option<string>): string {
    NormalizeCode(OrString(codeToVerify, st.inputCode))
  }

  /** The ids of the voter code documents whose `code` equals `code`. */
  function MatchingCodes(d: Db, code: string): set<string> {
    set id | id in d.voterCodes && d.voterCodes[id].code == code
  }

  /** `querySnapshot.docs[0]`: nothing for an empty result, otherwise one of
      the matching documents (the store fixes no order among them). */
  predicate IsFirstMatch(d: Db, code: string, first: Option<string>) {
    match first
    case None => MatchingCodes(d, code) == {}
    case Some(id) => id in MatchingCodes(d, code)
  }

  /** Which of the two reads of a verification throws. */
  datatype ReadFaults = ReadFaults(codesReadFails: bool, electionReadFails: bool)

  const NoReadFaults := ReadFaults(false, false)

  datatype Lookup = Rejected(message: ErrorMessage) | Admitted(voterCode: VoterCodeView, election: ElectionView)

  /** The message for an election that exists but is not active. */
  function InactiveMessage(status: string): (m: ErrorMessage)
    requires status != Active
    ensures m == ElectionNotStarted <==> status == Draft
    ensures m == ElectionEnded <==> IsTerminal(status)
    ensures m == ElectionNotActive <==> status !in StatusFlow
  {
    if status == Draft then ElectionNotStarted
    else if status == Closed || status == Evaluated then ElectionEnded
    else ElectionNotActive
  }

  /** The code document passes every check up to the election's status: it
      is unused, names an election, and that election can be read and
      exists. */
  predicate ReachesStatusCheck(d: Db, id: string, faults: ReadFaults)
    requires id in d.voterCodes
  {
    var c := d.voterCodes[id];
    && !c.hasVoted
    && c.electionId.Some?
    && !faults.electionReadFails
    && c.electionId.value in d.elections
  }

  /** The document `id` opens the ballot. */
  predicate Admits(d: Db, id: string, faults: ReadFaults)
    requires id in d.voterCodes
  {
    ReachesStatusCheck(d, id, faults) && d.elections[d.voterCodes[id].electionId.value].status == Active
  }

  /** The checks of the verification after the format test, in the order the
      page runs them: the code query, the used flag, the election read, the
      election's existence and its status. A code document without an
      election id makes the election lookup throw. */
  function LookUpCode(d: Db, code: string, first: Option<string>, faults: ReadFaults): Lookup
    requires IsFirstMatch(d, code, first)
  {
    if faults.codesReadFails then Rejected(UnexpectedFailure)
    else if first.None? then Rejected(UnknownCode)
    else
      var c := d.voterCodes[first.value];
      if c.hasVoted then Rejected(CodeAlreadyUsed)
      else if c.electionId.None? || faults.electionReadFails then Rejected(UnexpectedFailure)
      else if c.electionId.value !in d.elections then Rejected(ElectionMissing)
      else
        var e := d.elections[c.electionId.value];
        if e.status != Active then Rejected(InactiveMessage(e.status))
        else
          Admitted(VoterCodeView(first.value, c.electionId.value, c.code, c.hasVoted),
                   ElectionView(c.electionId.value, e.status, e.allowInvalidVotes, e.options))
  }

  /** The verdict of the lookup check by check: a failed code read, an empty
      result, a used code, a missing election and each non-active status
      give their own message, and the ballot opens exactly for an unused
      code whose election exists and is active; the accepted code and
      election are then the ones in the store. */
  lemma LookUpCodeOutcome(d: Db, code: string, first: Option<string>, faults: ReadFaults)
    requires IsFirstMatch(d, code, first)
    ensures var r := LookUpCode(d, code, first, faults);
      && (faults.codesReadFails ==> r == Rejected(UnexpectedFailure))
      && (!faults.codesReadFails && first.None? ==> r == Rejected(UnknownCode))
      && (!faults.codesReadFails && first.Some? ==>
            (r == Rejected(CodeAlreadyUsed) <==> d.voterCodes[first.value].hasVoted))
      && (r.Admitted? <==> !faults.codesReadFails && first.Some? && Admits(d, first.value, faults))
    ensures !faults.codesReadFails && first.Some? && ReachesStatusCheck(d, first.value, faults) ==>
      var status := d.elections[d.voterCodes[first.value].electionId.value].status;
      status != Active ==> LookUpCode(d, code, first, faults) == Rejected(InactiveMessage(status))
    ensures !faults.codesReadFails && first.Some? && !d.voterCodes[first.value].hasVoted ==>
      var c := d.voterCodes[first.value];
      var r := LookUpCode(d, code, first, faults);
      && (r == Rejected(UnexpectedFailure) <==> c.electionId.None? || faults.electionReadFails)
      && (c.electionId.Some? && !faults.electionReadFails ==>
            (r == Rejected(ElectionMissing) <==> c.electionId.value !in d.elections))
    ensures !faults.codesReadFails && first.Some? && LookUpCode(d, code, first, faults) == Rejected(ElectionMissing) ==>
      d.voterCodes[first.value].electionId.Some? && d.voterCodes[first.value].electionId.value !in d.elections
    ensures var r := LookUpCode(d, code, first, faults);
      r.Admitted? ==>
      && r.voterCode.id == first.value
      && r.voterCode.code == code
      && !r.voterCode.hasVoted
      && r.election.id == r.voterCode.electionId
      && r.election.id in d.elections
      && r.election.status == Active
      && r.election.allowInvalidVotes == d.elections[r.election.id].allowInvalidVotes
  {
  }

  /** The page after a handler, and the notification it raised. */
  datatype Reaction = Reaction(page: PageState, toast: Option<Toast>)

  /** `handleVerifyCode` for the code it has read: a code that is not four
      characters long raises a notification and changes nothing; otherwise
      the lookup decides between the ballot and the error screen. */
  function VerifyCode(st: PageState, d: Db, code: string, first: Option<string>, faults: ReadFaults): Reaction
    requires IsFirstMatch(d, code, first)
  {
    if |code| != 4 then Reaction(st, Some(InvalidCodeToast))
    else Reaction(AfterLookup(st, LookUpCode(d, code, first, faults)), None)
  }

  /** The page once the lookup has answered: the error screen with its
      message, or the ballot for the accepted code; the spinner is off. */
  function AfterLookup(st: PageState, l: Lookup): PageState {
    match l
    case Rejected(m) => st.(step := ErrorStep, errorMessage := Some(m), loading := false)
    case Admitted(v, e) => st.(step := VotingStep, voterCode := Some(v), election := Some(e), loading := false)
  }

  /** What a verification does to the page: nothing but a notification for
      a malformed code; otherwise the ballot exactly when the lookup admits
      the code, the error screen with the lookup's message otherwise, the
      spinner off, and the field, the selection and the dialog untouched.
      It keeps the page well formed unless the blank-ballot dialog is open,
      which hides the code field. */
  lemma VerifyCodeOutcome(st: PageState, d: Db, code: string, first: Option<string>, faults: ReadFaults)
    requires IsFirstMatch(d, code, first)
    ensures var r := VerifyCode(st, d, code, first, faults);
      && r.toast == (if |code| != 4 then Some(InvalidCodeToast) else None)
      && (|code| != 4 ==> r.page == st)
      && (WellFormed(st) && !st.showInvalidWarning ==> WellFormed(r.page))
    ensures |code| == 4 ==>
      var r := VerifyCode(st, d, code, first, faults);
      var l := LookUpCode(d, code, first, faults);
      && !r.page.loading
      && (r.page.step == VotingStep <==> l.Admitted?)
      && (r.page.step == ErrorStep <==> l.Rejected?)
      && (l.Admitted? ==> r.page.voterCode == Some(l.voterCode) && r.page.election == Some(l.election))
      && (l.Rejected? ==> r.page.errorMessage == Some(l.message)
                          && r.page.voterCode == st.voterCode && r.page.election == st.election)
      && r.page.inputCode == st.inputCode
      && r.page.selectedOption == st.selectedOption
      && r.page.showInvalidWarning == st.showInvalidWarning
  {
    if |code| == 4 {
      LookUpCodeOutcome(d, code, first, faults);
    }
  }

  /** `handleKeyPress`: Enter verifies the field's content when it holds
      four characters; any other key press changes nothing. */
  function KeyPress(st: PageState, d: Db, key: string, first: Option<string>, faults: ReadFaults): Reaction
    requires IsFirstMatch(d, EnteredCode(st, None), first)
  {
    if key == "Enter" && |st.inputCode| == 4 then VerifyCode(st, d, EnteredCode(st, None), first, faults)
    else Reaction(st, None)
  }

  /** Upper-casing twice is upper-casing once. */
  lemma ToUpperIdempotent(text: string)
    ensures ToUpper(ToUpper(text)) == ToUpper(text)
  {
    forall i | 0 <= i < |text|
      ensures ToUpper(ToUpper(text))[i] == ToUpper(text)[i]
    {
      assert UpperChar(UpperChar(text[i])) == UpperChar(text[i]);
    }
  }

  /** The field upper-cases what is typed, and the verification upper-cases
      again: doing it twice reads the same code as doing it once. */
  lemma UppercaseInputIsStable(text: string)
    ensures NormalizeCode(ToUpper(text)) == NormalizeCode(text)
  {
    ToUpperIdempotent(text);
  }

  /** Four typed characters without white space reach the lookup when Enter
      is pressed: neither the key handler nor the format test stops them. */
  lemma TypedCodeReachesLookup(st: PageState, d: Db, text: string, first: Option<string>, faults: ReadFaults)
    requires |text| == 4 && forall i :: 0 <= i < |text| ==> !IsSpace(text[i])
    requires IsFirstMatch(d, EnteredCode(st.(inputCode := ToUpper(text)), None), first)
    ensures EnteredCode(st.(inputCode := ToUpper(text)), None) == ToUpper(text)
    ensures KeyPress(st.(inputCode := ToUpper(text)), d, "Enter", first, faults).toast.None?
  {
    var typed := ToUpper(text);
    assert OrString(None, typed) == typed;
    forall i | 0 <= i < |typed|
      ensures !IsSpace(typed[i])
    {
      UpperKeepsSpace(text[i]);
    }
    NormalizeWithoutSpace(typed);
    ToUpperIdempotent(text);
    VerifyCodeOutcome(st.(inputCode := typed), d, typed, first, faults);
  }

  /** "Enter another code" on the error screen: back to code entry with an
      empty field and no message; everything else is kept. */
  function ResetAfterError(st: PageState): (r: PageState)
    ensures r.step == CodeStep && r.inputCode == "" && r.errorMessage.None?
    ensures r.(step := st.step, inputCode := st.inputCode, errorMessage := st.errorMessage) == st
    ensures WellFormed(st) ==> WellFormed(r)
  {
    st.(step := CodeStep, inputCode := "", errorMessage := None)
  }

  // ---------------------------------------------------------------------
  // Vote submission

  /** Which of the two writes of a submission throws. */
  datatype WriteFaults = WriteFaults(insertFails: bool, updateFails: bool)

  const NoWriteFaults := WriteFaults(false, false)

  /** The page, the store and the notification after a handler that writes. */
  datatype Outcome = Outcome(page: PageState, db: Db, toast: Option<Toast>)

  /** The document the page adds to `votes`: the election, the option (none
      for an invalid vote), the flag and the time. The voter code is not an
      argument, so the document cannot depend on it. */
  function Ballot(electionId: string, selected: Option<string>, isInvalid: bool, now: int): VoteDoc {
    VoteDoc(None, None, Some(electionId), if isInvalid then None else selected, isInvalid, now)
  }

  function MarkUsed(c: CodeDoc, now: int): CodeDoc {
    c.(hasVoted := true, votedAt := Some(now))
  }

  /** Both writes of a submission go through: there is a session, neither
      write throws, and the code document still exists to be updated. */
  predicate Succeeds(st: PageState, d: Db, faults: WriteFaults) {
    HasSession(st) && !faults.insertFails && !faults.updateFails && st.voterCode.value.id in d.voterCodes
  }

  /** `submitVote`: without a session nothing happens. Otherwise the ballot
      is added unless the insert throws, then the code is marked unless the
      update throws; only when both succeed does the page show the thank-you
      screen. The election is not read again. */
  function Submit(st: PageState, d: Db, isInvalid: bool, freshId: string, now: int, faults: WriteFaults): (r: Outcome)
    ensures !HasSession(st) ==> r == Outcome(st, d, None)
    ensures r.db.events == d.events && r.db.eventQuestions == d.eventQuestions
    ensures r.db.elections == d.elections && r.db.electionQuestions == d.electionQuestions
    ensures HasSession(st) && !faults.insertFails ==>
      r.db.votes == d.votes[freshId := Ballot(st.election.value.id, st.selectedOption, isInvalid, now)]
    ensures !HasSession(st) || faults.insertFails ==> r.db.votes == d.votes
    ensures Succeeds(st, d, faults) ==>
      && r.page.step == DoneStep
      && r.toast.None?
      && r.db.voterCodes == d.voterCodes[st.voterCode.value.id := MarkUsed(d.voterCodes[st.voterCode.value.id], now)]
    ensures HasSession(st) && !Succeeds(st, d, faults) ==>
      r.page.step == st.step && r.toast == Some(SubmitFailedToast) && r.db.voterCodes == d.voterCodes
    ensures HasSession(st) ==>
      r.page == st.(step := r.page.step, loading := false, showInvalidWarning := false)
    ensures WellFormed(st) ==> WellFormed(r.page)
  {
    if !HasSession(st) then Outcome(st, d, None)
    else
      var settled := st.(loading := false, showInvalidWarning := false);
      if faults.insertFails then Outcome(settled, d, Some(SubmitFailedToast))
      else
        var ballot := Ballot(st.election.value.id, st.selectedOption, isInvalid, now);
        var d1 := d.(votes := d.votes[freshId := ballot]);
        var id := st.voterCode.value.id;
        if faults.updateFails || id !in d1.voterCodes then Outcome(settled, d1, Some(SubmitFailedToast))
        else
          var d2 := d1.(voterCodes := d1.voterCodes[id := MarkUsed(d1.voterCodes[id], now)]);
          Outcome(settled.(step := DoneStep), d2, None)
  }

  /** `handleSubmitVote`: with nothing selected it either refuses (invalid
      votes not allowed) or opens the blank-ballot dialog; with a selection
      it submits a valid vote. */
  function HandleSubmit(st: PageState, d: Db, freshId: string, now: int, faults: WriteFaults): (r: Outcome)
    ensures !HasSession(st) ==> r == Outcome(st, d, None)
    ensures HasSession(st) && !Selected(st.selectedOption) ==> r.db == d
    ensures HasSession(st) && !Selected(st.selectedOption) && !st.election.value.allowInvalidVotes ==>
      r == Outcome(st, d, Some(SelectionRequiredToast))
    ensures HasSession(st) && !Selected(st.selectedOption) && st.election.value.allowInvalidVotes ==>
      r == Outcome(st.(showInvalidWarning := true), d, None)
    ensures HasSession(st) && Selected(st.selectedOption) ==> r == Submit(st, d, false, freshId, now, faults)
    ensures WellFormed(st) ==> WellFormed(r.page)
  {
    if !HasSession(st) then Outcome(st, d, None)
    else if !Selected(st.selectedOption) && !st.election.value.allowInvalidVotes then
      Outcome(st, d, Some(SelectionRequiredToast))
    else if !Selected(st.selectedOption) then Outcome(st.(showInvalidWarning := true), d, None)
    else Submit(st, d, false, freshId, now, faults)
  }

  /** The blank-ballot dialog's confirmation: an invalid vote. */
  function ConfirmInvalid(st: PageState, d: Db, freshId: string, now: int, faults: WriteFaults): Outcome {
    Submit(st, d, true, freshId, now, faults)
  }

  // ---------------------------------------------------------------------
  // Properties of the submission

  /** A submission whose insert goes through adds exactly one vote and keeps
      every earlier one. */
  lemma SubmitAddsOneVote(st: PageState, d: Db, isInvalid: bool, freshId: string, now: int, faults: WriteFaults)
    requires HasSession(st) && !faults.insertFails && freshId !in d.votes
    ensures var r := Submit(st, d, isInvalid, freshId, now, faults);
      && r.db.votes.Keys == d.votes.Keys + {freshId}
      && |r.db.votes| == |d.votes| + 1
      && forall k :: k in d.votes ==> r.db.votes[k] == d.votes[k]
  {
    var r := Submit(st, d, isInvalid, freshId, now, faults);
    assert r.db.votes.Keys == d.votes.Keys + {freshId};
    assert |d.votes.Keys + {freshId}| == |d.votes.Keys| + 1;
  }

  /** The stored vote carries no trace of the code: two sessions for the
      same election and selection that differ only in their code leave the
      same votes behind. */
  lemma BallotIsAnonymous(st1: PageState, st2: PageState, d: Db, isInvalid: bool, freshId: string, now: int, faults: WriteFaults)
    requires HasSession(st1) && HasSession(st2)
    requires st1.election == st2.election && st1.selectedOption == st2.selectedOption
    ensures Submit(st1, d, isInvalid, freshId, now, faults).db.votes == Submit(st2, d, isInvalid, freshId, now, faults).db.votes
    ensures !faults.insertFails ==>
      var v := Submit(st1, d, isInvalid, freshId, now, faults).db.votes[freshId];
      v.eventId.None? && v.questionId.None? && v.electionId == Some(st1.election.value.id)
  {
  }

  /** The vote names the election of the code that cast it, and the code
      document marked is the one that was accepted. */
  lemma BallotBelongsToCode(st: PageState, d: Db, isInvalid: bool, freshId: string, now: int, faults: WriteFaults)
    requires WellFormed(st) && Succeeds(st, d, faults)
    ensures var r := Submit(st, d, isInvalid, freshId, now, faults);
      && r.db.votes[freshId].electionId == Some(st.voterCode.value.electionId)
      && r.db.voterCodes[st.voterCode.value.id].hasVoted
      && forall k :: k in d.voterCodes && k != st.voterCode.value.id ==> r.db.voterCodes[k] == d.voterCodes[k]
  {
  }

  /** With nothing selected the vote button writes nothing; the only way to
      an invalid vote is the dialog, which records no option. */
  lemma BlankBallotNeedsConfirmation(st: PageState, d: Db, freshId: string, now: int, faults: WriteFaults)
    requires WellFormed(st) && HasSession(st) && !Selected(st.selectedOption)
    ensures HandleSubmit(st, d, freshId, now, faults).db == d
    ensures st.election.value.allowInvalidVotes <==> HandleSubmit(st, d, freshId, now, faults).page.showInvalidWarning
    ensures !faults.insertFails ==>
      var v := ConfirmInvalid(st, d, freshId, now, faults).db.votes[freshId];
      v.optionId.None? && v.isInvalid
  {
  }

  /** Every vote the vote button adds is valid and names the selection. */
  lemma SubmittedVoteIsValid(st: PageState, d: Db, freshId: string, now: int, faults: WriteFaults)
    requires freshId !in d.votes
    ensures var r := HandleSubmit(st, d, freshId, now, faults);
      forall k :: k in r.db.votes && k !in d.votes ==>
        && Selected(st.selectedOption)
        && !r.db.votes[k].isInvalid
        && r.db.votes[k].optionId == st.selectedOption
  {
  }

  /** The election is not read again at submission: the same submission
      against a store whose elections differ (closed meanwhile, say) does
      the same writes. */
  lemma SubmitIgnoresElectionStatus(st: PageState, d: Db, e: map<string, Election>, isInvalid: bool, freshId: string, now: int, faults: WriteFaults)
    ensures var r := Submit(st, d, isInvalid, freshId, now, faults);
      var r' := Submit(st, d.(elections := e), isInvalid, freshId, now, faults);
      r'.page == r.page && r'.toast == r.toast && r'.db == r.db.(elections := e)
  {
  }

  /** After a successful vote, verifying the same code again fails with the
      used-code message (or the read failure), provided the code is unique
      among the voter code documents. */
  lemma {:induction false} NoSecondVoteWithSameCode(st: PageState, d: Db, isInvalid: bool, freshId: string, now: int,
                                                     faults: WriteFaults, first: Option<string>, readFaults: ReadFaults)
    requires Succeeds(st, d, faults)
    requires MatchingCodes(d, st.voterCode.value.code) == {st.voterCode.value.id}
    requires IsFirstMatch(Submit(st, d, isInvalid, freshId, now, faults).db, st.voterCode.value.code, first)
    ensures LookUpCode(Submit(st, d, isInvalid, freshId, now, faults).db, st.voterCode.value.code, first, readFaults)
            == Rejected(if readFaults.codesReadFails then UnexpectedFailure else CodeAlreadyUsed)
  {
    var r := Submit(st, d, isInvalid, freshId, now, faults);
    var id := st.voterCode.value.id;
    var code := st.voterCode.value.code;
    assert id in MatchingCodes(d, code);
    assert MatchingCodes(r.db, code) == {id} by {
      forall k | k in r.db.voterCodes
        ensures r.db.voterCodes[k].code == code <==> k == id
      {
        if k != id {
          assert k !in MatchingCodes(d, code);
        }
      }
    }
    if !readFaults.codesReadFails {
      assert first == Some(id);
      assert r.db.voterCodes[id].hasVoted;
    }
  }

  /** When the second write fails the vote stays recorded while the code
      stays unmarked and the page does not move on, so the same code still
      passes the verification. */
  lemma SecondWriteFailureKeepsVote(st: PageState, d: Db, isInvalid: bool, freshId: string, now: int,
                                    faults: WriteFaults, code: string, first: Option<string>, readFaults: ReadFaults)
    requires HasSession(st) && !faults.insertFails && !Succeeds(st, d, faults)
    requires IsFirstMatch(d, code, first)
    ensures var r := Submit(st, d, isInvalid, freshId, now, faults);
      && freshId in r.db.votes
      && r.db.voterCodes == d.voterCodes
      && r.page.step == st.step
      && r.toast == Some(SubmitFailedToast)
      && IsFirstMatch(r.db, code, first)
      && LookUpCode(r.db, code, first, readFaults) == LookUpCode(d, code, first, readFaults)
  {
    var r := Submit(st, d, isInvalid, freshId, now, faults);
    assert MatchingCodes(r.db, code) == MatchingCodes(d, code);
  }

  /** The vote the page records has no event, so the next cleanup pass
      removes it as an orphan, together with every voter code of the
      single-question elections. */
  lemma ElectionVotesDoNotSurviveCleanup(st: PageState, d: Db, isInvalid: bool, freshId: string, now: int,
                                          faults: WriteFaults, later: int)
    requires HasSession(st) && !faults.insertFails
    ensures freshId !in DataCleanup.CleanupPass(Submit(st, d, isInvalid, freshId, now, faults).db, later).votes
    ensures forall k :: k in d.voterCodes && d.voterCodes[k].eventId.None? ==>
      k !in DataCleanup.CleanupPass(Submit(st, d, isInvalid, freshId, now, faults).db, later).voterCodes
  {
    var r := Submit(st, d, isInvalid, freshId, now, faults);
    DataCleanup.ElectionVotesAreSwept(r.db, later, freshId);
    forall k | k in d.voterCodes && d.voterCodes[k].eventId.None?
      ensures k !in DataCleanup.CleanupPass(r.db, later).voterCodes
    {
      DataCleanup.ElectionCodesAreSwept(r.db, later, k);
    }
  }

  // ---------------------------------------------------------------------
  // The page

  class VotingPage {
    var step: Step
    var inputCode: string
    var loading: bool
    var voterCode: Option<VoterCodeView>
    var election: Option<ElectionView>
    var selectedOption: Option<string>
    var showInvalidWarning: bool
    var errorMessage: Option<ErrorMessage>

    function State(): PageState
      reads this
    {
      PageState(step, inputCode, loading, voterCode, election, selectedOption, showInvalidWarning, errorMessage)
    }

    predicate Valid()
      reads this
    {
      WellFormed(State())
    }

    constructor ()
      ensures State() == InitialPage && Valid()
    {
      step, inputCode, loading := CodeStep, "", false;
      voterCode, election := None, None;
      selectedOption, showInvalidWarning, errorMessage := None, false, None;
    }

    /** A `code` query parameter pre-fills the field, upper-cased. */
    method LoadCodeFromUrl(codeFromUrl: Option<string>)
      modifies this
      ensures State() == old(State()).(inputCode := if Selected(codeFromUrl) then ToUpper(codeFromUrl.value) else old(inputCode))
      ensures old(Valid()) ==> Valid()
    {
      if Selected(codeFromUrl) {
        inputCode := ToUpper(codeFromUrl.value);
      }
    }

    /** Typing in the field stores the upper-cased text. */
    method EnterCode(text: string)
      modifies this
      ensures State() == old(State()).(inputCode := ToUpper(text))
      ensures old(Valid()) ==> Valid()
    {
      inputCode := ToUpper(text);
    }

    /** Choosing an option on the ballot. */
    method SelectOption(optionId: string)
      modifies this
      ensures State() == old(State()).(selectedOption := Some(optionId))
      ensures old(Valid()) ==> Valid()
    {
      selectedOption := Some(optionId);
    }

    /** The reads of `handleVerifyCode` in the page's order, for a code of
        the right length: the store is only read, and `first` is the
        document the code query returned first. */
    method QueryCode(db: Database, code: string, faults: ReadFaults) returns (result: Lookup, ghost first: Option<string>)
      ensures IsFirstMatch(db.Contents(), code, first)
      ensures result == LookUpCode(db.Contents(), code, first, faults)
    {
      var matches := MatchingCodes(db.Contents(), code);
      first := if matches == {} then None else var id :| id in matches; Some(id);
      if faults.codesReadFails {
        return Rejected(UnexpectedFailure), first;
      }
      if matches == {} {
        return Rejected(UnknownCode), first;
      }
      var id :| id in matches;
      first := Some(id);
      var c := db.voterCodes[id];
      if c.hasVoted {
        return Rejected(CodeAlreadyUsed), first;
      }
      if c.electionId.None? || faults.electionReadFails {
        return Rejected(UnexpectedFailure), first;
      }
      var electionId := c.electionId.value;
      if electionId !in db.elections {
        return Rejected(ElectionMissing), first;
      }
      var e := db.elections[electionId];
      if e.status != Active {
        return Rejected(InactiveMessage(e.status)), first;
      }
      result := Admitted(VoterCodeView(id, electionId, c.code, c.hasVoted),
                         ElectionView(electionId, e.status, e.allowInvalidVotes, e.options));
    }

    /** `handleVerifyCode`. */
    method HandleVerifyCode(db: Database, codeToVerify: Option<string>, faults: ReadFaults)
      returns (toast: Option<Toast>, ghost first: Option<string>)
      modifies this
      ensures IsFirstMatch(db.Contents(), EnteredCode(old(State()), codeToVerify), first)
      ensures Reaction(State(), toast) == VerifyCode(old(State()), db.Contents(), EnteredCode(old(State()), codeToVerify), first, faults)
      ensures old(Valid()) && !old(showInvalidWarning) ==> Valid()
    {
      var code := NormalizeCode(OrString(codeToVerify, inputCode));
      if |code| != 4 {
        ghost var matches := MatchingCodes(db.Contents(), code);
        first := if matches == {} then None else var id :| id in matches; Some(id);
        toast := Some(InvalidCodeToast);
      } else {
        toast := None;
        loading := true;
        var result;
        result, first := QueryCode(db, code, faults);
        ShowLookup(result);
      }
      VerifyCodeOutcome(old(State()), db.Contents(), code, first, faults);
    }

    /** The state updates after the reads of `handleVerifyCode`. */
    method ShowLookup(result: Lookup)
      modifies this
      ensures State() == AfterLookup(old(State()), result)
    {
      match result {
        case Rejected(message) =>
          errorMessage, step := Some(message), ErrorStep;
        case Admitted(v, e) =>
          voterCode, election, step := Some(v), Some(e), VotingStep;
      }
      loading := false;
    }

    /** `handleKeyPress`. */
    method HandleKeyPress(db: Database, key: string, faults: ReadFaults)
      returns (toast: Option<Toast>, ghost first: Option<string>)
      modifies this
      ensures IsFirstMatch(db.Contents(), EnteredCode(old(State()), None), first)
      ensures Reaction(State(), toast) == KeyPress(old(State()), db.Contents(), key, first, faults)
      ensures old(Valid()) && !old(showInvalidWarning) ==> Valid()
    {
      if key == "Enter" && |inputCode| == 4 {
        toast, first := HandleVerifyCode(db, None, faults);
      } else {
        ghost var matches := MatchingCodes(db.Contents(), EnteredCode(State(), None));
        toast, first := None, if matches == {} then None else var id :| id in matches; Some(id);
      }
    }

    /** `submitVote`: the ballot insert, then the update of the code. */
    method SubmitVote(db: Database, isInvalid: bool, freshId: string, now: int, faults: WriteFaults)
      returns (toast: Option<Toast>)
      modifies this, db
      ensures Outcome(State(), db.Contents(), toast) == Submit(old(State()), old(db.Contents()), isInvalid, freshId, now, faults)
      ensures old(Valid()) ==> Valid()
    {
      if voterCode.None? || election.None? {
        return None;
      }
      loading := true;
      toast := None;
      if faults.insertFails {
        toast := Some(SubmitFailedToast);
      } else {
        db.votes := db.votes[freshId := Ballot(election.value.id, selectedOption, isInvalid, now)];
        var id := voterCode.value.id;
        if faults.updateFails || id !in db.voterCodes {
          toast := Some(SubmitFailedToast);
        } else {
          db.voterCodes := db.voterCodes[id := MarkUsed(db.voterCodes[id], now)];
          step := DoneStep;
        }
      }
      loading, showInvalidWarning := false, false;
    }

    /** `handleSubmitVote`. */
    method HandleSubmitVote(db: Database, freshId: string, now: int, faults: WriteFaults)
      returns (toast: Option<Toast>)
      modifies this, db
      ensures Outcome(State(), db.Contents(), toast) == HandleSubmit(old(State()), old(db.Contents()), freshId, now, faults)
      ensures old(Valid()) ==> Valid()
    {
      if voterCode.None? || election.None? {
        return None;
      }
      if !Selected(selectedOption) && !election.value.allowInvalidVotes {
        return Some(SelectionRequiredToast);
      }
      if !Selected(selectedOption) {
        showInvalidWarning := true;
        return None;
      }
      toast := SubmitVote(db, false, freshId, now, faults);
    }

    /** The blank-ballot dialog's confirm button. */
    method ConfirmInvalidVote(db: Database, freshId: string, now: int, faults: WriteFaults)
      returns (toast: Option<Toast>)
      modifies this, db
      ensures Outcome(State(), db.Contents(), toast) == ConfirmInvalid(old(State()), old(db.Contents()), freshId, now, faults)
      ensures old(Valid()) ==> Valid()
    {
      toast := SubmitVote(db, true, freshId, now, faults);
    }

    /** Closing the blank-ballot dialog without confirming. */
    method DismissInvalidWarning()
      modifies this
      ensures State() == old(State()).(showInvalidWarning := false)
      ensures old(Valid()) ==> Valid()
    {
      showInvalidWarning := false;
    }

    /** The error screen's "enter another code" button. */
    method EnterAnotherCode()
      modifies this
      ensures State() == ResetAfterError(old(State()))
      ensures old(Valid()) ==> Valid()
    {
      step, inputCode, errorMessage := CodeStep, "", None;
    }
  }
}

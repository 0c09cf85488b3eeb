/** The document store the core reads and writes: one map from document id
    to document per collection. Queries become map comprehensions, deletes
    become map differences and `addDoc` becomes an insert under a fresh id. */
module Store {
  import opened Types

  /** The value of the whole store at one moment. */
  datatype Db = Db(
    events: map<string, Event>,
    eventQuestions: map<string, EventQuestion>,
    votes: map<string, VoteDoc>,
    voterCodes: map<string, CodeDoc>,
    elections: map<string, Election>,
    electionQuestions: map<string, ElectionQuestion>)

  /** The shared store that every operation of the core updates in place. */
  class Database {
    var events: map<string, Event>
    var eventQuestions: map<string, EventQuestion>
    var votes: map<string, VoteDoc>
    var voterCodes: map<string, CodeDoc>
    var elections: map<string, Election>
    var electionQuestions: map<string, ElectionQuestion>

    function Contents(): Db
      reads this
    {
      Db(events, eventQuestions, votes, voterCodes, elections, electionQuestions)
    }

    constructor (initial: Db)
      ensures Contents() == initial
    {
      events := initial.events;
      eventQuestions := initial.eventQuestions;
      votes := initial.votes;
      voterCodes := initial.voterCodes;
      elections := initial.elections;
      electionQuestions := initial.electionQuestions;
    }
  }
}

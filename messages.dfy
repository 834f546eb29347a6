/**
  Message records: the three delivery status codes and their names, the constructor
  `NewMessage`, and the message service, whose `UpdateMessageStatus` rewrites a
  record's status and response and counts one more attempt before persisting it.
  The repository behind the service is an in-memory store; whether each of its calls
  fails is given by the caller, as the database's answer.
 */
module Messages {
  import opened Wrappers

  const Sent: int := 1
  const Failed: int := 6
  const Delivered: int := 10

  /** `StatusMap`: the name stored for each known status code. */
  const StatusMap: map<int, string> := map[Sent := "Sent", Failed := "Failed", Delivered := "Delivered"]

  /** `StatusMap[status]`: a code the map lacks reads as Go's zero string. */
  function StatusText(status: int): (name: string)
    ensures status in StatusMap ==> name == StatusMap[status]
    ensures status !in StatusMap ==> name == ""
  {
    if status in StatusMap then StatusMap[status] else ""
  }

  /** Exactly the three codes have a name, and the names are distinct and non-empty. */
  lemma StatusNames(status: int)
    ensures StatusText(status) != "" <==> status == Sent || status == Failed || status == Delivered
    ensures StatusText(status) == "Sent" <==> status == Sent
    ensures StatusText(status) == "Failed" <==> status == Failed
    ensures StatusText(status) == "Delivered" <==> status == Delivered
  {
    assert StatusMap.Keys == {Sent, Failed, Delivered};
    assert "Sent" != "Failed" && "Sent" != "Delivered" && "Failed" != "Delivered" by {
      assert "Sent"[0] == 'S' && "Failed"[0] == 'F' && "Delivered"[0] == 'D';
    }
  }

  /** A stored message; times are instants given by the caller. */
  datatype Message = Message(
    id: string,
    userId: string,
    groupName: string,
    message: string,
    receptor: string,
    senderId: string,
    sender: string,
    status: string,
    attempt: int,
    lastAttempt: int,
    lastProviders: seq<string>,
    response: string,
    createdAt: int,
    updatedAt: int)

  /**
    `NewMessage`: the first argument is the sender's id for the message; the record
    starts at attempt 0 with the status's name. `id` is the fresh UUID and `now` the
    clock reading, both from outside.
   */
  function NewMessage(senderId: string, message: string, receptor: string, sender: string,
                      userId: string, groupName: string, response: string,
                      providerChain: seq<string>, status: int, id: string, now: int): (m: Message)
    ensures m.attempt == 0 && m.status == StatusText(status)
    ensures m.lastProviders == providerChain
    ensures m.senderId == senderId && m.message == message && m.receptor == receptor
    ensures m.sender == sender && m.userId == userId && m.groupName == groupName
    ensures m.response == response && m.id == id
    ensures m.lastAttempt == now && m.createdAt == now && m.updatedAt == now
  {
    Message(id, userId, groupName, message, receptor, senderId, sender, StatusText(status),
            0, now, providerChain, response, now, now)
  }

  /** Two records that agree on every field `UpdateMessageStatus` leaves alone. */
  predicate SameRecord(a: Message, b: Message) {
    a.id == b.id && a.userId == b.userId && a.groupName == b.groupName
    && a.message == b.message && a.receptor == b.receptor && a.senderId == b.senderId
    && a.sender == b.sender && a.lastAttempt == b.lastAttempt
    && a.lastProviders == b.lastProviders && a.createdAt == b.createdAt && a.updatedAt == b.updatedAt
  }

  /** The record `UpdateMessageStatus` leaves behind its pointer. */
  function Updated(m: Message, status: int, response: string): (r: Message)
    ensures r.status == StatusText(status) && r.response == response
    ensures r.attempt == m.attempt + 1
    ensures SameRecord(m, r)
  {
    m.(status := StatusText(status), response := response, attempt := m.attempt + 1)
  }

  /** Updates only ever count attempts up: `n` updates add exactly `n`. */
  function UpdatedAll(m: Message, updates: seq<(int, string)>): Message
    decreases |updates|
  {
    if |updates| == 0 then m
    else UpdatedAll(Updated(m, updates[0].0, updates[0].1), updates[1..])
  }

  lemma {:induction false} AttemptsCount(m: Message, updates: seq<(int, string)>)
    ensures UpdatedAll(m, updates).attempt == m.attempt + |updates|
    ensures SameRecord(m, UpdatedAll(m, updates))
    decreases |updates|
  {
    if |updates| > 0 {
      var m1 := Updated(m, updates[0].0, updates[0].1);
      AttemptsCount(m1, updates[1..]);
    }
  }

  /** The message repository as an in-memory store. */
  class Store {
    /** The records `SaveMessage` accepted, in call order. */
    var saved: seq<Message>
    /** The records `UpdateMessage` accepted, in call order. */
    var updates: seq<Message>
    /** What `ListNotFinishedMessages` reads. */
    var unfinished: seq<Message>

    constructor (unfinished: seq<Message>)
      ensures this.saved == [] && this.updates == [] && this.unfinished == unfinished
    {
      this.saved := [];
      this.updates := [];
      this.unfinished := unfinished;
    }

    /** `SaveMessage`; `answer` is the database's error, if any. */
    method SaveMessage(m: Message, answer: Option<string>) returns (err: Option<string>)
      modifies this`saved
      ensures err == answer
      ensures saved == if answer.None? then old(saved) + [m] else old(saved)
    {
      err := answer;
      if answer.None? {
        saved := saved + [m];
      }
    }

    /** `UpdateMessage`; `answer` is the database's error, if any. */
    method UpdateMessage(m: Message, answer: Option<string>) returns (err: Option<string>)
      modifies this`updates
      ensures err == answer
      ensures updates == if answer.None? then old(updates) + [m] else old(updates)
    {
      err := answer;
      if answer.None? {
        updates := updates + [m];
      }
    }
  }

  /** The message service over its repository. */
  class Service {
    const repo: Store

    constructor (repo: Store)
      ensures this.repo == repo
    {
      this.repo := repo;
    }

    /** `Add` hands the record to the repository unchanged and returns its answer. */
    method Add(m: Message, answer: Option<string>) returns (err: Option<string>)
      modifies repo`saved
      ensures err == answer
      ensures repo.saved == if answer.None? then old(repo.saved) + [m] else old(repo.saved)
    {
      err := repo.SaveMessage(m, answer);
    }

    /**
      `UpdateMessageStatus`: the record gets the status's name and the response and one
      more attempt, and is persisted whatever the repository then answers. `r` is what
      the caller's pointer holds afterwards.
     */
    method UpdateMessageStatus(m: Message, status: int, response: string, answer: Option<string>)
      returns (r: Message, err: Option<string>)
      modifies repo`updates
      ensures r == Updated(m, status, response) && err == answer
      ensures repo.updates == if answer.None? then old(repo.updates) + [r] else old(repo.updates)
    {
      r := m.(status := StatusText(status));
      r := r.(response := response);
      r := r.(attempt := r.attempt + 1);
      err := repo.UpdateMessage(r, answer);
    }

    /** `ListNotFinishedMessages` returns the repository's list, or its error. */
    method ListNotFinishedMessages(answer: Option<string>) returns (r: Result<seq<Message>, string>)
      ensures answer.None? ==> r == Ok(repo.unfinished)
      ensures answer.Some? ==> r == Err(answer.value)
    {
      if answer.Some? {
        r := Err(answer.value);
      } else {
        r := Ok(repo.unfinished);
      }
    }
  }
}

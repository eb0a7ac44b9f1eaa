/** The store the handlers read and write: the users, requests,
    conversations and messages tables, as a value (`Db`) and as the mutable
    object the handlers act on (`Store`). Every write may be refused by the
    store (`fault`, an error the store reports; nothing is written then), and
    an insert whose primary key is already present is refused too. */
module Store {
  import opened Schema

  /** `.eq("id", id).single()` on `requests`: the row with that id, if any. */
  function FindRequest(rows: seq<Request>, id: string): (r: Option<Request>)
    ensures r.Some? ==> r.value in rows && r.value.id == id
    ensures r.None? <==> forall i :: 0 <= i < |rows| ==> rows[i].id != id
  {
    if rows == [] then None
    else if rows[0].id == id then Some(rows[0])
    else FindRequest(rows[1..], id)
  }

  /** `.update({ status }).eq("id", id)` on `requests`. */
  function SetStatus(rows: seq<Request>, id: string, status: RequestStatus): (r: seq<Request>)
    ensures |r| == |rows|
    ensures forall i :: 0 <= i < |rows| ==>
      r[i] == if rows[i].id == id then rows[i].(status := status) else rows[i]
  {
    if rows == [] then []
    else [if rows[0].id == id then rows[0].(status := status) else rows[0]] + SetStatus(rows[1..], id, status)
  }

  /** After the update, the row with that id carries the new status. */
  lemma {:induction false} FindAfterSetStatus(rows: seq<Request>, id: string, status: RequestStatus)
    ensures FindRequest(SetStatus(rows, id, status), id) ==
      if FindRequest(rows, id).Some? then Some(FindRequest(rows, id).value.(status := status)) else None
  {
    if rows != [] && rows[0].id != id {
      FindAfterSetStatus(rows[1..], id, status);
      assert SetStatus(rows, id, status)[1..] == SetStatus(rows[1..], id, status);
    }
  }

  /** The update leaves the rows of every other id as they were. */
  lemma {:induction false} FindOtherAfterSetStatus(rows: seq<Request>, id: string, status: RequestStatus, other: string)
    requires other != id
    ensures FindRequest(SetStatus(rows, id, status), other) == FindRequest(rows, other)
  {
    if rows != [] && rows[0].id != other {
      FindOtherAfterSetStatus(rows[1..], id, status, other);
      assert SetStatus(rows, id, status)[1..] == SetStatus(rows[1..], id, status);
    }
  }

  /** The request can be matched: it exists and its status is 'active'. */
  predicate Open(requests: seq<Request>, requestId: string) {
    FindRequest(requests, requestId).Some? && FindRequest(requests, requestId).value.status == Active
  }

  /** `request && request.status === 'active'`: with unique ids, a request is
      open exactly when the table holds an 'active' row with that id. */
  lemma OpenMeansActiveRow(requests: seq<Request>, requestId: string)
    requires forall i, j :: 0 <= i < j < |requests| ==> requests[i].id != requests[j].id
    ensures Open(requests, requestId) <==>
      exists i :: 0 <= i < |requests| && requests[i].id == requestId && requests[i].status == Active
  {
    var f := FindRequest(requests, requestId);
    if f.Some? {
      var k :| 0 <= k < |requests| && requests[k] == f.value;
      assert forall i :: 0 <= i < |requests| && requests[i].id == requestId ==> i == k;
    }
  }

  /** One matcher's attempt on a request, with the store's replies to its
      two writes (the status update and the conversation insert). */
  datatype MatchAttempt = MatchAttempt(matcherId: string, conversationId: string, updateFault: bool, insertFault: bool)

  /** The four tables. */
  datatype Db = Db(
    users: map<string, User>,
    requests: seq<Request>,
    conversations: map<string, Conversation>,
    messages: seq<MessageRow>)
  {
    /** Primary keys: every map is keyed by its rows' ids and request ids are unique. */
    ghost predicate Valid() {
      && (forall k :: k in users ==> users[k].id == k)
      && (forall k :: k in conversations ==> conversations[k].id == k)
      && (forall i, j :: 0 <= i < j < |requests| ==> requests[i].id != requests[j].id)
    }

    function WithRequestStatus(id: string, status: RequestStatus): Db {
      this.(requests := SetStatus(requests, id, status))
    }

    /** Insert into `requests`; refused when the id is taken. */
    function WithRequest(r: Request): Db {
      if FindRequest(requests, r.id).Some? then this else this.(requests := requests + [r])
    }

    /** Insert into `conversations`; refused when the id is taken. */
    function WithConversation(c: Conversation): Db {
      if c.id in conversations then this else this.(conversations := conversations[c.id := c])
    }

    /** Insert into `messages` (its key is a serial number, never taken). */
    function WithMessage(m: MessageRow): Db {
      this.(messages := messages + [m])
    }

    /** `.update({ trust_score }).eq("id", id)` on `users`: no row matches an unknown id. */
    function WithTrustScore(id: string, score: int): Db {
      if id in users then this.(users := users[id := users[id].(trustScore := Some(score))]) else this
    }

    /** `.upsert(u)` on `users`. */
    function WithUser(u: User): Db {
      this.(users := users[u.id := u])
    }
  }

  /** The ids of the conversations recorded for a request. */
  function ConversationsFor(db: Db, requestId: string): set<string> {
    set k | k in db.conversations && db.conversations[k].requestId == requestId
  }

  /** The store as the handlers see it: one object whose tables they update in place. */
  class Store {
    var users: map<string, User>
    var requests: seq<Request>
    var conversations: map<string, Conversation>
    var messages: seq<MessageRow>

    function Tables(): Db
      reads this
    {
      Db(users, requests, conversations, messages)
    }

    ghost predicate Valid()
      reads this
    {
      Tables().Valid()
    }

    constructor ()
      ensures Valid()
      ensures Tables() == Db(map[], [], map[], [])
    {
      users, requests, conversations, messages := map[], [], map[], [];
    }

    method SelectRequest(id: string) returns (r: Option<Request>)
      ensures r == FindRequest(requests, id)
    {
      r := FindRequest(requests, id);
    }

    method SelectUser(id: string) returns (u: Option<User>)
      ensures u.Some? <==> id in users
      ensures u.Some? ==> u.value == users[id]
    {
      u := if id in users then Some(users[id]) else None;
    }

    method UpdateRequestStatus(id: string, status: RequestStatus, fault: bool) returns (ok: bool)
      requires Valid()
      modifies this
      ensures Valid()
      ensures ok == !fault
      ensures Tables() == if ok then old(Tables()).WithRequestStatus(id, status) else old(Tables())
    {
      ok := !fault;
      if ok {
        requests := SetStatus(requests, id, status);
      }
    }

    method InsertRequest(r: Request, fault: bool) returns (ok: bool)
      requires Valid()
      modifies this
      ensures Valid()
      ensures ok == (!fault && FindRequest(old(requests), r.id).None?)
      ensures Tables() == if fault then old(Tables()) else old(Tables()).WithRequest(r)
    {
      ok := !fault && FindRequest(requests, r.id).None?;
      if ok {
        requests := requests + [r];
      }
    }

    method InsertConversation(c: Conversation, fault: bool) returns (ok: bool)
      requires Valid()
      modifies this
      ensures Valid()
      ensures ok == (!fault && c.id !in old(conversations))
      ensures Tables() == if fault then old(Tables()) else old(Tables()).WithConversation(c)
    {
      ok := !fault && c.id !in conversations;
      if ok {
        conversations := conversations[c.id := c];
      }
    }

    method InsertMessage(m: MessageRow, fault: bool) returns (ok: bool)
      requires Valid()
      modifies this
      ensures Valid()
      ensures ok == !fault
      ensures Tables() == if ok then old(Tables()).WithMessage(m) else old(Tables())
    {
      ok := !fault;
      if ok {
        messages := messages + [m];
      }
    }

    method UpdateTrustScore(id: string, score: int, fault: bool) returns (ok: bool)
      requires Valid()
      modifies this
      ensures Valid()
      ensures ok == !fault
      ensures Tables() == if ok then old(Tables()).WithTrustScore(id, score) else old(Tables())
    {
      ok := !fault;
      if ok && id in users {
        users := users[id := users[id].(trustScore := Some(score))];
      }
    }

    method UpsertUser(u: User, fault: bool) returns (ok: bool)
      requires Valid()
      modifies this
      ensures Valid()
      ensures ok == !fault
      ensures Tables() == if ok then old(Tables()).WithUser(u) else old(Tables())
    {
      ok := !fault;
      if ok {
        users := users[u.id := u];
      }
    }
  }
}

/** The server's socket handlers (`send_message`, `match_request`) and the
    rating endpoint, each one atomic step on the store. What a handler emits
    is returned rather than sent. */
module Server {
  import opened Schema
  import opened Store
  import opened Ledger

  /** `{ id, ...user }` where `user` is the `username, avatar` row, or null. */
  datatype Participant = Participant(id: string, username: Option<string>, avatar: Option<string>)

  /** The `send_message` payload, passed on unchanged. */
  datatype SendPayload = SendPayload(conversationId: string, senderId: string, content: string)

  /** `io.emit` reaches every socket; `io.to(room)` the sockets joined to a conversation. */
  datatype Audience = Everyone | Room(conversationId: string)

  datatype ServerEvent =
    | NewMessage(payload: SendPayload)
    | RequestMatched(requestId: string, conversationId: string, user1: Participant, user2: Participant)

  datatype Emission = Emission(audience: Audience, event: ServerEvent)

  /** The tables after a handler, and what it emitted. */
  datatype Outcome = Outcome(db: Db, emitted: Option<Emission>)

  /** The tables after the rating endpoint, and its HTTP status. */
  datatype RateOutcome = RateOutcome(db: Db, status: int)

  /** `{ id, ...user }` for the `username, avatar` row read from `users`. */
  function ParticipantOf(users: map<string, User>, id: string): (p: Participant)
    ensures p.id == id
    ensures p.username.Some? <==> id in users
    ensures p.avatar.Some? <==> id in users
    ensures id in users ==> p.username == Some(users[id].username) && p.avatar == Some(users[id].avatar)
  {
    Joined(id, if id in users then Some(users[id]) else None)
  }

  /** `match_request`: read the request; if it is open, set it 'matched'; if
      that update succeeded, insert the conversation (its result unchecked)
      and emit `request_matched` to everyone. */
  function MatchRequestStep(db: Db, requestId: string, matcherId: string, conversationId: string,
                            updateFault: bool, insertFault: bool): (o: Outcome)
    ensures o.emitted.None? <==> !Open(db.requests, requestId) || updateFault
    ensures o.emitted.None? ==> o.db == db
    ensures o.emitted.Some? ==>
      var owner := FindRequest(db.requests, requestId).value.userId;
      && o.db.requests == SetStatus(db.requests, requestId, Matched)
      && FindRequest(o.db.requests, requestId) == Some(FindRequest(db.requests, requestId).value.(status := Matched))
      && o.db.conversations ==
           (if insertFault || conversationId in db.conversations then db.conversations
            else db.conversations[conversationId := Conversation(conversationId, requestId, owner, matcherId)])
      && o.db.users == db.users && o.db.messages == db.messages
      && o.emitted.value == Emission(Everyone, RequestMatched(requestId, conversationId,
                                     ParticipantOf(db.users, owner), ParticipantOf(db.users, matcherId)))
  {
    match FindRequest(db.requests, requestId)
    case None => Outcome(db, None)
    case Some(request) =>
      if request.status != Active || updateFault then Outcome(db, None)
      else
        FindAfterSetStatus(db.requests, requestId, Matched);
        var db1 := db.WithRequestStatus(requestId, Matched);
        var db2 := if insertFault then db1
                   else db1.WithConversation(Conversation(conversationId, requestId, request.userId, matcherId));
        Outcome(db2, Some(Emission(Everyone, RequestMatched(requestId, conversationId,
                                   ParticipantOf(db2.users, request.userId), ParticipantOf(db2.users, matcherId)))))
  }

  /** `send_message`: insert the message; only if the insert succeeded, emit
      the payload unchanged to the conversation's room. */
  function SendMessageStep(db: Db, data: SendPayload, now: int, insertFault: bool): (o: Outcome)
    ensures o.emitted.Some? <==> !insertFault
    ensures o.emitted.Some? ==> o.emitted.value == Emission(Room(data.conversationId), NewMessage(data))
    ensures o.db.messages == if insertFault then db.messages
      else db.messages + [MessageRow(data.conversationId, data.senderId, data.content, now)]
    ensures o.db.users == db.users && o.db.requests == db.requests && o.db.conversations == db.conversations
  {
    if insertFault then Outcome(db, None)
    else Outcome(db.WithMessage(MessageRow(data.conversationId, data.senderId, data.content, now)),
                 Some(Emission(Room(data.conversationId), NewMessage(data))))
  }

  /** `POST /api/users/rate`: an unknown user changes nothing and still
      succeeds; a failed update answers 500. */
  function RateStep(db: Db, userId: string, rating: int, updateFault: bool): (o: RateOutcome)
    ensures o.status == 500 <==> userId in db.users && updateFault
    ensures o.status != 500 ==> o.status == 200
    ensures userId !in db.users || updateFault ==> o.db == db
    ensures userId in db.users && !updateFault ==>
      && o.db.users == db.users[userId := db.users[userId].(trustScore := Some(ScoreBase(db.users[userId].trustScore) + rating))]
      && o.db.requests == db.requests && o.db.conversations == db.conversations && o.db.messages == db.messages
  {
    if userId !in db.users then RateOutcome(db, 200)
    else if updateFault then RateOutcome(db, 500)
    else RateOutcome(ApplyRating(db, userId, rating), 200)
  }

  method MatchRequest(db: Store, requestId: string, matcherId: string, conversationId: string,
                      updateFault: bool, insertFault: bool) returns (emitted: Option<Emission>)
    requires db.Valid()
    modifies db
    ensures db.Valid()
    ensures Outcome(db.Tables(), emitted) ==
      MatchRequestStep(old(db.Tables()), requestId, matcherId, conversationId, updateFault, insertFault)
  {
    emitted := None;
    var request := db.SelectRequest(requestId);
    if request.Some? && request.value.status == Active {
      var updated := db.UpdateRequestStatus(requestId, Matched, updateFault);
      if updated {
        var _ := db.InsertConversation(Conversation(conversationId, requestId, request.value.userId, matcherId), insertFault);
        var user1 := db.SelectUser(request.value.userId);
        var user2 := db.SelectUser(matcherId);
        emitted := Some(Emission(Everyone, RequestMatched(requestId, conversationId,
          Joined(request.value.userId, user1), Joined(matcherId, user2))));
      }
    }
  }

  /** `{ id, ...row }` for the `username, avatar` lookup; a null row adds nothing. */
  function Joined(id: string, row: Option<User>): (p: Participant)
    ensures p.id == id
    ensures p.username.Some? <==> row.Some?
    ensures p.avatar.Some? <==> row.Some?
    ensures row.Some? ==> p.username == Some(row.value.username) && p.avatar == Some(row.value.avatar)
  {
    if row.Some? then Participant(id, Some(row.value.username), Some(row.value.avatar)) else Participant(id, None, None)
  }

  method SendMessage(db: Store, data: SendPayload, now: int, insertFault: bool) returns (emitted: Option<Emission>)
    requires db.Valid()
    modifies db
    ensures db.Valid()
    ensures Outcome(db.Tables(), emitted) == SendMessageStep(old(db.Tables()), data, now, insertFault)
  {
    emitted := None;
    var inserted := db.InsertMessage(MessageRow(data.conversationId, data.senderId, data.content, now), insertFault);
    if inserted {
      emitted := Some(Emission(Room(data.conversationId), NewMessage(data)));
    }
  }

  method RateUser(db: Store, userId: string, rating: int, updateFault: bool) returns (status: int)
    requires db.Valid()
    modifies db
    ensures db.Valid()
    ensures RateOutcome(db.Tables(), status) == RateStep(old(db.Tables()), userId, rating, updateFault)
  {
    status := 200;
    var user := db.SelectUser(userId);
    if user.Some? {
      var updated := db.UpdateTrustScore(userId, Rated(user.value.trustScore, rating), updateFault);
      if !updated {
        status := 500;
      }
    }
  }

  /** The tables after a run of handlers, and everything they emitted. */
  datatype Trace = Trace(db: Db, emitted: seq<Emission>)

  /** `match_request` for one request, handled once per attempt, one after another. */
  function RunMatches(db: Db, requestId: string, attempts: seq<MatchAttempt>): Trace
    decreases |attempts|
  {
    if attempts == [] then Trace(db, [])
    else
      var a := attempts[0];
      var o := MatchRequestStep(db, requestId, a.matcherId, a.conversationId, a.updateFault, a.insertFault);
      var rest := RunMatches(o.db, requestId, attempts[1..]);
      Trace(rest.db, (if o.emitted.Some? then [o.emitted.value] else []) + rest.emitted)
  }

  /** Once a request is matched, a second `match_request` changes nothing
      and emits nothing. */
  lemma SecondMatchIsNoOp(db: Db, requestId: string, first: MatchAttempt, second: MatchAttempt)
    requires MatchRequestStep(db, requestId, first.matcherId, first.conversationId, first.updateFault, first.insertFault).emitted.Some?
    ensures var db1 := MatchRequestStep(db, requestId, first.matcherId, first.conversationId, first.updateFault, first.insertFault).db;
      MatchRequestStep(db1, requestId, second.matcherId, second.conversationId, second.updateFault, second.insertFault)
        == Outcome(db1, None)
  {
  }

  /** Against a request that is not open, every attempt is a no-op. */
  lemma {:induction false} ClosedRequestIgnoresMatches(db: Db, requestId: string, attempts: seq<MatchAttempt>)
    requires !Open(db.requests, requestId)
    ensures RunMatches(db, requestId, attempts) == Trace(db, [])
    decreases |attempts|
  {
    if attempts != [] {
      ClosedRequestIgnoresMatches(db, requestId, attempts[1..]);
    }
  }

  /** One `match_request`: either nothing happens, or the request closes and
      gains at most the attempt's conversation. */
  lemma MatchStepCloses(db: Db, requestId: string, a: MatchAttempt)
    ensures var o := MatchRequestStep(db, requestId, a.matcherId, a.conversationId, a.updateFault, a.insertFault);
      && (o.emitted.None? ==> o.db == db)
      && (o.emitted.Some? ==>
            && !Open(o.db.requests, requestId)
            && ConversationsFor(o.db, requestId) ==
                 ConversationsFor(db, requestId) + (if !a.insertFault && a.conversationId !in db.conversations
                                                    then {a.conversationId} else {}))
  {
  }

  /** Handled one after another, any number of `match_request` attempts on
      one request emit at most one `request_matched` and record at most one
      new conversation for it. */
  lemma {:induction false} AtMostOneWinner(db: Db, requestId: string, attempts: seq<MatchAttempt>)
    ensures |RunMatches(db, requestId, attempts).emitted| <= 1
    ensures ConversationsFor(db, requestId) <= ConversationsFor(RunMatches(db, requestId, attempts).db, requestId)
    ensures |ConversationsFor(RunMatches(db, requestId, attempts).db, requestId)| <= |ConversationsFor(db, requestId)| + 1
    decreases |attempts|
  {
    if attempts != [] {
      var a := attempts[0];
      var o := MatchRequestStep(db, requestId, a.matcherId, a.conversationId, a.updateFault, a.insertFault);
      MatchStepCloses(db, requestId, a);
      if o.emitted.None? {
        AtMostOneWinner(db, requestId, attempts[1..]);
      } else {
        ClosedRequestIgnoresMatches(o.db, requestId, attempts[1..]);
      }
    }
  }

  /** When the status update succeeds but the conversation insert is refused
      (an error, or the id is taken), the request is left 'matched' with no
      new conversation, and the event still names the refused conversation id. */
  lemma MatchedWithoutConversation(db: Db, requestId: string, matcherId: string, conversationId: string, insertFault: bool)
    requires Open(db.requests, requestId)
    requires insertFault || conversationId in db.conversations
    ensures var o := MatchRequestStep(db, requestId, matcherId, conversationId, false, insertFault);
      && FindRequest(o.db.requests, requestId) == Some(FindRequest(db.requests, requestId).value.(status := Matched))
      && ConversationsFor(o.db, requestId) == ConversationsFor(db, requestId)
      && o.db.conversations == db.conversations
      && o.emitted.Some? && o.emitted.value.event.conversationId == conversationId
  {
  }

  /** Two requests matched within the same millisecond get the same
      `conv_${Date.now()}` id: the second request ends up 'matched' with no
      conversation, and its `request_matched` names the first request's
      conversation. */
  lemma SameMillisecondMatches()
    ensures var db := Db(map[], [Request("r1", "alice", Topic, "", None, Active, 0),
                                 Request("r2", "dave", Topic, "", None, Active, 0)], map[], []);
      var o1 := MatchRequestStep(db, "r1", "bob", "conv_7", false, false);
      var o2 := MatchRequestStep(o1.db, "r2", "carol", "conv_7", false, false);
      && FindRequest(o2.db.requests, "r2").Some? && FindRequest(o2.db.requests, "r2").value.status == Matched
      && ConversationsFor(o2.db, "r2") == {}
      && o2.emitted.Some? && o2.emitted.value.event.conversationId == "conv_7"
      && o2.db.conversations["conv_7"].requestId == "r1"
  {
    var db := Db(map[], [Request("r1", "alice", Topic, "", None, Active, 0),
                         Request("r2", "dave", Topic, "", None, Active, 0)], map[], []);
    var o1 := MatchRequestStep(db, "r1", "bob", "conv_7", false, false);
    assert FindRequest(db.requests, "r1") == Some(db.requests[0]);
    assert o1.db.conversations == map["conv_7" := Conversation("conv_7", "r1", "alice", "bob")];
    assert FindRequest(o1.db.requests, "r2") == Some(db.requests[1]);
    MatchedWithoutConversation(o1.db, "r2", "carol", "conv_7", false);
    var o2 := MatchRequestStep(o1.db, "r2", "carol", "conv_7", false, false);
    assert ConversationsFor(o1.db, "r2") == {};
  }

  /** Every handler keeps the tables' primary keys. */
  lemma HandlersKeepKeys(db: Db, requestId: string, a: MatchAttempt, data: SendPayload, now: int, userId: string, rating: int, fault: bool)
    requires db.Valid()
    ensures MatchRequestStep(db, requestId, a.matcherId, a.conversationId, a.updateFault, a.insertFault).db.Valid()
    ensures SendMessageStep(db, data, now, fault).db.Valid()
    ensures RateStep(db, userId, rating, fault).db.Valid()
  {
  }
}

/** The client's handlers and realtime callbacks: the component state of the
    app (`App`) and what each handler reads from and writes to the store.
    Each handler and callback runs as one atomic step; the moderation and
    summary services are passed in as functions, and ids, timestamps and the
    chosen avatar as values. */
module Client {
  import opened Schema
  import opened Store
  import opened Query
  import opened Queries
  import opened Ledger
  import opened Text

  datatype View = Onboarding | Feed | Chat | Call | Summary | Blogs | Profile | Posts

  /** The other participant of the open call. */
  datatype Partner = Partner(username: string, avatar: string, id: string)

  /** What the moderation service answers (`isSafe: true` when it fails). */
  datatype Verdict = Verdict(isSafe: bool, reason: Option<string>)

  datatype Speaker = Me | Them

  /** A line of the transcript handed to the summary service. */
  datatype Line = Line(sender: Speaker, text: string)

  /** The component state the core handlers read and write. */
  datatype Ui = Ui(
    user: Option<User>,
    view: View,
    requests: seq<FeedRow>,
    activeConversationId: Option<string>,
    messages: seq<MessageRow>,
    newMessage: string,
    moderationError: Option<string>,
    callPartner: Option<Partner>,
    summary: Option<string>)

  /** `email?.split('@')[0] || 'user'`. */
  function DefaultUsername(email: Option<string>): (name: string)
    ensures name != "" && '@' !in name
    ensures email.Some? && BeforeAt(email.value) != "" ==> name == BeforeAt(email.value)
    ensures email.None? || BeforeAt(email.value) == "" ==> name == "user"
  {
    if email.None? || BeforeAt(email.value) == "" then "user" else BeforeAt(email.value)
  }

  /** The warning shown for a rejected message when moderation gives no reason. */
  const RejectionFallback := "Inappropriate content detected."

  /** The summary shown when the summary service returns nothing. */
  const SummaryFallback := "Conversation ended."

  /** `text || fallback` on a string that may be missing: a missing or empty
      text gives the fallback, so a non-empty fallback gives a non-empty result. */
  function OrElse(text: Option<string>, fallback: string): (shown: string)
    ensures text.Some? && text.value != "" ==> shown == text.value
    ensures text.None? || text.value == "" ==> shown == fallback
    ensures fallback != "" ==> shown != ""
  {
    if text.None? || text.value == "" then fallback else text.value
  }

  /** The transcript sent for summary: one line per message, in order, marked
      Me exactly when the signed-in user sent it. */
  function Transcript(messages: seq<MessageRow>, user: Option<User>): (lines: seq<Line>)
    ensures |lines| == |messages|
    ensures forall i :: 0 <= i < |lines| ==>
      lines[i].text == messages[i].content &&
      (lines[i].sender == Me <==> user.Some? && messages[i].senderId == user.value.id)
  {
    seq(|messages|, i requires 0 <= i < |messages| =>
      Line(if user.Some? && messages[i].senderId == user.value.id then Me else Them, messages[i].content))
  }

  /** The partner of a new conversation as the signed-in user sees it: the
      other participant, and nothing when the user is not one of the two. */
  function PartnerOf(conv: Conversation, user: Option<User>): (partner: Option<string>)
    ensures partner.Some? <==> user.Some? && (conv.user1Id == user.value.id || conv.user2Id == user.value.id)
    ensures partner.Some? ==> {partner.value, user.value.id} == {conv.user1Id, conv.user2Id}
  {
    if user.None? then None
    else if conv.user1Id == user.value.id then Some(conv.user2Id)
    else if conv.user2Id == user.value.id then Some(conv.user1Id)
    else None
  }

  predicate Addressed(active: Option<string>, m: MessageRow) {
    active == Some(m.conversationId)
  }

  function AddressedTo(active: Option<string>): MessageRow -> bool {
    m => Addressed(active, m)
  }

  /** The message callback on one inserted row. */
  function Deliver(messages: seq<MessageRow>, active: Option<string>, m: MessageRow): (r: seq<MessageRow>)
    ensures messages <= r && |r| <= |messages| + 1
    ensures |r| > |messages| <==> active == Some(m.conversationId)
    ensures |r| > |messages| ==> r[|messages|] == m
  {
    if Addressed(active, m) then messages + [m] else messages
  }

  /** The message callback on a stream of inserted rows. */
  function DeliverAll(messages: seq<MessageRow>, active: Option<string>, incoming: seq<MessageRow>): (r: seq<MessageRow>)
    ensures messages <= r && |r| <= |messages| + |incoming|
    decreases |incoming|
  {
    if incoming == [] then messages else DeliverAll(Deliver(messages, active, incoming[0]), active, incoming[1..])
  }

  /** The list keeps what it had and gains exactly the rows of the active
      conversation, in the order they arrived. */
  lemma {:induction false} DeliverAllAppendsInOrder(messages: seq<MessageRow>, active: Option<string>, incoming: seq<MessageRow>)
    ensures DeliverAll(messages, active, incoming) == messages + Filter(incoming, AddressedTo(active))
    decreases |incoming|
  {
    if incoming != [] {
      var p := AddressedTo(active);
      var head := if p(incoming[0]) then [incoming[0]] else [];
      var rest := Filter(incoming[1..], p);
      calc {
        DeliverAll(messages, active, incoming);
        DeliverAll(Deliver(messages, active, incoming[0]), active, incoming[1..]);
        { DeliverAllAppendsInOrder(Deliver(messages, active, incoming[0]), active, incoming[1..]); }
        Deliver(messages, active, incoming[0]) + rest;
        (messages + head) + rest;
        messages + (head + rest);
        { assert Filter(incoming, p) == head + rest; }
        messages + Filter(incoming, p);
      }
    }
  }

  /** What `handleMatch` does to the tables once a user is signed in: read the
      request; if it is open, set it 'matched' and insert the conversation.
      Neither write's error is looked at. */
  function MatchEffect(db: Db, requestId: string, matcherId: string, conversationId: string,
                       updateFault: bool, insertFault: bool): (db': Db)
    ensures !Open(db.requests, requestId) ==> db' == db
    ensures Open(db.requests, requestId) ==>
      var owner := FindRequest(db.requests, requestId).value.userId;
      && db'.requests == (if updateFault then db.requests else SetStatus(db.requests, requestId, Matched))
      && db'.conversations ==
           (if insertFault || conversationId in db.conversations then db.conversations
            else db.conversations[conversationId := Conversation(conversationId, requestId, owner, matcherId)])
      && db'.users == db.users && db'.messages == db.messages
  {
    match FindRequest(db.requests, requestId)
    case None => db
    case Some(request) =>
      if request.status != Active then db
      else
        var db1 := if updateFault then db else db.WithRequestStatus(requestId, Matched);
        if insertFault then db1
        else db1.WithConversation(Conversation(conversationId, requestId, request.userId, matcherId))
  }

  /** A successful match leaves the request 'matched' and every other request as it was. */
  lemma {:induction false} MatchTouchesOnlyThatRequest(db: Db, requestId: string, matcherId: string, conversationId: string, insertFault: bool)
    requires Open(db.requests, requestId)
    ensures var db' := MatchEffect(db, requestId, matcherId, conversationId, false, insertFault);
      && FindRequest(db'.requests, requestId) == Some(FindRequest(db.requests, requestId).value.(status := Matched))
      && forall other :: other != requestId ==> FindRequest(db'.requests, other) == FindRequest(db.requests, other)
  {
    FindAfterSetStatus(db.requests, requestId, Matched);
    forall other | other != requestId
      ensures FindRequest(SetStatus(db.requests, requestId, Matched), other) == FindRequest(db.requests, other)
    {
      FindOtherAfterSetStatus(db.requests, requestId, Matched, other);
    }
  }

  /** After a match whose status update succeeded, a second match of the same
      request changes nothing. */
  lemma SecondMatchIsNoOp(db: Db, requestId: string, first: MatchAttempt, second: MatchAttempt)
    requires !first.updateFault
    ensures var db1 := MatchEffect(db, requestId, first.matcherId, first.conversationId, first.updateFault, first.insertFault);
      MatchEffect(db1, requestId, second.matcherId, second.conversationId, second.updateFault, second.insertFault) == db1
  {
    FindAfterSetStatus(db.requests, requestId, Matched);
  }

  /** `handleMatch` for one request, run once per attempt, one after another. */
  function RunMatches(db: Db, requestId: string, attempts: seq<MatchAttempt>): Db
    decreases |attempts|
  {
    if attempts == [] then db
    else
      var a := attempts[0];
      RunMatches(MatchEffect(db, requestId, a.matcherId, a.conversationId, a.updateFault, a.insertFault),
                 requestId, attempts[1..])
  }

  lemma {:induction false} ClosedRequestIgnoresMatches(db: Db, requestId: string, attempts: seq<MatchAttempt>)
    requires !Open(db.requests, requestId)
    ensures RunMatches(db, requestId, attempts) == db
    decreases |attempts|
  {
    if attempts != [] {
      ClosedRequestIgnoresMatches(db, requestId, attempts[1..]);
    }
  }

  /** One match adds at most one conversation for the request. */
  lemma {:induction false} MatchAddsAtMostOneConversation(db: Db, requestId: string, a: MatchAttempt)
    ensures var db1 := MatchEffect(db, requestId, a.matcherId, a.conversationId, a.updateFault, a.insertFault);
      && ConversationsFor(db, requestId) <= ConversationsFor(db1, requestId)
      && |ConversationsFor(db1, requestId)| <= |ConversationsFor(db, requestId)| + 1
  {
    var db1 := MatchEffect(db, requestId, a.matcherId, a.conversationId, a.updateFault, a.insertFault);
    var before := ConversationsFor(db, requestId);
    if Open(db.requests, requestId) && !a.insertFault && a.conversationId !in db.conversations {
      InsertedConversation(db, requestId, a);
    } else {
      assert db1.conversations == db.conversations;
      assert ConversationsFor(db1, requestId) == before;
    }
  }

  lemma {:induction false} InsertedConversation(db: Db, requestId: string, a: MatchAttempt)
    requires Open(db.requests, requestId) && !a.insertFault && a.conversationId !in db.conversations
    ensures ConversationsFor(MatchEffect(db, requestId, a.matcherId, a.conversationId, a.updateFault, a.insertFault), requestId)
      == ConversationsFor(db, requestId) + {a.conversationId}
  {
    var db1 := MatchEffect(db, requestId, a.matcherId, a.conversationId, a.updateFault, a.insertFault);
    var owner := FindRequest(db.requests, requestId).value.userId;
    assert db1.conversations == db.conversations[a.conversationId := Conversation(a.conversationId, requestId, owner, a.matcherId)];
  }

  /** While every status update succeeds, any number of matches of one
      request record at most one new conversation for it. */
  lemma {:induction false} AtMostOneConversation(db: Db, requestId: string, attempts: seq<MatchAttempt>)
    requires forall i :: 0 <= i < |attempts| ==> !attempts[i].updateFault
    ensures ConversationsFor(db, requestId) <= ConversationsFor(RunMatches(db, requestId, attempts), requestId)
    ensures |ConversationsFor(RunMatches(db, requestId, attempts), requestId)| <= |ConversationsFor(db, requestId)| + 1
    decreases |attempts|
  {
    if attempts == [] {
    } else if !Open(db.requests, requestId) {
      ClosedRequestIgnoresMatches(db, requestId, attempts);
    } else {
      var a := attempts[0];
      assert !a.updateFault;
      var db1 := MatchEffect(db, requestId, a.matcherId, a.conversationId, false, a.insertFault);
      MatchAddsAtMostOneConversation(db, requestId, a);
      FindAfterSetStatus(db.requests, requestId, Matched);
      assert !Open(db1.requests, requestId);
      ClosedRequestIgnoresMatches(db1, requestId, attempts[1..]);
      assert RunMatches(db, requestId, attempts) == RunMatches(db1, requestId, attempts[1..]);
    }
  }

  /** Because `handleMatch` does not look at the update's error, a refused
      update still inserts the conversation and leaves the request open, so a
      second user can match it too: one request, two conversations. */
  lemma RefusedUpdateAllowsSecondConversation()
    ensures var db := Db(map[], [Request("r", "alice", Topic, "startup advice", None, Active, 1)], map[], []);
      var after := RunMatches(db, "r", [MatchAttempt("bob", "c1", true, false), MatchAttempt("carol", "c2", false, false)]);
      ConversationsFor(after, "r") == {"c1", "c2"}
  {
    var db := Db(map[], [Request("r", "alice", Topic, "startup advice", None, Active, 1)], map[], []);
    var db1 := MatchEffect(db, "r", "bob", "c1", true, false);
    assert db1.requests == db.requests;
    var db2 := MatchEffect(db1, "r", "carol", "c2", false, false);
    assert db2.conversations == map["c1" := Conversation("c1", "r", "alice", "bob"), "c2" := Conversation("c2", "r", "alice", "carol")];
    assert RunMatches(db, "r", [MatchAttempt("bob", "c1", true, false), MatchAttempt("carol", "c2", false, false)]) == db2;
  }

  /** The call a new conversation opens for the signed-in user: the partner,
      when the user takes part and the partner's `users` row is found. */
  function CallFor(conv: Conversation, user: Option<User>, users: map<string, User>): (call: Option<Partner>)
    ensures call.Some? <==> PartnerOf(conv, user).Some? && PartnerOf(conv, user).value in users
    ensures call.Some? ==> call.value.id == PartnerOf(conv, user).value
    ensures call.Some? ==>
      call.value == Partner(users[call.value.id].username, users[call.value.id].avatar, call.value.id)
  {
    var p := PartnerOf(conv, user);
    if p.Some? && p.value in users then Some(Partner(users[p.value].username, users[p.value].avatar, p.value)) else None
  }

  /** The conversation a match inserts opens the call on exactly two clients,
      each needing the other's `users` row: the owner's (partner: the matcher)
      and the matcher's (partner: the owner). */
  lemma MatchReachesBothParticipants(db: Db, requestId: string, matcherId: string, conversationId: string, viewer: User)
    requires Open(db.requests, requestId)
    requires conversationId !in db.conversations
    ensures var owner := FindRequest(db.requests, requestId).value.userId;
      var db1 := MatchEffect(db, requestId, matcherId, conversationId, false, false);
      var conv := db1.conversations[conversationId];
      && conv.requestId == requestId
      && (viewer.id == owner ==>
            CallFor(conv, Some(viewer), db1.users) ==
              if matcherId in db.users then Some(Partner(db.users[matcherId].username, db.users[matcherId].avatar, matcherId))
              else None)
      && (viewer.id == matcherId ==>
            CallFor(conv, Some(viewer), db1.users) ==
              if owner in db.users then Some(Partner(db.users[owner].username, db.users[owner].avatar, owner))
              else None)
      && (viewer.id != owner && viewer.id != matcherId ==> CallFor(conv, Some(viewer), db1.users).None?)
  {
  }

  /** What `handleEndChat` does to the tables: a rating that is set and not 0,
      given to a known partner, goes through the ledger. */
  function RatingEffect(db: Db, partner: Option<Partner>, rating: Option<int>, updateFault: bool): (db': Db)
    ensures partner.None? || updateFault ==> db' == db
    ensures db'.requests == db.requests && db'.conversations == db.conversations && db'.messages == db.messages
    ensures db'.users.Keys == db.users.Keys
    ensures forall v :: v in db.users && (partner.None? || v != partner.value.id) ==> db'.users[v] == db.users[v]
    ensures rating.Some? && rating.value != 0 && partner.Some? && !updateFault && partner.value.id in db.users ==>
      db'.users[partner.value.id] ==
        db.users[partner.value.id].(trustScore := Some(Rated(db.users[partner.value.id].trustScore, rating.value)))
  {
    if rating.Some? && rating.value != 0 && partner.Some? && !updateFault then
      RatingTouchesOnlyThatUser(db, partner.value.id, rating.value);
      ApplyRating(db, partner.value.id, rating.value)
    else db
  }

  /** Ending without a rating, or with 0, leaves every score as it was. */
  lemma UnratedEndKeepsScores(db: Db, partner: Option<Partner>, rating: Option<int>, updateFault: bool)
    requires rating.None? || rating.value == 0
    ensures RatingEffect(db, partner, rating, updateFault) == db
  {
  }

  /** The guard of `sendMessage`: `!newMessage.trim() || !activeConversationId || !user` is false. */
  function CanSend(ui: Ui): (ok: bool)
    ensures ok <==> Trim(ui.newMessage) != "" && ui.activeConversationId.Some? && ui.activeConversationId.value != "" && ui.user.Some?
  {
    TrimEmptyIffBlank(ui.newMessage);
    !Blank(ui.newMessage) && ui.activeConversationId.Some? && ui.activeConversationId.value != "" && ui.user.Some?
  }

  class App {
    var user: Option<User>
    var view: View
    var requests: seq<FeedRow>
    var activeConversationId: Option<string>
    var messages: seq<MessageRow>
    var newMessage: string
    var moderationError: Option<string>
    var callPartner: Option<Partner>
    var summary: Option<string>

    function State(): Ui
      reads this
    {
      Ui(user, view, requests, activeConversationId, messages, newMessage, moderationError, callPartner, summary)
    }

    constructor ()
      ensures State() == Ui(None, Onboarding, [], None, [], "", None, None, None)
    {
      user, view, requests, activeConversationId := None, Onboarding, [], None;
      messages, newMessage, moderationError, callPartner, summary := [], "", None, None, None;
    }

    /** `syncUser` for the signed-in account `id` with its `email`. */
    method SyncUser(db: Store, id: string, email: Option<string>, avatar: string, upsertFault: bool)
      requires db.Valid()
      modifies this, db
      ensures db.Valid()
      ensures id in old(db.users) ==>
        db.Tables() == old(db.Tables()) && State() == old(State()).(user := Some(old(db.users)[id]), view := Feed)
      ensures id !in old(db.users) ==>
        var u := User(id, DefaultUsername(email), avatar, Some(100));
        && db.Tables() == (if upsertFault then old(db.Tables()) else old(db.Tables()).WithUser(u))
        && State() == old(State()).(user := Some(u), view := Feed)
    {
      var row := db.SelectUser(id);
      if row.Some? {
        user := row;
      } else {
        var u := User(id, DefaultUsername(email), avatar, Some(100));
        var _ := db.UpsertUser(u, upsertFault);
        user := Some(u);
      }
      view := Feed;
    }

    method FetchRequests(db: Store)
      modifies this
      ensures State() == old(State()).(requests := ActiveFeed(db.requests, db.users))
    {
      requests := ActiveFeed(db.requests, db.users);
    }

    method FetchMessages(db: Store, conversationId: string)
      modifies this
      ensures State() == old(State()).(messages := History(db.messages, conversationId))
    {
      messages := History(db.messages, conversationId);
    }

    /** `createRequest`: insert an 'active' request owned by the user and, if
        the insert succeeded, refresh the feed. */
    method CreateRequest(db: Store, id: string, kind: RequestKind, topic: string, time: Option<string>,
                         now: int, insertFault: bool)
      requires db.Valid()
      modifies this, db
      ensures db.Valid()
      ensures old(user).None? ==> db.Tables() == old(db.Tables()) && State() == old(State())
      ensures old(user).Some? ==>
        var r := Request(id, old(user).value.id, kind, topic, time, Active, now);
        && db.Tables() == (if insertFault then old(db.Tables()) else old(db.Tables()).WithRequest(r))
        && State() == if !insertFault && FindRequest(old(db.requests), id).None?
                      then old(State()).(requests := ActiveFeed(db.requests, db.users)) else old(State())
    {
      if user.Some? {
        var r := Request(id, user.value.id, kind, topic, time, Active, now);
        var inserted := db.InsertRequest(r, insertFault);
        if inserted {
          FetchRequests(db);
        }
      }
    }

    /** `handleMatch`: only the tables change; the realtime conversation
        callback opens the call. */
    method HandleMatch(db: Store, requestId: string, conversationId: string, updateFault: bool, insertFault: bool)
      requires db.Valid()
      modifies db
      ensures db.Valid()
      ensures user.None? ==> db.Tables() == old(db.Tables())
      ensures user.Some? ==>
        db.Tables() == MatchEffect(old(db.Tables()), requestId, user.value.id, conversationId, updateFault, insertFault)
    {
      if user.None? {
        return;
      }
      var request := db.SelectRequest(requestId);
      if request.Some? && request.value.status == Active {
        var _ := db.UpdateRequestStatus(requestId, Matched, updateFault);
        var _ := db.InsertConversation(Conversation(conversationId, requestId, request.value.userId, user.value.id), insertFault);
      }
    }

    /** `sendMessage`: a blank input, no open conversation or no user does
        nothing; a message moderation rejects sets the warning and is not
        stored; otherwise the message is stored and the input cleared. */
    method SendMessage(db: Store, moderate: string -> Verdict, now: int, insertFault: bool)
      requires db.Valid()
      modifies this, db
      ensures db.Valid()
      ensures !CanSend(old(State())) ==> db.Tables() == old(db.Tables()) && State() == old(State())
      ensures CanSend(old(State())) && !moderate(old(newMessage)).isSafe ==>
        && db.Tables() == old(db.Tables())
        && State() == old(State()).(moderationError := Some(OrElse(moderate(old(newMessage)).reason, RejectionFallback)))
      ensures CanSend(old(State())) && moderate(old(newMessage)).isSafe ==>
        var m := MessageRow(old(activeConversationId).value, old(user).value.id, old(newMessage), now);
        && db.Tables() == (if insertFault then old(db.Tables()) else old(db.Tables()).WithMessage(m))
        && State() == old(State()).(moderationError := None, newMessage := "")
    {
      if !CanSend(State()) {
        return;
      }
      moderationError := None;
      var verdict := moderate(newMessage);
      if !verdict.isSafe {
        moderationError := Some(OrElse(verdict.reason, RejectionFallback));
        return;
      }
      var _ := db.InsertMessage(MessageRow(activeConversationId.value, user.value.id, newMessage, now), insertFault);
      newMessage := "";
    }

    /** `handleEndChat`: rate the partner first, then show the summary. */
    method HandleEndChat(db: Store, rating: Option<int>, summarize: seq<Line> -> Option<string>, updateFault: bool)
      requires db.Valid()
      modifies this, db
      ensures db.Valid()
      ensures db.Tables() == RatingEffect(old(db.Tables()), old(callPartner), rating, updateFault)
      ensures State() == old(State()).(summary := Some(OrElse(summarize(Transcript(old(messages), old(user))), SummaryFallback)),
                                       view := Summary)
    {
      if rating.Some? && rating.value != 0 && callPartner.Some? {
        var partner := db.SelectUser(callPartner.value.id);
        if partner.Some? {
          var _ := db.UpdateTrustScore(callPartner.value.id, Rated(partner.value.trustScore, rating.value), updateFault);
        }
      }
      var chatSummary := summarize(Transcript(messages, user));
      summary := Some(OrElse(chatSummary, SummaryFallback));
      view := Summary;
    }

    /** The realtime callback for an inserted `messages` row. The subscription
        exists only while a user is signed in (it is removed when `user`
        becomes null), so a signed-out client receives nothing. */
    method OnMessageInserted(m: MessageRow)
      modifies this
      ensures old(user).None? ==> State() == old(State())
      ensures old(user).Some? ==> State() == old(State()).(messages := Deliver(old(messages), old(activeConversationId), m))
    {
      if user.Some? && activeConversationId == Some(m.conversationId) {
        messages := messages + [m];
      }
    }

    /** The realtime callback for an inserted `conversations` row: if the user
        takes part and the partner's row is found, open the call and load the
        conversation's history. */
    method OnConversationInserted(db: Store, conv: Conversation)
      modifies this
      ensures CallFor(conv, old(user), db.users).None? ==> State() == old(State())
      ensures CallFor(conv, old(user), db.users).Some? ==>
        State() == old(State()).(callPartner := CallFor(conv, old(user), db.users),
                                 activeConversationId := Some(conv.id),
                                 view := Call,
                                 messages := History(db.messages, conv.id))
    {
      if user.Some? && (conv.user1Id == user.value.id || conv.user2Id == user.value.id) {
        var partnerId := if conv.user1Id == user.value.id then conv.user2Id else conv.user1Id;
        var partner := db.SelectUser(partnerId);
        if partner.Some? {
          callPartner := Some(Partner(partner.value.username, partner.value.avatar, partnerId));
          activeConversationId := Some(conv.id);
          view := Call;
          FetchMessages(db, conv.id);
        }
      }
    }
  }
}

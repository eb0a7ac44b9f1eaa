/** The two list queries both the server endpoints and the client run: the
    feed of open requests joined with their owners, and a conversation's
    message history. */
module Queries {
  import opened Schema
  import opened Query

  /** A feed entry: the request with its owner's username and avatar; both
      are absent when the owner has no row in `users`. */
  datatype FeedRow = FeedRow(request: Request, username: Option<string>, avatar: Option<string>)

  predicate IsActive(r: Request) {
    r.status == Active
  }

  /** Sort key for `order("created_at", { ascending: false })`. */
  function NewestFirst(r: Request): int {
    -r.createdAt
  }

  /** `requests` where status is 'active', newest first. */
  function ActiveRequests(requests: seq<Request>): (q: seq<Request>)
    ensures forall i, j :: 0 <= i < j < |q| ==> q[i].createdAt >= q[j].createdAt
    ensures forall r :: multiset(q)[r] == if r.status == Active then multiset(requests)[r] else 0
    ensures forall r :: r in q ==> r.status == Active && r in requests
  {
    var q := SortBy(Filter(requests, IsActive), NewestFirst);
    assert forall i, j :: 0 <= i < j < |q| ==> NewestFirst(q[i]) <= NewestFirst(q[j]);
    assert forall r :: r in q ==> r in multiset(q);
    q
  }

  /** The `users(username, avatar)` join, flattened onto the request. */
  function JoinOwner(r: Request, users: map<string, User>): (row: FeedRow)
    ensures row.request == r
    ensures row.username.Some? <==> r.userId in users
    ensures row.avatar.Some? <==> r.userId in users
    ensures r.userId in users ==>
      row.username == Some(users[r.userId].username) && row.avatar == Some(users[r.userId].avatar)
  {
    if r.userId in users then FeedRow(r, Some(users[r.userId].username), Some(users[r.userId].avatar))
    else FeedRow(r, None, None)
  }

  /** The active-requests feed: the rows of ActiveRequests, in its order, each
      carrying its owner's username and avatar. */
  function ActiveFeed(requests: seq<Request>, users: map<string, User>): (feed: seq<FeedRow>)
    ensures |feed| == |ActiveRequests(requests)|
    ensures forall i :: 0 <= i < |feed| ==> feed[i].request == ActiveRequests(requests)[i]
    ensures forall i, j :: 0 <= i < j < |feed| ==> feed[i].request.createdAt >= feed[j].request.createdAt
    ensures forall i :: 0 <= i < |feed| ==> (feed[i].username.Some? <==> feed[i].request.userId in users)
    ensures forall i :: 0 <= i < |feed| ==> (feed[i].avatar.Some? <==> feed[i].request.userId in users)
    ensures forall i :: 0 <= i < |feed| && feed[i].request.userId in users ==>
      feed[i].username == Some(users[feed[i].request.userId].username) &&
      feed[i].avatar == Some(users[feed[i].request.userId].avatar)
  {
    var q := ActiveRequests(requests);
    var feed := seq(|q|, i requires 0 <= i < |q| => JoinOwner(q[i], users));
    feed
  }

  /** A request just inserted as 'active' shows up in the feed. */
  lemma NewRequestInFeed(requests: seq<Request>, users: map<string, User>, r: Request)
    requires r.status == Active
    ensures exists i :: 0 <= i < |ActiveFeed(requests + [r], users)| && ActiveFeed(requests + [r], users)[i].request == r
  {
    var q := ActiveRequests(requests + [r]);
    assert multiset(requests + [r])[r] > 0;
    assert multiset(q)[r] > 0;
    assert r in q;
    var i :| 0 <= i < |q| && q[i] == r;
    assert ActiveFeed(requests + [r], users)[i].request == r;
  }

  /** A request that is no longer 'active' is absent from the feed. */
  lemma ClosedRequestNotInFeed(requests: seq<Request>, r: Request)
    requires r.status != Active
    ensures r !in ActiveRequests(requests)
  {
    assert multiset(ActiveRequests(requests))[r] == 0;
  }

  predicate InConversation(conversationId: string, m: MessageRow) {
    m.conversationId == conversationId
  }

  function OldestFirst(m: MessageRow): int {
    m.createdAt
  }

  /** `messages` where conversation_id matches, oldest first. */
  function History(messages: seq<MessageRow>, conversationId: string): (h: seq<MessageRow>)
    ensures forall i, j :: 0 <= i < j < |h| ==> h[i].createdAt <= h[j].createdAt
    ensures forall m :: multiset(h)[m] == if m.conversationId == conversationId then multiset(messages)[m] else 0
  {
    var h := SortBy(Filter(messages, m => InConversation(conversationId, m)), OldestFirst);
    assert forall i, j :: 0 <= i < j < |h| ==> OldestFirst(h[i]) <= OldestFirst(h[j]);
    h
  }
}

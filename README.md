# Zac: requests, matching, conversations and ratings in Dafny

Zac is a "voice discovery" app. A user posts a request (a wake-up call or a
topic to talk about). Another user matches it, which opens a conversation
between the two. They exchange moderated messages and, when the call ends,
rate each other and receive a summary of the chat.

This project models the core of that flow as it is written in `server.ts`
(the socket handlers and the rating and list endpoints) and in `src/App.tsx`
(the client's handlers and its two realtime callbacks). It then proves what
those handlers guarantee.

- `schema.dfy` (`Schema`): the rows of the four tables (`users`, `requests`,
  `conversations`, `messages`), after `src/types.ts`.
- `store.dfy` (`Store`): the tables as a value `Db`, and the class
  `Store.Store`, whose fields are the tables. Its methods are the reads and
  writes the handlers issue: select one request or user, update a status,
  insert a row, update a trust score. Every write takes `fault`, which means
  the store reported an error and wrote nothing. An insert whose primary key
  is already present is refused as well. `Db.Valid` states the primary keys,
  and every write keeps it.
- `query.dfy` (`Query`), `queries.dfy` (`Queries`): the two list queries.
  One is the feed of active requests, newest first, joined with each owner's
  username and avatar. The other is a conversation's history, oldest first.
  They are built from a generic `where` (`Filter`) and `order by` (`SortBy`,
  an insertion sort).
- `ledger.dfy` (`Ledger`): the trust-score read-modify-write
  `(trust_score || 100) + rating`.
- `server.dfy` (`Server`): `match_request`, `send_message` and
  `POST /api/users/rate`. Each is a pure step function (`MatchRequestStep`,
  `SendMessageStep`, `RateStep`) and a method on the `Store` proved equal to
  it. Whatever a handler emits on the socket is returned as an `Emission`
  with its audience.
- `text.dfy` (`Text`): JavaScript's `trim`, and `split('@')[0]`.
- `client.dfy` (`Client`): the class `Client.App`. It holds the component
  state the core handlers touch and has one method per handler and realtime
  callback. The pure functions `MatchEffect` and `RatingEffect` give each
  handler's effect on the tables.

Every handler is modelled as one atomic step. The source reads a request and
then writes it without a conditional update. The model does not claim that
handlers are safe when they run concurrently. `AtMostOneWinner` holds only
for attempts that are handled one after another.

Calls the model cannot see are inputs:
- the moderation verdict is a function `moderate: string -> Verdict`;
- the summary service is a function `summarize: seq<Line> -> Option<string>`;
- fresh request ids, `conv_${Date.now()}` conversation ids, the store's
  `created_at` timestamps (`now`) and the random avatar are parameters;
- the store's error replies are the `fault` flags.

The model follows the code, also where a design built around atomic matching
and server-side moderation would behave differently:
- `request_matched` goes to every socket (`io.emit`), not only to the two
  participants.
- `send_message` on the server does no moderation. Only the client moderates.
- The match is a read followed by a write, not a conditional update.
- If the conversation insert fails after the status update, the request is
  left `matched` with no conversation, and the server still emits
  `request_matched` (`MatchedWithoutConversation`).
- The client's `handleMatch` ignores the status update's error. A refused
  update therefore still inserts the conversation and leaves the request
  open (`RefusedUpdateAllowsSecondConversation`).

## Model

| member | source | states |
|---|---|---|
| Query.Filter | server.ts:64 | the result holds exactly the rows that satisfy the condition, each as often as in the table |
| Query.FilterOne | server.ts:64 | a single row is kept exactly when it satisfies the condition |
| Query.FilterCons | server.ts:64 | filtering a list decides its first row and then filters the rest |
| Query.FilterAppend | server.ts:64 | `where` keeps the table's order: filtering a concatenation is the concatenation of the filtered parts |
| Query.InsertBy | server.ts:65 | inserting into a list sorted by the key keeps it sorted and adds exactly that one element |
| Query.SortBy | server.ts:65 | `order by`: the result is sorted by the key and is a permutation of the input |
| Store.FindRequest | server.ts:131-135 | the selected request has the requested id and is a row of the table; nothing is returned exactly when no row has that id |
| Store.SetStatus | server.ts:140-143 | the update changes the status of the rows with that id and leaves every other row as it was |
| Store.FindAfterSetStatus | server.ts:140-143 | after the update, the request with that id is found with the new status |
| Store.FindOtherAfterSetStatus | src/App.tsx:326-329 | the status update leaves requests with other ids unchanged |
| Store.OpenMeansActiveRow | server.ts:137 | `Open` (`request && request.status === 'active'`): with unique ids, a request is open exactly when the table holds an `active` row with that id |
| Store.Store.constructor | src/lib/supabase.ts:1-13 | the store starts with four empty tables that satisfy the key invariant |
| Store.Store.SelectRequest | server.ts:131-135 | the `.single()` read of a request by id |
| Store.Store.SelectUser | server.ts:184 | the `.single()` read of a user by id: a row exactly when the id is in `users` |
| Store.Store.UpdateRequestStatus | server.ts:140-145 | succeeds unless the store reports an error, then sets the status and keeps the keys valid |
| Store.Store.InsertRequest | src/App.tsx:260-269 | succeeds exactly when there is no error and the id is new; appends the row |
| Store.Store.InsertConversation | server.ts:146-148 | succeeds exactly when there is no error and the id is new; adds the row under its id |
| Store.Store.InsertMessage | server.ts:119-121 | succeeds unless the store reports an error; appends the row |
| Store.Store.UpdateTrustScore | server.ts:186-189 | sets the user's score; an unknown id matches no row and is not an error |
| Store.Store.UpsertUser | src/App.tsx:108 | writes the user row under its id |
| Queries.ActiveRequests | server.ts:60-65 | the feed query returns exactly the `active` requests, each as often as in the table, newest first |
| Queries.JoinOwner | server.ts:70-74 | the flattened `users(username, avatar)` join: the row keeps its request, and username and avatar are the owner's, both missing exactly when the owner has no user row |
| Queries.ActiveFeed | server.ts:60-76 | the feed keeps the query's rows and order; each row carries its owner's username and avatar, and both are missing exactly when the owner has no user row |
| Queries.NewRequestInFeed | src/App.tsx:258-274 | a request inserted as `active` appears in the refreshed feed |
| Queries.ClosedRequestNotInFeed | src/App.tsx:180 | a request that is not `active` never appears in the feed |
| Queries.History | server.ts:168-177 | a conversation's history holds exactly that conversation's messages, each as often as stored, oldest first |
| Ledger.ScoreBase | server.ts:188 | `trust_score \|\| 100`: null and 0 read as 100, any other score as itself |
| Ledger.Rated | server.ts:188 | the score written back is the stored score plus the rating, or 100 plus the rating when the stored score is null or 0 |
| Ledger.ApplyRating | server.ts:184-189 | an unknown user leaves the tables as they are; a known user's row gets the rated score; the set of users is unchanged (the rest of its frame is `RatingTouchesOnlyThatUser`) |
| Ledger.RatingTouchesOnlyThatUser | server.ts:184-189 | a rating sets only the rated user's score, to base + rating; other users and the other tables are unchanged |
| Ledger.RatingsAdd | server.ts:188 | two ratings add up, except that a score that reaches 0 is read back as 100 |
| Ledger.UpThenDownRestores | src/App.tsx:372 | +1 then -1 restores the score exactly when it is set and is neither 0 nor -1 |
| Ledger.UpThenDownOnStore | server.ts:180-194 | +1 then -1 leaves the tables unchanged exactly when the user is unknown or their score is neither null, 0 nor -1 |
| Server.MatchRequestStep | server.ts:128-161 | nothing changes and nothing is emitted unless the request exists, is `active` and the update succeeds; then the status becomes `matched`, one conversation (owner as user1, matcher as user2) is inserted unless refused, and `request_matched` carries the request id, conversation id and both participants |
| Server.SendMessageStep | server.ts:117-126 | `new_message` with the unchanged payload goes to the conversation's room exactly when the insert succeeded |
| Server.Joined | server.ts:150-157 | `{ id, ...row }`: the participant has the id, and username and avatar exactly when the row was found, copied from it |
| Server.ParticipantOf | server.ts:150-157 | the participant for a user id: the id, with that user's username and avatar exactly when the id is in `users` |
| Server.RateStep | server.ts:180-194 | an unknown user changes nothing and gets 200; a failed update gets 500; otherwise the score becomes base + rating, the other tables are unchanged and the answer is 200 |
| Server.MatchRequest | server.ts:128-161 | the socket handler's reads and writes on the store produce exactly `MatchRequestStep` |
| Server.SendMessage | server.ts:117-126 | the socket handler produces exactly `SendMessageStep` |
| Server.RateUser | server.ts:180-194 | the endpoint produces exactly `RateStep` |
| Server.SecondMatchIsNoOp | server.ts:137 | after a match that emitted its event, a second `match_request` on the same request changes nothing and emits nothing |
| Server.ClosedRequestIgnoresMatches | server.ts:137 | against a request that is missing or not `active`, any run of attempts is a no-op |
| Server.MatchStepCloses | server.ts:137-158 | one `match_request` either changes nothing and emits nothing, or closes the request and adds at most the attempt's conversation for it |
| Server.AtMostOneWinner | server.ts:128-161 | attempts handled one after another emit at most one `request_matched` and add at most one conversation for the request |
| Server.MatchedWithoutConversation | server.ts:145-158 | a conversation insert refused by an error or a taken id leaves the request `matched`, adds no conversation for it, and the event still names the refused conversation id |
| Server.SameMillisecondMatches | server.ts:139-158 | two requests matched with the same `conv_${Date.now()}` id: the second is left `matched` with no conversation, and its event names the first request's conversation |
| Server.HandlersKeepKeys | server.ts:117-194 | every server handler keeps the tables' primary keys valid |
| Text.TrimStart | src/App.tsx:346 | strips exactly the leading white space |
| Text.TrimEnd | src/App.tsx:346 | strips exactly the trailing white space |
| Text.Trim | src/App.tsx:346 | `trim()` removes a blank prefix and a blank suffix, and what is left neither starts nor ends with white space |
| Text.TrimEmptyIffBlank | src/App.tsx:346 | `!newMessage.trim()` holds exactly when every character is white space |
| Text.BeforeAt | src/App.tsx:104 | `split('@')[0]`: the longest prefix without '@', followed by '@' when shorter than the input |
| Client.DefaultUsername | src/App.tsx:104 | the email's local part, or `user` when there is no email or the local part is empty; never empty and never contains '@' |
| Client.OrElse | src/App.tsx:351 | `text \|\| fallback`, used for `mod.reason \|\| "Inappropriate content detected."` (line 351) and `chatSummary \|\| "Conversation ended."` (line 382): the text when it is present and non-empty, the fallback otherwise, so never empty |
| Client.Transcript | src/App.tsx:378-381 | one line per message in order, marked Me exactly when the signed-in user sent it |
| Client.PartnerOf | src/App.tsx:149-150 | a partner exactly when the user is user1 or user2; the partner is the other participant |
| Client.Deliver | src/App.tsx:129-135 | one callback keeps the earlier messages and appends at most one row, which is the incoming one, exactly when it belongs to the active conversation |
| Client.DeliverAll | src/App.tsx:129-135 | a stream of callbacks keeps the earlier messages and adds at most one row per incoming message (the exact result is `DeliverAllAppendsInOrder`) |
| Client.DeliverAllAppendsInOrder | src/App.tsx:127-136 | the message callback keeps the earlier messages and appends exactly the rows of the active conversation, in arrival order |
| Client.MatchEffect | src/App.tsx:313-343 | no change unless the request is `active`; then the status becomes `matched` (unless the update is refused) and the conversation with owner and matcher is inserted (unless refused); users and messages are unchanged |
| Client.MatchTouchesOnlyThatRequest | src/App.tsx:326-329 | a successful match leaves that request `matched` and every other request as it was |
| Client.SecondMatchIsNoOp | src/App.tsx:322 | after a match whose update succeeded, matching the same request again changes nothing |
| Client.ClosedRequestIgnoresMatches | src/App.tsx:322 | against a request that is missing or not `active`, any run of matches is a no-op |
| Client.MatchAddsAtMostOneConversation | src/App.tsx:332-339 | one match adds at most one conversation for the request |
| Client.InsertedConversation | src/App.tsx:332-339 | an accepted insert adds exactly the new conversation id to the request's conversations |
| Client.AtMostOneConversation | src/App.tsx:313-343 | while every status update succeeds, a run of matches adds at most one conversation for the request |
| Client.RefusedUpdateAllowsSecondConversation | src/App.tsx:326-339 | with the first update refused, two users each get a conversation for the same request |
| Client.CallFor | src/App.tsx:149-155 | a call opens exactly when the user takes part and the partner's user row is found; its partner is the other participant, with the username and avatar of that row |
| Client.MatchReachesBothParticipants | src/App.tsx:147-160 | the inserted conversation opens the call for the owner (partner: matcher) and for the matcher (partner: owner), each when the other's user row exists, and for no other user |
| Client.UnratedEndKeepsScores | src/App.tsx:367 | ending with no rating or a rating of 0 leaves every score unchanged |
| Client.RatingEffect | src/App.tsx:367-375 | a non-zero rating for a known partner, when the update is not refused, sets the partner's score to `(trust_score \|\| 100) + rating`; without a partner or when the update is refused nothing changes; no other user's row, the set of users or the other tables change |
| Client.CanSend | src/App.tsx:346 | `sendMessage` goes ahead exactly when the trimmed input is not empty, a non-empty conversation id is active and a user is signed in |
| Client.App.constructor | src/App.tsx:34-50 | the component starts signed out, on the onboarding view, with empty lists and no conversation |
| Client.App.SyncUser | src/App.tsx:89-112 | a known user is loaded as is; an unknown one is created with the default username, the given avatar and score 100; either way the view becomes the feed |
| Client.App.FetchRequests | src/App.tsx:176-191 | the feed becomes the active-requests query with owners joined |
| Client.App.FetchMessages | src/App.tsx:225-240 | the message list becomes the conversation's history, oldest first |
| Client.App.CreateRequest | src/App.tsx:258-275 | without a user nothing happens; otherwise an `active` request owned by the user is inserted and, only if the insert succeeded, the feed is refreshed |
| Client.App.HandleMatch | src/App.tsx:313-343 | without a user nothing changes; otherwise the tables change exactly as `MatchEffect` with the user as matcher, and the component state is untouched |
| Client.App.SendMessage | src/App.tsx:345-364 | a blank input, no conversation (or an empty conversation id) or no user changes nothing; a rejected message stores nothing and sets the warning; otherwise the message is stored as typed and the input is cleared, even if the insert failed |
| Client.App.HandleEndChat | src/App.tsx:366-385 | the rating goes to the partner first (`RatingEffect`); then the summary (or its fallback) is shown and the view becomes `summary` |
| Client.App.OnMessageInserted | src/App.tsx:114-136 | while a user is signed in (the only time the subscription exists), an inserted message is appended exactly when it belongs to the active conversation; a signed-out client is unchanged |
| Client.App.OnConversationInserted | src/App.tsx:147-160 | only a conversation the user takes part in, with a known partner, opens the call: partner, active conversation, `call` view and its history |

## Left out

- Concurrency: handlers are atomic steps. Two matchers interleaving the read and the write in `server.ts:131-143` or `src/App.tsx:316-329` are not modelled, and no result claims such interleavings are safe.
- Rendering, animation, modals (`showCreateModal`, `isSummarizing`), the call timer, scrolling, muting and navigation in `src/App.tsx`: these are UI, not core logic.
- Authentication and the session listener (`supabase.auth`, `src/App.tsx:68-87`): they come from a library. `SyncUser` takes the account's id and email as inputs.
- Blogs and posts (`src/App.tsx:193-223, 277-311`, `server.ts:79-107`): plain create and list operations with no rules.
- `handleOnboarding`, `POST /api/users`, `POST /api/requests`, `/api/health`, `join_conversation` and `disconnect`: these are plain inserts or socket plumbing outside the matching core. Room membership is represented only by the `Room` audience of an emission.
- The moderation, summary and icebreaker services (`src/services/geminiService.ts`): they are outside the model. Their answers, including the service's own fallbacks, are the oracle inputs.
- Read errors: every select is modelled as succeeding. On a failed list query the source leaves the old list in place, and the model does not represent that case.
- Timestamps: ISO `created_at` strings are integers here. The order of rows with equal timestamps is not specified by the model's contracts, and the store's order for them is not modelled.
- JavaScript numbers: ratings and scores are integers. NaN, fractions and a missing `rating` in the request body are not modelled.
- `Conversation.status` and `Request.username`/`avatar` as stored fields: the core never writes them. The feed's joined owner fields are `FeedRow.username`/`avatar`.
- Subscription lifetime: the realtime callbacks read the current `activeConversationId`, which is what the effect's re-subscription on every change achieves. The un-awaited `fetchMessages` in the conversation callback is part of the callback's single step.
- Queries.ActiveFeed: its contract ties each row to `ActiveRequests` rather than restating that the request is `active` and stored. Those facts are in `Queries.ActiveRequests`.

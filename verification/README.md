# allinai store transitions in Dafny

This project models the logic under the HTTP handlers of the allinai Go
service: the chat session/message store with its statistics roll-up, the
topic chat, the subscription catalogue with per-user membership links, the
system recommendation catalogue, the e-mail/phone verification validators,
the one-time setup wizard and the first-use flag.

Every handler is a pure function from (store, caller, validated input,
outcomes of the I/O it performs) to `Reply(store', result)`. Tables are
sequences of rows in primary-key order. A soft delete sets `status` to 0.
Wherever rows are never hard-deleted, a row's id equals its position plus
one (`IdsArePositions`). The clock, UUIDs, random picks, generated
verification codes, the e-mail validator and whether each database write
succeeds are parameters of the functions that use them.

Modules, which follow the Go files:

- `Results` (`results.dfy`): `Option`, `Result`, the error kinds and
  `Reply`.
- `Query` (`query.dfy`): the GORM primitives every handler is built from.
  - The pagination clamp (page below 1 becomes 1; a size outside 1..100
    takes the handler's default).
  - `Offset`/`Limit`: an offset is applied only when positive, a limit only
    when non-negative.
  - `WHERE` filters and `UPDATE ... WHERE`.
  - `ORDER BY` as a stable sort on a three-part descending key.
  - Sums, and a listing that counts and pages the same filtered rows.
- `Text` (`text.dfy`): substring search (`LIKE '%k%'`), `strings.Split`
  and Go's byte length of a string.
- `ChatModel`/`ChatApi`: `model/chat_*.go` and `controller/chat_*.go`.
- `SubscriptionModel`/`SubscriptionApi`: `model/subscription.go` and
  `controller/subscription.go`.
- `TopicModel`/`TopicApi`: `model/topic.go` and `controller/topic.go`.
- `RecommendationModel`/`RecommendationApi`:
  `model/system_recommendation.go` and
  `controller/system_recommendation.go`.
- `Verification`: the verification endpoints of `controller/misc.go`.
- `SetupModel`: `controller/setup.go` and `model/user_first_use.go`.

Points where the model follows the code rather than the repository's tests
or comments:

- The setup wizard limits the root username with Go's `len`, which counts
  bytes, while its message speaks of 12 characters. Five CJK characters are
  therefore refused (`SetupModel.WideUsernameRefused`).
- The recommendation search rejects an empty keyword. It also reads the
  keyword from the query string. The repository's tests expect an empty
  keyword to succeed and send the keyword in the request body. The model
  follows the handler.
- The legacy subscription flow in the controller reads `sub.UserID`, which
  `model.Subscription` does not have. The owner is modelled as
  `CreateUserID`. Its reactivation lookup (controller/subscription.go:102)
  is modelled as a lookup by `create_user_id`.
- `ChatSession.BeforeCreate`/`BeforeUpdate` do not have GORM's hook
  signature, so they never run. A new session keeps zero timestamps.

## Model

| member | source | states |
|---|---|---|
| Query.ClampPage | controller/subscription.go:24-26 | the page is at least 1; a page of at least 1 is kept and any other becomes 1 |
| Query.ClampSize | controller/subscription.go:27-29 | the size lies in 1..100; an in-range size is kept and any other becomes the handler's default |
| Query.ClampIsIdempotent | controller/chat_message.go:276-281 | clamping an already clamped page or size changes nothing |
| Query.Window | model/chat_message.go:84-89 | at most `limit` rows when the limit is non-negative, all drawn from the input; no offset and no limit returns every row |
| Query.WindowIsSlice | model/chat_message.go:84-89 | with a non-negative offset and limit the page is the slice [offset, offset+limit) cut to the table |
| Query.PagesTile | model/chat_message.go:84-89 | pages 1..n laid end to end are exactly the first n·size rows: paging neither skips nor repeats a row |
| Query.PageOf | model/chat_message.go:77-91 | the count covers the whole matching set and the page is a window of that set in key order, holding only matching rows |
| Query.FilterOfFilter | model/chat_message.go:182-185 | filtering the rows one condition kept by a second one equals one WHERE clause joining both with AND |
| Query.SortDesc | model/system_recommendation.go:38-43 | the result is sorted by the key and is a permutation of the input |
| Query.SortedIsUnique | model/system_recommendation.go:38-43 | when the major keys are distinct, the key order admits exactly one sorted permutation |
| Text.ContainsIffOccurs | model/chat_session.go:182-185 | a `LIKE '%k%'` match holds exactly when k occurs at some position |
| Text.Split | controller/misc.go:169 | `strings.Split` gives at least one part |
| Text.SplitJoin | controller/misc.go:169-176 | joining the parts with the separator gives back the input, and no part contains the separator |
| Text.SplitInTwo | controller/misc.go:169-176 | the split has exactly two parts iff the separator occurs once, and then the input is part 0, the separator, part 1 |
| Text.SplitAround | controller/misc.go:169-176 | splitting a + "@" + b, with no "@" in a or b, gives exactly [a, b] |
| Text.ByteLen | controller/setup.go:81 | Go's byte length is at least the number of characters, and equal to it for ASCII text |
| ChatModel.FindSession | model/chat_session.go:71-73 | finds a row with that session_id, and finds nothing exactly when no row has it |
| ChatModel.FindMessage | model/chat_message.go:68-70 | finds the first row with that message_id, and nothing exactly when none has it |
| ChatModel.UserSessionIds | model/chat_message.go:114-118 | the set of session ids of the user's sessions whose deleted_at is null, both directions |
| ChatModel.GetSessionAllMessages | model/chat_message.go:95-101 | exactly the session's live messages, each once, oldest first |
| ChatModel.GetSessionMessages | model/chat_message.go:73-92 | the count and the page use the same filter; the page is the window at (page-1)·size of the oldest-first order, at most size long |
| ChatModel.DeleteSessionMessages | model/chat_message.go:104-106 | afterwards a message remains exactly when it belongs to another session; sessions are untouched |
| ChatModel.GetUserMessages | model/chat_message.go:109-131 | only live messages of the user's live sessions, newest first; the count uses the same filter |
| ChatModel.SearchMessages | model/chat_message.go:134-161 | the user filter plus content containing a non-empty keyword; the count uses the same filter; the page is a window of the matching messages, newest first |
| ChatModel.GetErrorMessages | model/chat_message.go:298-320 | only status-2 live messages of the user's live sessions; the count uses the same filter; the page is a window of those messages, newest first |
| ChatModel.StatsOf | model/chat_message.go:176-208 | each role count is the number of rows with that role and at most the total; tokens and cost are the sums over the rows; an average exists exactly when the total is positive |
| ChatModel.GetMessageStats | model/chat_message.go:164-219 | the total, token sum and cost sum are over the session's live messages; the user, assistant and system counts are the session's live messages with that role, and sum to at most the total |
| ChatModel.SessionRoleCount | model/chat_message.go:182-195 | counting the role among the session's live messages equals the one WHERE clause joining session, role and liveness |
| ChatModel.RolesCoverAll | model/chat_message.go:181-195 | when every row has one of the three roles, the three role counts add up to the number of rows |
| ChatModel.SessionRolesAddUp | model/chat_message.go:175-195 | when every live message of the session has a known role, the three role counts of the statistics add up to its total |
| ChatModel.GetUserMessageStats | model/chat_message.go:222-280 | the same statistics over the live messages of the user's live sessions: each role count is the messages with that role there, tokens and cost are their sums |
| ChatModel.UserRoleCount | model/chat_message.go:222-280 | counting the role among the user's live messages equals the one WHERE clause joining user, role and liveness |
| ChatModel.RolesPartition | model/chat_message.go:181-195 | the user, assistant and system counts never add up to more than the rows counted |
| ChatModel.BeforeCreateMessage | model/chat_message.go:31-39 | only the two timestamps may change; each is set to the clock exactly when it was zero |
| ChatModel.BeforeUpdateMessage | model/chat_message.go:42-45 | only updated_time changes, and it becomes the clock |
| ChatModel.CreateHookIdempotent | model/chat_message.go:31-39 | once the clock is non-zero, running the create hook again changes nothing |
| ChatModel.GetUserSessions | model/chat_session.go:76-95 | the user's live sessions by last activity, newest first; the count uses the same filter |
| ChatModel.GetUserActiveSessions | model/chat_session.go:98-104 | exactly the user's live status-1 sessions, newest activity first |
| ChatModel.SearchUserSessions | model/chat_session.go:177-201 | the user's live sessions whose topic contains a non-empty keyword; the count uses the same filter; the page is a window of those sessions, most recently updated first |
| ChatModel.DeleteUserSession | model/chat_session.go:107-110 | removes exactly the rows matching both user and session id; keeps the session_id index unique |
| ChatModel.DeleteUserAllSessions | model/chat_session.go:113-115 | removes exactly the user's sessions and no other user's; messages stay |
| ChatModel.FilterKeepsSessionIdsUnique | model/chat_session.go:11 | deleting session rows never breaks the unique index on session_id |
| ChatModel.StampWhere | model/chat_session.go:118-128 | rows with that session_id get the new statistics; all other rows are unchanged |
| ChatModel.UpdateSessionStats | model/chat_session.go:118-128 | only the five statistics columns of that session's rows change, to the given values |
| ChatModel.GetUserSessionStats | model/chat_session.go:131-174 | the total counts the user's live sessions and the active count those with status 1, at most the total; messages, tokens and cost are the sums of the sessions' counters; the average exists exactly when the total is positive |
| ChatModel.AllActiveIff | model/chat_session.go:141-151 | the active count equals the total exactly when every live session of the user has status 1 |
| ChatModel.Recompute | controller/chat_message.go:54-63 | afterwards the session's stored totals equal the count and token and cost sums of its live messages; other sessions are unchanged |
| ChatApi.OwnedSession | controller/chat_session.go:72-81 | not found exactly when no row has the id; success only for the caller's own session |
| ChatApi.ForbiddenMeansForeign | controller/chat_session.go:72-81 | under the unique index, forbidden is answered exactly when the session belongs to someone else |
| ChatApi.CreateChatSession | controller/chat_session.go:15-64 | the new session is the caller's, status 1, zero totals and zero timestamps; topic and model are required |
| ChatApi.GetChatSession | controller/chat_session.go:67-105 | returns the caller's own session with that id, else the ownership error |
| ChatApi.UpdateChatSession | controller/chat_session.go:108-160 | after the ownership check only the topic changes |
| ChatApi.DeleteChatSession | controller/chat_session.go:163-196 | ownership first; the session is deleted and then its messages; a failed message delete leaves the messages and reports failure |
| ChatApi.DeleteCascades | controller/chat_session.go:180-190 | after a successful delete, no session and no message with that session_id remains, and nothing else is removed |
| ChatApi.ListUserSessions | controller/chat_session.go:199-251 | clamped page and size (default 10) passed to the session listing |
| ChatApi.SearchSessions | controller/chat_session.go:312-365 | clamped page and size (default 10) passed to the session search |
| ChatApi.DeleteAllSessions | controller/chat_session.go:368-381 | removes exactly the caller's sessions; messages are not touched |
| ChatApi.DeleteAllHidesMessages | model/chat_message.go:114-118 | after deleting all sessions the user's message and session listings are empty, though the messages remain stored |
| ChatApi.EmptySessionSearch | model/chat_session.go:182-185 | an empty keyword gives the same result as the plain listing |
| ChatApi.RollUp | controller/chat_message.go:54-63 | when the best-effort recompute runs the session totals become consistent; otherwise the store is unchanged |
| ChatApi.NewMessageRow | controller/chat_message.go:36-46 | the inserted row copies the request, status 0 becomes 1, and both timestamps are the clock |
| ChatApi.CreateChatMessage | controller/chat_message.go:15-86 | no insert unless the request is complete and the caller owns the session; then exactly one row is appended and the roll-up runs |
| ChatApi.OwnedMessage | controller/chat_message.go:144-159 | ownership is derived through the message's session; not found when no message has the id |
| ChatApi.GetChatMessage | controller/chat_message.go:89-130 | returns the message only when the caller owns its session |
| ChatApi.EditedRow | controller/chat_message.go:162-166 | content, tokens, cost, status and error text change; id, session, message id, role and creation time do not |
| ChatApi.UpdateChatMessage | controller/chat_message.go:133-206 | ownership before the write; one row is replaced by the edited row; the roll-up runs over the post-write rows |
| ChatApi.DeleteChatMessage | controller/chat_message.go:209-254 | ownership before the write; exactly that row is removed; the roll-up runs over the remaining rows |
| ChatApi.ListSessionMessages | controller/chat_message.go:257-319 | ownership first, then clamped page and size (default 20) |
| ChatApi.ListUserMessages | controller/chat_message.go:322-372 | clamped page and size (default 20) passed to the user listing |
| ChatApi.SearchUserMessages | controller/chat_message.go:375-426 | clamped page and size (default 20) passed to the message search |
| ChatApi.ListErrorMessages | controller/chat_message.go:495-545 | clamped page and size (default 20) passed to the failed-message listing |
| ChatApi.SessionMessageStats | controller/chat_message.go:429-465 | ownership first, then the session's statistics |
| ChatApi.EmptyMessageSearch | model/chat_message.go:142-146 | an empty keyword gives the same result as the plain user listing |
| ChatApi.CreateIsIncrement | controller/chat_message.go:54-63 | on a consistent session, recomputing after an insert is the same as adding one message and its tokens and cost |
| ChatApi.CreateKeepsOtherRollups | controller/chat_message.go:15-86 | a create in one session keeps every other session's totals consistent |
| ChatApi.UpdateKeepsOtherRollups | controller/chat_message.go:133-206 | an update in one session keeps every other session's totals consistent |
| ChatApi.DeleteKeepsOtherRollups | controller/chat_message.go:209-254 | a delete in one session keeps every other session's totals consistent |
| ChatApi.SameRowsOutside | controller/chat_message.go:54-63 | a session whose live messages and row keys did not change stays consistent |
| SubscriptionModel.ViewOf | model/subscription.go:79-82 | the article count is the number of live articles of the subscription |
| SubscriptionModel.GetSubscriptionById | model/subscription.go:88-98 | found exactly when a row has the id, whatever its status, with its live-article count |
| SubscriptionModel.GetSubscriptionByTopicName | model/subscription.go:310-318 | found exactly when an active row carries the topic |
| SubscriptionModel.CheckSubscriptionExists | model/subscription.go:123-129 | true exactly when the user owns an active row for the topic |
| SubscriptionModel.GetUserSubscriptions | model/subscription.go:56-85 | as written: only the owner's status-1 rows, each with its live-article count; the count uses the same filter; the page is a window of those rows, newest first |
| SubscriptionModel.ListOwnSubscriptions | model/subscription.go:60-66 | corrected: all of the owner's rows, cancelled ones included, as the comments promise; the page is a window of them, newest first |
| SubscriptionModel.Views | model/subscription.go:79-82 | one view per row, in order |
| SubscriptionModel.GetSubscriptionArticles | model/subscription.go:139-160 | the subscription's live articles, newest published first; the count uses the same filter |
| SubscriptionModel.GetUserSubscriptionsByUserId | model/subscription.go:269-293 | membership rows through the join, newest first; on a valid store only active links to active subscriptions |
| SubscriptionModel.GetUserSubscriptionArticles | model/subscription.go:407-432 | the feed through the join, newest first; on a valid store only articles the user may see |
| SubscriptionModel.MembershipRowsWhenValid | model/subscription.go:274-290 | on a valid store the join yields exactly the user's active links to active subscriptions |
| SubscriptionModel.FeedRowsWhenValid | model/subscription.go:411-428 | on a valid store the feed join yields exactly the visible live articles |
| SubscriptionModel.MembershipRowsAreLinks | model/subscription.go:274-290 | the unique indexes make the join a plain filter of the link table |
| SubscriptionModel.FeedRowsAreVisible | model/subscription.go:411-428 | the unique indexes make the feed join a plain filter of the article table |
| SubscriptionModel.SubscriptionRowsAtMostOne | model/subscription.go:8-20 | with keys as positions at most one active row has a given id |
| SubscriptionModel.LinkRowsAtMostOne | model/sqlite_hooks.go:148 | the (user, subscription) index allows at most one active link per pair |
| SubscriptionModel.CreateSubscription | model/subscription.go:101-103 | insert succeeds exactly when the (creator, topic) index has no such row; the new row, with the next key, the caller, topic, description and clock, is appended with status 1 |
| SubscriptionModel.DeleteSubscription | model/subscription.go:111-113 | only that id's status becomes 0; afterwards it is not active |
| SubscriptionModel.CancelSubscription | model/subscription.go:116-120 | only the row with that id and that creator gets status 0 |
| SubscriptionModel.ReactivateSubscription | model/subscription.go:132-136 | only the creator's cancelled rows for the topic get status 1 |
| SubscriptionModel.SaveSubscription | model/subscription.go:106-108 | the row with that key is overwritten whole; others unchanged |
| SubscriptionModel.CancelUserSubscription | model/subscription.go:296-300 | every link of the pair gets status 0 whatever its status, none is removed, and the user is no longer a member |
| SubscriptionModel.ReactivateUserSubscription | model/subscription.go:303-307 | only the pair's links at status 0 become 1; all other rows unchanged |
| SubscriptionModel.CreateSubscriptionWithUserRelation | model/subscription.go:321-404 | on success the user is a member of the returned active subscription, with at most one new subscription and one new link, and no membership row of another (user, subscription) pair changes; on failure nothing is written; the unique indexes are kept |
| SubscriptionModel.JoinSubscription | model/subscription.go:337-373 | for an existing subscription: an active first link leaves the store unchanged; a link of any other status is set to status 1 in place; with no link exactly one active link, numbered after the last row and stamped now, is appended; rows of other (user, subscription) pairs never change |
| SubscriptionModel.CreateSharedSubscription | model/subscription.go:376-403 | a new shared row (creator 0, status 1) plus one active link, or nothing at all |
| SubscriptionModel.SubscribeIsIdempotent | model/subscription.go:337-343 | subscribing again returns the same subscription and writes nothing |
| SubscriptionModel.JoinTwiceWritesNothing | model/subscription.go:337-373 | joining an existing subscription a second time writes nothing and returns it again |
| SubscriptionModel.JoinAfterShared | model/subscription.go:321-343 | right after a new shared subscription and its link are inserted, the flow for the same user and topic finds both and writes nothing |
| SubscriptionModel.SubscribeOpensFeed | model/subscription.go:407-432 | after subscribing, every live article of the subscription is in the user's feed |
| SubscriptionModel.CancelIsIdempotent | model/subscription.go:296-300 | cancelling twice is cancelling once |
| SubscriptionModel.ReactivateUndoesCancel | model/subscription.go:303-307 | on active links, reactivating after cancelling restores the store |
| SubscriptionModel.ReactivateRestoresMembership | model/subscription.go:303-307 | afterwards the user is a member iff some link of the pair had status 0 or 1 and the subscription is active |
| SubscriptionModel.DeleteHidesArticles | model/subscription.go:411-428 | after a soft delete none of its articles is visible to any user |
| SubscriptionModel.CancelKeepsOthers | model/subscription.go:296-300 | membership of every other (user, subscription) pair is unchanged |
| SubscriptionModel.SoftDeletedTopicBlocksSubscribe | model/subscription.go:376-399 | once the shared row of a topic is soft-deleted, nobody can subscribe to it again: the unique index refuses the second row |
| SubscriptionModel.ReactivateThenExists | controller/subscription.go:98-120 | after reactivation the existence check passes iff the owner had an active or cancelled row for the topic |
| SubscriptionApi.OwnedSubscription | controller/subscription.go:179-195 | not found exactly when no row has the id; forbidden only for someone else's row; success only for the owner |
| SubscriptionApi.OneRowPerId | model/subscription.go:8-20 | with keys as positions the row with an id is unique |
| SubscriptionApi.ListSubscriptions | controller/subscription.go:17-64 | clamped page and size (default 10) echoed; as written, the count and the page cover only the caller's status-1 rows, newest first |
| SubscriptionApi.ListSubscriptionsCorrected | controller/subscription.go:17-64 | the same endpoint over the corrected listing: the count and the page cover all of the caller's rows |
| SubscriptionApi.CreateSubscription | controller/subscription.go:67-155 | a duplicate active (caller, topic) is refused; otherwise either the store becomes exactly the reactivated store, or exactly one active row with the next key is appended and every earlier row is unchanged; afterwards the caller has an active row for the topic; a failure writes nothing |
| SubscriptionApi.ReactivateWithoutRowIsNoop | controller/subscription.go:98-104 | when the lookup after the reactivation finds no (caller, topic) row, the reactivation wrote nothing |
| SubscriptionApi.ReactivatedRowIsActive | controller/subscription.go:98-120 | every (caller, topic) row is active after the reactivation step |
| SubscriptionApi.UpdateSubscription | controller/subscription.go:158-212 | ownership before the write; only the description of that row changes |
| SubscriptionApi.ReactivateEndpoint | controller/subscription.go:242-285 | ownership before the write; afterwards the subscription is active |
| SubscriptionApi.ReactivateEndpointActivates | controller/subscription.go:242-285 | on an owned row the reactivation leaves exactly that id active |
| SubscriptionApi.DeleteEndpoint | controller/subscription.go:288-330 | ownership before the soft delete; afterwards the id is not active |
| SubscriptionApi.ArticlesEndpoint | controller/subscription.go:333-408 | ownership first; the page is the window at the clamped page and size of the subscription's live articles, latest publication first |
| SubscriptionApi.CancelAsWritten | controller/subscription.go:215-239 | as written: succeeds whenever the write succeeds, with no existence or ownership check |
| SubscriptionApi.CancelEndpoint | controller/subscription.go:215-239 | corrected: not found, forbidden and not active are reported; success cancels the caller's row |
| SubscriptionApi.CancelAsWrittenAcceptsForeign | controller/subscription.go:226-238 | cancelling a foreign or missing id reports success and changes nothing |
| SubscriptionApi.CancelEndpointRefinesAsWritten | controller/subscription.go:226-238 | the corrected handler refuses the foreign id, and its successes are the as-written ones |
| SubscriptionApi.CreateTwiceIsRefused | controller/subscription.go:80-95 | a second create for the same topic is refused as already subscribed and writes nothing |
| SubscriptionApi.CancelThenCreateReactivates | controller/subscription.go:98-120 | after cancelling, creating the same topic reactivates the old row instead of inserting |
| SubscriptionApi.CancelledRowFoundAgain | controller/subscription.go:98-104 | after the owner cancels a row, the reactivation's lookup finds that same row first, under its old key |
| SubscriptionApi.CancelClearsTopic | model/subscription.go:116-120 | after the owner cancels their row for a topic, the duplicate check finds no active row and the (creator, topic) index stays unique |
| SubscriptionApi.CreateAnswersReactivated | controller/subscription.go:98-120 | the create answer is the id of the reactivated row |
| SubscriptionApi.SameKeysUnique | model/sqlite_hooks.go:145 | a status-only change keeps the (creator, topic) index unique |
| SubscriptionApi.UniqueOwnedTopicRow | model/sqlite_hooks.go:145 | under the index the (creator, topic) row is the only one and the first found |
| SubscriptionApi.CancelledRowListedOnlyByOwnerListing | model/subscription.go:56-85 | a cancelled row is in the corrected listing but not in the as-written one, and the endpoint as written reports a strictly smaller total than the corrected one |
| TopicModel.ViewOf | model/topic.go:70-73 | the message count is the number of the topic's status-1 messages |
| TopicModel.Views | model/topic.go:70-73 | one view per topic, in order |
| TopicModel.GetUserTopics | model/topic.go:47-74 | only the user's status-1 topics, each with its live-message count; the page is a window of them, newest first |
| TopicModel.GetUserTopicsUnlimited | model/topic.go:58-63 | with no offset and a negative limit every live topic of the user is returned |
| TopicModel.GetTopicById | model/topic.go:77-88 | found exactly when an active topic has the id; a status-0 topic is not found |
| TopicModel.CreateTopic | model/topic.go:91-93 | appends one row; model, channel and status take their column defaults when zero |
| TopicModel.DeleteTopic | model/topic.go:96-99 | only the topic's status becomes 0; messages are untouched |
| TopicModel.GetTopicMessages | model/topic.go:102-123 | the topic's status-1 messages oldest first; the count uses the same filter |
| TopicModel.CreateMessage | model/topic.go:126-128 | appends the message with the next id and the status default |
| TopicModel.GenerateAIResponse | model/topic.go:131-156 | a non-empty topic prefixes the quoted topic name; the reply ends in one of the canned lines, and is that line alone when there is no topic |
| TopicModel.ReplyQuotesTopic | model/topic.go:146-155 | the reply contains the topic name in double quotes |
| TopicModel.DeleteHidesTopic | model/topic.go:81-86 | after a delete the topic is not found and messages are unchanged |
| TopicModel.DeleteKeepsOthers | model/topic.go:96-99 | every other topic's lookup is unchanged |
| TopicApi.ListTopics | controller/topic.go:12-33 | only the caller's live topics, as a window newest first; page and size pass unclamped |
| TopicApi.NegativePageSizeListsAll | controller/topic.go:14-15 | a negative page size on page 1 lists every live topic |
| TopicApi.CreateTopicEndpoint | controller/topic.go:36-83 | the name is required; an empty model and channel 0 take their defaults; the caller owns the new active topic |
| TopicApi.OwnedTopic | controller/topic.go:98-113 | not found exactly when no active topic has the id, then forbidden for another user |
| TopicApi.DeleteTopicEndpoint | controller/topic.go:86-128 | ownership before the delete; afterwards the topic is not found |
| TopicApi.TopicMessagesEndpoint | controller/topic.go:131-179 | ownership first; the page is the window of the topic's status-1 messages, oldest first, at the page and size as given, unclamped |
| TopicApi.CreateMessageEndpoint | controller/topic.go:182-274 | ownership and content first; the caller's message (role default "user") then the assistant reply; a failed second insert keeps the first |
| TopicApi.PostAddsTwoMessages | controller/topic.go:230-264 | a successful post raises the topic's message count by exactly two |
| TopicApi.PostReplyQuotesTopic | controller/topic.go:246-256 | the stored reply quotes the topic name |
| TopicApi.DeletedTopicIsClosed | model/topic.go:81-86 | after a delete nobody can list the topic's messages |
| RecommendationModel.List | model/system_recommendation.go:25-46 | only status-1 rows, by sort order, then subscriptions, then creation, all descending; the count uses the same filter |
| RecommendationModel.Search | model/system_recommendation.go:49-74 | status-1 rows whose title, description or category contains the keyword, in the same order |
| RecommendationModel.SearchWithinList | model/system_recommendation.go:54-72 | a search never counts more than the listing, and the empty keyword gives the listing |
| RecommendationModel.GetById | model/system_recommendation.go:77-84 | found exactly when an active row has the id; status-0 rows are not found |
| RecommendationModel.Create | model/system_recommendation.go:87-89 | appends the row with the next id and status default 1; other fields as given; keys stay positions |
| RecommendationModel.CreateThenGet | model/system_recommendation.go:87-89 | a created active row can be fetched by its new id |
| RecommendationModel.Save | model/system_recommendation.go:92-94 | the row with that key is overwritten whole; others unchanged |
| RecommendationModel.SaveIsPointUpdate | model/system_recommendation.go:92-94 | with keys as positions, Save replaces exactly one position |
| RecommendationModel.SaveActiveRow | model/system_recommendation.go:92-94 | saving an active row keeps it fetchable and the listing count unchanged |
| RecommendationModel.FirstActiveAt | model/system_recommendation.go:77-84 | the active row at position id-1 is what the lookup finds |
| RecommendationModel.SaveInactiveRow | model/system_recommendation.go:92-94 | saving a visible row with a status other than 1 hides it and lowers the listing count by one |
| RecommendationModel.Delete | model/system_recommendation.go:97-99 | only the status of that id becomes 0 |
| RecommendationModel.DeleteHides | model/system_recommendation.go:97-99 | afterwards the id is not found, and the count drops by one when it was visible |
| RecommendationModel.DeleteKeepsOthers | model/system_recommendation.go:97-99 | every other id's lookup is unchanged |
| RecommendationModel.SetSubscriptionCount | model/system_recommendation.go:102-104 | only that id's subscription count changes |
| RecommendationModel.SetArticleCount | model/system_recommendation.go:107-109 | only that id's article count changes |
| RecommendationModel.CountersKeepListing | model/system_recommendation.go:102-109 | the counters change neither the listing count nor which ids are visible |
| RecommendationModel.StatusPreserved | model/system_recommendation.go:102-109 | a change that keeps ids and statuses keeps the count and visibility |
| RecommendationModel.FilterCountAgrees | model/system_recommendation.go:30-33 | tables with equal statuses position by position have the same active count |
| RecommendationModel.SeedRows | model/system_recommendation.go:121-212 | the seed rows, in order |
| RecommendationModel.CreateAll | model/system_recommendation.go:215-220 | inserting rows one by one appends each with its next id and defaults |
| RecommendationModel.SeedTable | model/system_recommendation.go:215-220 | the first n seeds stored with ids 1..n |
| RecommendationModel.Initialize | model/system_recommendation.go:112-223 | a non-empty table is left alone; otherwise seeds are inserted until one fails, and success means all ten were stored |
| RecommendationModel.SeedSortOrders | model/system_recommendation.go:121-212 | the seed sort orders run from 100 down in steps of 5 |
| RecommendationModel.SeededStore | model/system_recommendation.go:112-223 | seeding gives ten active rows with zero counts and sort orders 100..55; seeding again is a no-op |
| RecommendationModel.RankedFirstPage | model/system_recommendation.go:38-43 | active rows already in strictly descending sort order fill the first page in their own order |
| RecommendationModel.SeededFirstPage | model/system_recommendation.go:25-46 | the first page of ten after seeding is exactly the seeded table, total 10 |
| RecommendationApi.AdminGate | controller/system_recommendation.go:106-122 | passes exactly for a known caller with role at least admin; otherwise forbidden or failure |
| RecommendationApi.ListEndpoint | controller/system_recommendation.go:15-62 | clamped page and size (default 10) passed to the listing |
| RecommendationApi.GetEndpoint | controller/system_recommendation.go:65-101 | found exactly when an active row has the id |
| RecommendationApi.CreateEndpoint | controller/system_recommendation.go:104-160 | gate and binding before the write; the new row has zero counts, status 1 and the next id |
| RecommendationApi.CreatedIsVisible | controller/system_recommendation.go:134-142 | the created row can be fetched, and the listing count rises by one |
| RecommendationApi.MergeAsWritten | controller/system_recommendation.go:212-226 | as written: an omitted status becomes 0 |
| RecommendationApi.Merge | controller/system_recommendation.go:212-226 | title, description and category are replaced only when non-empty, sort order only when positive; an omitted status keeps the row's |
| RecommendationApi.MergeAgreesWhenStatusGiven | controller/system_recommendation.go:221-223 | with a status in the request both merges agree; they differ at most in the status |
| RecommendationApi.UpdateAsWritten | controller/system_recommendation.go:163-241 | as written: the gate, then Save of the as-written merge |
| RecommendationApi.UpdateEndpoint | controller/system_recommendation.go:163-241 | gate, binding and lookup before the write; the saved row is the corrected merge |
| RecommendationApi.UpdateWith | controller/system_recommendation.go:163-241 | the shared update: gate, binding and not-found before the write |
| RecommendationApi.UpdateWithoutStatusDisables | controller/system_recommendation.go:221-223 | as written, an update without a status hides the row and lowers the listing count by one |
| RecommendationApi.UpdateWithoutStatusKeepsRow | controller/system_recommendation.go:221-223 | corrected, the row stays visible with the merged fields and the count is unchanged |
| RecommendationApi.DeleteEndpoint | controller/system_recommendation.go:244-286 | gate before the write; no existence check, so an unknown id succeeds and changes nothing |
| RecommendationApi.SearchEndpoint | controller/system_recommendation.go:289-347 | the empty keyword is refused exactly; otherwise clamped page and size |
| RecommendationApi.SearchAgreesWithList | controller/system_recommendation.go:289-347 | search results never count more than the listing |
| Verification.Register | controller/misc.go:213-214 | the code is stored under (key, purpose); every other entry unchanged |
| Verification.Forget | controller/misc.go:288 | the entry is removed; every other entry unchanged |
| Verification.SendEmailVerification | controller/misc.go:160-229 | success needs exactly one "@", an allowed domain and alias, and an unregistered address; the code is registered only after the checks |
| Verification.EmailAcceptedIff | controller/misc.go:169-212 | success iff the address is local@domain with one "@", the domain and alias rules hold, the address is free and the send succeeds |
| Verification.EmailCodeVerifies | controller/misc.go:213-223 | after success the e-mail code verifies; codes of other purposes are unchanged |
| Verification.SendPhoneVerification | controller/misc.go:297-343 | an 11-character phone is required; the fixed code is registered on success |
| Verification.PhonePurposeRule | controller/misc.go:312-330 | success iff the phone has 11 characters and is registered exactly when the purpose is "login" |
| Verification.SendPasswordResetPhone | controller/misc.go:231-258 | success iff the phone has 11 characters and is registered; then the reset code verifies |
| Verification.ResetPassword | controller/misc.go:265-295 | phone and token required; success iff the reset code matches and the reset succeeds, and then the code is removed |
| Verification.ResetCodeIsSingleUse | controller/misc.go:283-288 | a second reset with the same code is refused |
| Verification.RequestThenReset | controller/misc.go:231-295 | a reset with the code just sent succeeds |
| Verification.PhoneCodeDoesNotReset | controller/misc.go:275 | a phone-verification code cannot reset a password |
| Verification.FailedResetKeepsCode | controller/misc.go:283-288 | a failed reset keeps the code, so the reset can be retried |
| SetupModel.BoolToString | controller/setup.go:192-197 | "true" exactly for true and "false" exactly for false |
| SetupModel.CreateRootIfNeeded | controller/setup.go:78-144 | skipped when a root exists; otherwise the root is inserted only after every check passes |
| SetupModel.PostSetup | controller/setup.go:54-190 | refused once done; validation errors change nothing; success records the modes, options and setup row and leaves a root |
| SetupModel.SetupRunsOnce | controller/setup.go:56-62 | after a success every later request is refused and changes nothing |
| SetupModel.RootExistsSkipsAccount | controller/setup.go:78 | with a root present the account fields make no difference |
| SetupModel.FailedRecordStillCloses | controller/setup.go:171-184 | when only the setup row fails, the done flag is already raised |
| SetupModel.WideCharsCountTriple | controller/setup.go:81 | characters of three UTF-8 bytes count at least three bytes each |
| SetupModel.WideUsernameRefused | controller/setup.go:80-86 | a root username of five CJK characters is refused as too long |
| SetupModel.MarkFirstUse | model/user_first_use.go:5-12 | user 0 is a no-op; only the user's flag can change, and afterwards it is not 1 |
| SetupModel.MarkFirstUseIsIdempotent | model/user_first_use.go:9-11 | a second call changes nothing |
| SetupModel.MarkFirstUseOnlyClears | model/user_first_use.go:9-11 | a flag only ever moves from 1 to 0, and only the user's own |

## Left out

- Request binding, path-parameter parsing and JSON response shaping (`dto/*.go` and the `gin` context) are not modelled. A binding failure is a boolean or a required-field predicate, and unparsable numbers are taken as already decoded.
- The e-mail format validator is an external library. It is a boolean parameter of `SendEmailVerification`.
- Sending mail, generating codes and UUIDs, the clock and the random reply pick are parameters.
- Code expiry in the shared verification store is not modelled. That store lives in the common package, which is not part of this model.
- `ResetUserPasswordByPhone` and the users table behind the verification endpoints are not modelled. The registered phones and e-mails are a set parameter, and the password write is a boolean outcome.
- The role, status and root-existence helpers of the common package are not part of this model. The constants are taken as RoleAdminUser = 10, RoleRootUser = 100 and UserStatusEnabled = 1.
- The `is_first_use` column default is a parameter of `PostSetup`, because the user model is not part of this model.
- Costs and every average are floating point in the source. Cost is an integer amount, and an average is kept as an exact fraction.
- `LIKE` is modelled as a case-sensitive substring match. SQLite's ASCII case folding and the `%`/`_` wildcards inside a keyword are not modelled.
- Read errors that the handlers drop (a failed page query after a successful count, a failed roll-up fetch) are not modelled. Reads always succeed. The roll-up's best-effort nature is the `rollup` flag.
- `GetModelStats` and `GetRecentMessages` are not modelled. They are read-only aggregates that no other operation depends on.
- `GetRandomSystemRecommendations`, the welcome and recommendation pages, and the user-wide article listing `GetAllSubscriptionArticles` (any signed-in user, every user's status-1 articles), and the admin functions `CreateSubscriptionArticle`/`DeleteSubscriptionArticle` are not modelled.
- `generateMockArticles` is not modelled, because it runs in a goroutine on random data.
- Concurrency is not modelled. The race between the lookups outside the transaction at model/subscription.go:334 and :337 is out of scope, and so is a failing transaction begin. Every store transition is sequential.
- GORM's `autoUpdateTime` stamps and `Save`'s insert fallback for a key that does not exist are not modelled. A save of a missing key changes nothing.
- Schema creation and the migrations are not modelled. The unique indexes of model/sqlite_hooks.go:145 and :148 are stated as store invariants.
- SubscriptionModel.CreateSharedSubscription: the SQLite schema makes `create_user_id` a foreign key into `users` with foreign keys enabled (model/sqlite_hooks.go:21, :42, :83-91). On such a database the creator-0 shared row is refused. The users table is not part of this model, so that refusal appears only as `storeOk` being false.
- Query.Offset: the source computes `(page - 1) * pageSize` in Go's 64-bit `int`, and no handler bounds `page` from above. The wrap-around for a huge page is not modelled, because integers here are unbounded. In the source such a page can wrap to a negative offset, which GORM drops, so the first page comes back.
- TopicModel.GenerateAIResponse: the ten canned lines are stored literally, but the model proves only which line ends the reply, not its wording.

## Findings

| source | as written | input that shows it | evidently intended | confidence | as-written member | corrected member |
|---|---|---|---|---|---|---|
| controller/subscription.go:215-239 | cancel calls the model without looking the subscription up, and reports success even when no row matched | a cancel by user 2 on a subscription owned by user 1, or on an id that does not exist | not found for a missing id and forbidden for a foreign one, as the other owner checks and the repository's tests do | not executed | SubscriptionApi.CancelAsWrittenAcceptsForeign | SubscriptionApi.CancelEndpointRefinesAsWritten |
| model/subscription.go:56-85 | the list filters on status 1, so a cancelled subscription disappears from its owner's list | a user who cancels their only subscription and then lists: total 0 | the comments in the function say all statuses are returned, and the tests expect cancelled rows to be listed | not executed | SubscriptionApi.CancelledRowListedOnlyByOwnerListing | SubscriptionModel.ListOwnSubscriptions |
| controller/system_recommendation.go:221-223 | status is overwritten whenever the decoded value is at least 0, and an omitted status decodes as 0 | an admin PUT with body {"title":"x"} on an active recommendation: the row becomes status 0 and disappears | an omitted status leaves the row's status alone, as the other fields do when omitted | not executed | RecommendationApi.UpdateWithoutStatusDisables | RecommendationApi.UpdateWithoutStatusKeepsRow |

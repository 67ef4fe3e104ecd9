/** The chat store: sessions and their messages, and the queries the
    session and message handlers run against it. Both tables declare
    `DeletedAt` as a plain nullable timestamp rather than the ORM's
    soft-delete type, so `Delete` removes rows outright while every read
    still filters on `deleted_at IS NULL`. */
module ChatModel {

  import opened Results
  import opened Query
  import Text

  /** A row of `chat_messages`. Cost is carried as an integer amount. */
  datatype Message = Message(
    id: nat,
    sessionId: string,
    messageId: string,
    role: string,
    content: string,
    tokens: int,
    cost: int,
    status: int,          // 1 normal, 2 error
    errorMsg: string,
    createdTime: int,
    updatedTime: int,
    deletedAt: Option<int>)

  /** A row of `chat_sessions`; `sessionId` carries a unique index. */
  datatype Session = Session(
    id: nat,
    userId: int,
    sessionId: string,
    topic: string,
    model: string,
    totalMessages: int,
    totalTokens: int,
    totalCost: int,
    channelId: int,
    status: int,          // 1 active, 2 ended, 3 deleted
    createdTime: int,
    updatedTime: int,
    lastMessageTime: int,
    deletedAt: Option<int>)

  /** Both tables in primary-key order, with the next auto-increment ids. */
  datatype ChatStore = ChatStore(
    sessions: seq<Session>,
    messages: seq<Message>,
    nextSessionRow: nat,
    nextMessageRow: nat)

  /** The unique index on `chat_sessions.session_id`. */
  ghost predicate SessionIdsUnique(sessions: seq<Session>)
  {
    forall i, j :: 0 <= i < j < |sessions| ==> sessions[i].sessionId != sessions[j].sessionId
  }

  // ---------------------------------------------------------------------
  // Row predicates and sort keys (one definition each, reused everywhere)
  // ---------------------------------------------------------------------

  /** `session_id = ? AND deleted_at IS NULL` on messages. */
  function LiveIn(sid: string): Message -> bool
  {
    (m: Message) => m.sessionId == sid && m.deletedAt.None?
  }

  /** `session_id IN (<the user's live sessions>) AND deleted_at IS NULL`. */
  function LiveOfUser(ids: set<string>): Message -> bool
  {
    (m: Message) => m.sessionId in ids && m.deletedAt.None?
  }

  /** The same, restricted further to `content LIKE '%keyword%'` when the
      keyword is non-empty. */
  function LiveOfUserMatching(ids: set<string>, keyword: string): Message -> bool
  {
    (m: Message) => m.sessionId in ids && m.deletedAt.None? && (keyword == "" || Text.Contains(m.content, keyword))
  }

  /** The user filter restricted further to `status = 2`. */
  function FailedOfUser(ids: set<string>): Message -> bool
  {
    (m: Message) => m.sessionId in ids && m.status == 2 && m.deletedAt.None?
  }

  function HasRole(role: string): Message -> bool
  {
    (m: Message) => m.role == role
  }

  /** The roles the statistics count. */
  predicate KnownRole(m: Message) { m.role == "user" || m.role == "assistant" || m.role == "system" }
  predicate ModelSide(m: Message) { m.role == "assistant" || m.role == "system" }

  /** `session_id = ? AND role = ? AND deleted_at IS NULL`. */
  function LiveInWithRole(sid: string, role: string): Message -> bool
  {
    (m: Message) => m.sessionId == sid && m.role == role && m.deletedAt.None?
  }

  /** `session_id IN (<the user's live sessions>) AND role = ? AND
      deleted_at IS NULL`. */
  function LiveOfUserWithRole(ids: set<string>, role: string): Message -> bool
  {
    (m: Message) => m.sessionId in ids && m.role == role && m.deletedAt.None?
  }

  function HasMessageId(mid: string): Message -> bool
  {
    (m: Message) => m.messageId == mid
  }

  function OutsideSession(sid: string): Message -> bool
  {
    (m: Message) => m.sessionId != sid
  }

  /** `user_id = ? AND deleted_at IS NULL` on sessions. */
  function LiveSessionOf(uid: int): Session -> bool
  {
    (s: Session) => s.userId == uid && s.deletedAt.None?
  }

  function ActiveSessionOf(uid: int): Session -> bool
  {
    (s: Session) => s.userId == uid && s.status == 1 && s.deletedAt.None?
  }

  /** A live session of the user that is not active (ended, or marked
      deleted through its status only). */
  function InactiveSessionOf(uid: int): Session -> bool
  {
    (s: Session) => s.userId == uid && s.status != 1 && s.deletedAt.None?
  }

  function LiveSessionOfMatching(uid: int, keyword: string): Session -> bool
  {
    (s: Session) => s.userId == uid && s.deletedAt.None? && (keyword == "" || Text.Contains(s.topic, keyword))
  }

  function HasSessionId(sid: string): Session -> bool
  {
    (s: Session) => s.sessionId == sid
  }

  function Tokens(m: Message): int { m.tokens }
  function Cost(m: Message): int { m.cost }
  function SessionMessages(s: Session): int { s.totalMessages }
  function SessionTokens(s: Session): int { s.totalTokens }
  function SessionCost(s: Session): int { s.totalCost }

  /** ORDER BY created_time ASC, as a descending key. */
  function OldestFirst(m: Message): Key { Key(-m.createdTime, 0, 0) }

  /** ORDER BY created_time DESC. */
  function NewestFirst(m: Message): Key { Key(m.createdTime, 0, 0) }

  /** ORDER BY last_message_time DESC. */
  function RecentFirst(s: Session): Key { Key(s.lastMessageTime, 0, 0) }

  // ---------------------------------------------------------------------
  // Lookups
  // ---------------------------------------------------------------------

  /** `GetBySessionId`: the first session row with that session_id; the
      deleted_at column is not consulted. */
  function FindSession(store: ChatStore, sid: string): (r: Option<nat>)
    ensures r.Some? ==> r.value < |store.sessions| && store.sessions[r.value].sessionId == sid
    ensures r.None? <==> forall j :: 0 <= j < |store.sessions| ==> store.sessions[j].sessionId != sid
  {
    FirstIndex(store.sessions, HasSessionId(sid))
  }

  /** `GetByMessageId`: the first message row with that message_id (the
      column is not unique); the deleted_at column is not consulted. */
  function FindMessage(store: ChatStore, mid: string): (r: Option<nat>)
    ensures r.Some? ==> r.value < |store.messages| && store.messages[r.value].messageId == mid
    ensures r.Some? ==> forall j :: 0 <= j < r.value ==> store.messages[j].messageId != mid
    ensures r.None? <==> forall j :: 0 <= j < |store.messages| ==> store.messages[j].messageId != mid
  {
    FirstIndex(store.messages, HasMessageId(mid))
  }

  /** Session ids of the user's live sessions: the sub-query every
      per-user message read joins through. */
  function UserSessionIds(store: ChatStore, uid: int): (ids: set<string>)
    ensures forall sid :: sid in ids <==> exists s :: s in store.sessions && LiveSessionOf(uid)(s) && s.sessionId == sid
  {
    set s | s in store.sessions && LiveSessionOf(uid)(s) :: s.sessionId
  }

  // ---------------------------------------------------------------------
  // model/chat_message.go
  // ---------------------------------------------------------------------

  /** Live messages of one session, in primary-key order. */
  function LiveMessages(store: ChatStore, sid: string): seq<Message>
  {
    Filter(store.messages, LiveIn(sid))
  }

  /** `GetSessionAllMessages`: every live message of the session, oldest
      first, and nothing else. */
  function GetSessionAllMessages(store: ChatStore, sid: string): (r: seq<Message>)
    ensures forall m :: m in r <==> m in store.messages && m.sessionId == sid && m.deletedAt.None?
    ensures multiset(r) == multiset(LiveMessages(store, sid))
    ensures SortedDesc(r, OldestFirst)
  {
    SortDesc(LiveMessages(store, sid), OldestFirst)
  }

  /** `GetSessionMessages`: the count and the page are drawn from the same
      filtered set; the page starts at row (page - 1) * size. */
  function GetSessionMessages(store: ChatStore, sid: string, page: int, size: int): (r: Listing<Message>)
    ensures r.total == |LiveMessages(store, sid)|
    ensures WindowOfOrdered(r.items, LiveMessages(store, sid), OldestFirst, Offset(page, size), size)
    ensures forall m :: m in r.items ==> m in store.messages && m.sessionId == sid && m.deletedAt.None?
    ensures size >= 0 ==> |r.items| <= size
  {
    PageOf(LiveMessages(store, sid), OldestFirst, Offset(page, size), size)
  }

  /** `DeleteSessionMessages`: removes every message of the session,
      deleted_at set or not, and no other message. */
  function DeleteSessionMessages(store: ChatStore, sid: string): (r: ChatStore)
    ensures forall m :: m in r.messages <==> m in store.messages && m.sessionId != sid
    ensures r.sessions == store.sessions
    ensures r.nextSessionRow == store.nextSessionRow && r.nextMessageRow == store.nextMessageRow
  {
    store.(messages := Filter(store.messages, OutsideSession(sid)))
  }

  /** `GetUserMessages`: live messages in the user's live sessions, newest
      first. */
  function GetUserMessages(store: ChatStore, uid: int, page: int, size: int): (r: Listing<Message>)
    ensures r.total == |Filter(store.messages, LiveOfUser(UserSessionIds(store, uid)))|
    ensures WindowOfOrdered(r.items, Filter(store.messages, LiveOfUser(UserSessionIds(store, uid))), NewestFirst, Offset(page, size), size)
    ensures forall m :: m in r.items ==> m in store.messages && m.deletedAt.None? && m.sessionId in UserSessionIds(store, uid)
  {
    PageOf(Filter(store.messages, LiveOfUser(UserSessionIds(store, uid))), NewestFirst, Offset(page, size), size)
  }

  /** `SearchMessages`: as GetUserMessages, keeping only contents that
      contain the keyword when one is given. */
  function SearchMessages(store: ChatStore, uid: int, keyword: string, page: int, size: int): (r: Listing<Message>)
    ensures forall m :: m in r.items ==> m in store.messages && m.deletedAt.None? && m.sessionId in UserSessionIds(store, uid)
    ensures forall m :: m in r.items && keyword != "" ==> Text.Contains(m.content, keyword)
    ensures r.total == |Filter(store.messages, LiveOfUserMatching(UserSessionIds(store, uid), keyword))|
    ensures WindowOfOrdered(r.items, Filter(store.messages, LiveOfUserMatching(UserSessionIds(store, uid), keyword)), NewestFirst, Offset(page, size), size)
  {
    PageOf(Filter(store.messages, LiveOfUserMatching(UserSessionIds(store, uid), keyword)), NewestFirst, Offset(page, size), size)
  }

  /** `GetErrorMessages`: the user's live messages with status 2. */
  function GetErrorMessages(store: ChatStore, uid: int, page: int, size: int): (r: Listing<Message>)
    ensures forall m :: m in r.items ==> m in store.messages && m.status == 2 && m.deletedAt.None? && m.sessionId in UserSessionIds(store, uid)
    ensures r.total == |Filter(store.messages, FailedOfUser(UserSessionIds(store, uid)))|
    ensures WindowOfOrdered(r.items, Filter(store.messages, FailedOfUser(UserSessionIds(store, uid))), NewestFirst, Offset(page, size), size)
  {
    PageOf(Filter(store.messages, FailedOfUser(UserSessionIds(store, uid))), NewestFirst, Offset(page, size), size)
  }

  /** An average kept as an exact fraction (the source divides floats). */
  datatype Ratio = Ratio(numerator: int, denominator: int)

  datatype MessageStats = MessageStats(
    total: nat,
    user: nat,
    assistant: nat,
    system: nat,
    tokens: int,
    cost: int,
    avgTokens: Option<Ratio>)

  /** The statistics block shared by `GetMessageStats` and
      `GetUserMessageStats`, over the live rows already selected. */
  function StatsOf(live: seq<Message>): (r: MessageStats)
    ensures r.total == |live|
    ensures r.user == |Filter(live, HasRole("user"))|
    ensures r.assistant == |Filter(live, HasRole("assistant"))|
    ensures r.system == |Filter(live, HasRole("system"))|
    ensures r.user <= r.total && r.assistant <= r.total && r.system <= r.total
    ensures r.tokens == Sum(live, Tokens)
    ensures r.cost == Sum(live, Cost)
    ensures r.avgTokens.Some? <==> r.total > 0
    ensures r.avgTokens.Some? ==> r.avgTokens.value == Ratio(r.tokens, r.total)
  {
    var total := |live|;
    var tokens := Sum(live, Tokens);
    MessageStats(
      total,
      |Filter(live, HasRole("user"))|,
      |Filter(live, HasRole("assistant"))|,
      |Filter(live, HasRole("system"))|,
      tokens,
      Sum(live, Cost),
      if total > 0 then Some(Ratio(tokens, total)) else None)
  }

  /** `GetMessageStats` for one session: each role count is its own
      COUNT over the table with the role added to the WHERE clause. */
  function GetMessageStats(store: ChatStore, sid: string): (r: MessageStats)
    ensures r.total == |LiveMessages(store, sid)|
    ensures r.user == |Filter(store.messages, LiveInWithRole(sid, "user"))|
    ensures r.assistant == |Filter(store.messages, LiveInWithRole(sid, "assistant"))|
    ensures r.system == |Filter(store.messages, LiveInWithRole(sid, "system"))|
    ensures r.tokens == Sum(LiveMessages(store, sid), Tokens)
    ensures r.cost == Sum(LiveMessages(store, sid), Cost)
    ensures r.user + r.assistant + r.system <= r.total
    ensures r.avgTokens.Some? <==> r.total > 0
    ensures r.avgTokens.Some? ==> r.avgTokens.value == Ratio(r.tokens, r.total)
  {
    var live := LiveMessages(store, sid);
    RolesPartition(live);
    SessionRoleCount(store, sid, "user");
    SessionRoleCount(store, sid, "assistant");
    SessionRoleCount(store, sid, "system");
    StatsOf(live)
  }

  /** Counting a role among a session's live messages is the COUNT with
      the role in the WHERE clause. */
  lemma SessionRoleCount(store: ChatStore, sid: string, role: string)
    ensures |Filter(LiveMessages(store, sid), HasRole(role))| == |Filter(store.messages, LiveInWithRole(sid, role))|
  {
    FilterOfFilter(store.messages, LiveIn(sid), HasRole(role), LiveInWithRole(sid, role));
  }

  /** `GetUserMessageStats` across the user's live sessions, each role
      count again its own COUNT. */
  function GetUserMessageStats(store: ChatStore, uid: int): (r: MessageStats)
    ensures r.total == |Filter(store.messages, LiveOfUser(UserSessionIds(store, uid)))|
    ensures r.user == |Filter(store.messages, LiveOfUserWithRole(UserSessionIds(store, uid), "user"))|
    ensures r.assistant == |Filter(store.messages, LiveOfUserWithRole(UserSessionIds(store, uid), "assistant"))|
    ensures r.system == |Filter(store.messages, LiveOfUserWithRole(UserSessionIds(store, uid), "system"))|
    ensures r.tokens == Sum(Filter(store.messages, LiveOfUser(UserSessionIds(store, uid))), Tokens)
    ensures r.cost == Sum(Filter(store.messages, LiveOfUser(UserSessionIds(store, uid))), Cost)
    ensures r.user + r.assistant + r.system <= r.total
    ensures r.avgTokens.Some? <==> r.total > 0
    ensures r.avgTokens.Some? ==> r.avgTokens.value == Ratio(r.tokens, r.total)
  {
    var ids := UserSessionIds(store, uid);
    var live := Filter(store.messages, LiveOfUser(ids));
    RolesPartition(live);
    UserRoleCount(store, ids, "user");
    UserRoleCount(store, ids, "assistant");
    UserRoleCount(store, ids, "system");
    StatsOf(live)
  }

  /** The per-user form of `SessionRoleCount`. */
  lemma UserRoleCount(store: ChatStore, ids: set<string>, role: string)
    ensures |Filter(Filter(store.messages, LiveOfUser(ids)), HasRole(role))| == |Filter(store.messages, LiveOfUserWithRole(ids, role))|
  {
    FilterOfFilter(store.messages, LiveOfUser(ids), HasRole(role), LiveOfUserWithRole(ids, role));
  }

  /** When every message has one of the three roles the handlers know, the
      role counts add up to the total. */
  lemma RolesCoverAll(rows: seq<Message>)
    requires forall m :: m in rows ==> KnownRole(m)
    ensures |Filter(rows, HasRole("user"))| + |Filter(rows, HasRole("assistant"))| + |Filter(rows, HasRole("system"))| == |rows|
  {
    FilterKeepsAll(rows, KnownRole);
    FilterPartition(rows, KnownRole, HasRole("user"), ModelSide);
    FilterPartition(rows, ModelSide, HasRole("assistant"), HasRole("system"));
  }

  /** A session whose live messages all carry a known role reports role
      counts that add up to its total. */
  lemma SessionRolesAddUp(store: ChatStore, sid: string)
    requires forall m :: m in store.messages && LiveIn(sid)(m) ==> KnownRole(m)
    ensures var r := GetMessageStats(store, sid); r.user + r.assistant + r.system == r.total
  {
    var live := LiveMessages(store, sid);
    RolesCoverAll(live);
    SessionRoleCount(store, sid, "user");
    SessionRoleCount(store, sid, "assistant");
    SessionRoleCount(store, sid, "system");
  }

  /** The three role counts never add up to more than the rows counted:
      a message has one role. */
  lemma {:induction false} RolesPartition(rows: seq<Message>)
    ensures |Filter(rows, HasRole("user"))| + |Filter(rows, HasRole("assistant"))| + |Filter(rows, HasRole("system"))| <= |rows|
  {
    if rows != [] {
      RolesPartition(rows[..|rows| - 1]);
    }
  }

  /** The create hook: timestamps are filled from the clock only when the
      caller left them zero. */
  function BeforeCreateMessage(m: Message, now: int): (r: Message)
    ensures r.(createdTime := m.createdTime, updatedTime := m.updatedTime) == m
    ensures m.createdTime != 0 ==> r.createdTime == m.createdTime
    ensures m.updatedTime != 0 ==> r.updatedTime == m.updatedTime
    ensures m.createdTime == 0 ==> r.createdTime == now
    ensures m.updatedTime == 0 ==> r.updatedTime == now
  {
    m.(createdTime := if m.createdTime == 0 then now else m.createdTime,
       updatedTime := if m.updatedTime == 0 then now else m.updatedTime)
  }

  /** The update hook: every save stamps updated_time with the clock. */
  function BeforeUpdateMessage(m: Message, now: int): (r: Message)
    ensures r.(updatedTime := m.updatedTime) == m
    ensures r.updatedTime == now
  {
    m.(updatedTime := now)
  }

  /** Running the create hook a second time changes nothing once the clock
      reading is non-zero. */
  lemma CreateHookIdempotent(m: Message, now: int, later: int)
    requires now != 0
    ensures BeforeCreateMessage(BeforeCreateMessage(m, now), later) == BeforeCreateMessage(m, now)
  {
  }

  // ---------------------------------------------------------------------
  // model/chat_session.go
  // ---------------------------------------------------------------------

  /** `GetUserSessions`: the user's live sessions, most recent activity
      first; count and page use one filter. */
  function GetUserSessions(store: ChatStore, uid: int, page: int, size: int): (r: Listing<Session>)
    ensures r.total == |Filter(store.sessions, LiveSessionOf(uid))|
    ensures WindowOfOrdered(r.items, Filter(store.sessions, LiveSessionOf(uid)), RecentFirst, Offset(page, size), size)
    ensures forall s :: s in r.items ==> s in store.sessions && s.userId == uid && s.deletedAt.None?
  {
    PageOf(Filter(store.sessions, LiveSessionOf(uid)), RecentFirst, Offset(page, size), size)
  }

  /** `GetUserActiveSessions`: the user's live status-1 sessions, all of
      them, most recent activity first. */
  function GetUserActiveSessions(store: ChatStore, uid: int): (r: seq<Session>)
    ensures forall s :: s in r <==> s in store.sessions && s.userId == uid && s.status == 1 && s.deletedAt.None?
    ensures SortedDesc(r, RecentFirst)
  {
    SortDesc(Filter(store.sessions, ActiveSessionOf(uid)), RecentFirst)
  }

  /** `SearchUserSessions`: the user's live sessions whose topic contains
      the keyword, or all of them for an empty keyword. */
  function SearchUserSessions(store: ChatStore, uid: int, keyword: string, page: int, size: int): (r: Listing<Session>)
    ensures forall s :: s in r.items ==> s in store.sessions && s.userId == uid && s.deletedAt.None?
    ensures forall s :: s in r.items && keyword != "" ==> Text.Contains(s.topic, keyword)
    ensures r.total == |Filter(store.sessions, LiveSessionOfMatching(uid, keyword))|
    ensures WindowOfOrdered(r.items, Filter(store.sessions, LiveSessionOfMatching(uid, keyword)), RecentFirst, Offset(page, size), size)
  {
    PageOf(Filter(store.sessions, LiveSessionOfMatching(uid, keyword)), RecentFirst, Offset(page, size), size)
  }

  /** `DeleteUserSession`: removes the rows matching both the user and the
      session id, and nothing else. */
  function DeleteUserSession(store: ChatStore, uid: int, sid: string): (r: ChatStore)
    ensures forall s :: s in r.sessions <==> s in store.sessions && !(s.userId == uid && s.sessionId == sid)
    ensures r.messages == store.messages
    ensures SessionIdsUnique(store.sessions) ==> SessionIdsUnique(r.sessions)
  {
    var keep := (s: Session) => !(s.userId == uid && s.sessionId == sid);
    FilterKeepsSessionIdsUnique(store.sessions, keep);
    store.(sessions := Filter(store.sessions, keep))
  }

  /** `DeleteUserAllSessions`: removes every session of the user and no
      other user's; messages are left where they are. */
  function DeleteUserAllSessions(store: ChatStore, uid: int): (r: ChatStore)
    ensures forall s :: s in r.sessions <==> s in store.sessions && s.userId != uid
    ensures r.messages == store.messages
    ensures SessionIdsUnique(store.sessions) ==> SessionIdsUnique(r.sessions)
  {
    var keep := (s: Session) => s.userId != uid;
    FilterKeepsSessionIdsUnique(store.sessions, keep);
    store.(sessions := Filter(store.sessions, keep))
  }

  /** Removing session rows never breaks the unique index. */
  lemma FilterKeepsSessionIdsUnique(sessions: seq<Session>, keep: Session -> bool)
    ensures SessionIdsUnique(sessions) ==> SessionIdsUnique(Filter(sessions, keep))
  {
    if SessionIdsUnique(sessions) {
      var ok := (a: Session, b: Session) => a.sessionId != b.sessionId;
      assert forall i, j :: 0 <= i < j < |sessions| ==> ok(sessions[i], sessions[j]);
      FilterKeepsPairwise(sessions, keep, ok);
    }
  }

  /** A session with its five statistics columns blanked: what
      `UpdateSessionStats` must leave alone. */
  function WithoutStats(s: Session): Session
  {
    s.(totalMessages := 0, totalTokens := 0, totalCost := 0, lastMessageTime := 0, updatedTime := 0)
  }

  function StampStats(s: Session, count: int, tokens: int, cost: int, now: int): Session
  {
    s.(totalMessages := count, totalTokens := tokens, totalCost := cost, lastMessageTime := now, updatedTime := now)
  }

  function StampWhere(sessions: seq<Session>, sid: string, count: int, tokens: int, cost: int, now: int): (r: seq<Session>)
    ensures |r| == |sessions|
    ensures forall i :: 0 <= i < |sessions| && sessions[i].sessionId != sid ==> r[i] == sessions[i]
    ensures forall i :: 0 <= i < |sessions| && sessions[i].sessionId == sid ==> r[i] == StampStats(sessions[i], count, tokens, cost, now)
  {
    if sessions == [] then []
    else
      [if sessions[0].sessionId == sid then StampStats(sessions[0], count, tokens, cost, now) else sessions[0]]
      + StampWhere(sessions[1..], sid, count, tokens, cost, now)
  }

  /** `UpdateSessionStats`: on every row with that session_id, sets the
      message and token totals and the cost, and stamps last_message_time
      and updated_time; no other column and no other row changes. */
  function UpdateSessionStats(store: ChatStore, sid: string, count: int, tokens: int, cost: int, now: int): (r: ChatStore)
    ensures r.messages == store.messages && |r.sessions| == |store.sessions|
    ensures forall i :: 0 <= i < |r.sessions| ==> WithoutStats(r.sessions[i]) == WithoutStats(store.sessions[i])
    ensures forall i :: 0 <= i < |r.sessions| && store.sessions[i].sessionId != sid ==> r.sessions[i] == store.sessions[i]
    ensures forall s :: s in r.sessions && s.sessionId == sid ==>
      s.totalMessages == count && s.totalTokens == tokens && s.totalCost == cost && s.lastMessageTime == now && s.updatedTime == now
    ensures SessionIdsUnique(store.sessions) ==> SessionIdsUnique(r.sessions)
  {
    store.(sessions := StampWhere(store.sessions, sid, count, tokens, cost, now))
  }

  datatype SessionStats = SessionStats(
    total: nat,
    active: nat,
    messages: int,
    tokens: int,
    cost: int,
    avgMessages: Option<Ratio>)

  /** `GetUserSessionStats`: counts of the user's live and active sessions
      and the sums of their stored totals. */
  function GetUserSessionStats(store: ChatStore, uid: int): (r: SessionStats)
    ensures r.total == |Filter(store.sessions, LiveSessionOf(uid))|
    ensures r.active == |Filter(store.sessions, ActiveSessionOf(uid))|
    ensures r.active <= r.total
    ensures r.messages == Sum(Filter(store.sessions, LiveSessionOf(uid)), SessionMessages)
    ensures r.tokens == Sum(Filter(store.sessions, LiveSessionOf(uid)), SessionTokens)
    ensures r.cost == Sum(Filter(store.sessions, LiveSessionOf(uid)), SessionCost)
    ensures r.avgMessages.Some? <==> r.total > 0
    ensures r.avgMessages.Some? ==> r.avgMessages.value == Ratio(r.messages, r.total)
  {
    var live := Filter(store.sessions, LiveSessionOf(uid));
    FilterNarrower(store.sessions, ActiveSessionOf(uid), LiveSessionOf(uid));
    var total := |live|;
    var messages := Sum(live, SessionMessages);
    SessionStats(
      total,
      |Filter(store.sessions, ActiveSessionOf(uid))|,
      messages,
      Sum(live, SessionTokens),
      Sum(live, SessionCost),
      if total > 0 then Some(Ratio(messages, total)) else None)
  }

  /** Every live session counts as active exactly when none of the user's
      live sessions has another status. */
  lemma AllActiveIff(store: ChatStore, uid: int)
    ensures var r := GetUserSessionStats(store, uid);
      r.active == r.total <==> forall s :: s in store.sessions && LiveSessionOf(uid)(s) ==> s.status == 1
  {
    FilterPartition(store.sessions, LiveSessionOf(uid), ActiveSessionOf(uid), InactiveSessionOf(uid));
    FilterNonEmpty(store.sessions, InactiveSessionOf(uid));
  }

  // ---------------------------------------------------------------------
  // The roll-up
  // ---------------------------------------------------------------------

  /** Every row of session `sid` stores the number of its live messages and
      the sums of their tokens and cost. */
  ghost predicate RollupConsistent(store: ChatStore, sid: string)
  {
    forall s :: s in store.sessions && s.sessionId == sid ==>
      && s.totalMessages == |LiveMessages(store, sid)|
      && s.totalTokens == Sum(LiveMessages(store, sid), Tokens)
      && s.totalCost == Sum(LiveMessages(store, sid), Cost)
  }

  /** The handlers' recompute: fetch the session's live messages (oldest
      first), count them, add up tokens and cost, and write the three
      figures back with `UpdateSessionStats`. A full fold, not an
      increment, so it restores consistency whatever the totals held. */
  function Recompute(store: ChatStore, sid: string, now: int): (r: ChatStore)
    ensures RollupConsistent(r, sid)
    ensures r.messages == store.messages && |r.sessions| == |store.sessions|
    ensures forall i :: 0 <= i < |r.sessions| && store.sessions[i].sessionId != sid ==> r.sessions[i] == store.sessions[i]
    ensures forall i :: 0 <= i < |r.sessions| ==> WithoutStats(r.sessions[i]) == WithoutStats(store.sessions[i])
    ensures SessionIdsUnique(store.sessions) ==> SessionIdsUnique(r.sessions)
  {
    var fetched := GetSessionAllMessages(store, sid);
    var live := LiveMessages(store, sid);
    SumOfPermutation(fetched, live, Tokens);
    SumOfPermutation(fetched, live, Cost);
    assert |fetched| == |multiset(fetched)| == |multiset(live)| == |live|;
    UpdateSessionStats(store, sid, |fetched|, Sum(fetched, Tokens), Sum(fetched, Cost), now)
  }
}

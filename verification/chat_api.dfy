/** The session and message handlers. Each is a pure function from the
    store, the caller's user id and the bound request to the store after
    its committed writes and the reply. The clock, the generated session
    UUID and the outcome of each write are parameters. */
module ChatApi {

  import opened Results
  import opened Query
  import opened ChatModel

  /** Default page size of the session list endpoints. */
  const SessionPageSize := 10

  /** Default page size of the message list endpoints. */
  const MessagePageSize := 20

  datatype NewSession = NewSession(topic: string, model: string, channelId: int)

  datatype NewMessage = NewMessage(
    sessionId: string,
    messageId: string,
    role: string,
    content: string,
    tokens: int,
    cost: int,
    status: int,
    errorMsg: string)

  datatype MessageEdit = MessageEdit(content: string, tokens: int, cost: int, status: int, errorMsg: string)

  /** Look the session up by session_id, then compare its owner with the
      caller: not found, forbidden, or the index of the row. */
  function OwnedSession(store: ChatStore, caller: int, sid: string): (r: Result<nat>)
    ensures r.Ok? ==> r.value < |store.sessions| && store.sessions[r.value].sessionId == sid
    ensures r.Ok? ==> store.sessions[r.value].userId == caller
    ensures r == Err(NotFound) <==> forall j :: 0 <= j < |store.sessions| ==> store.sessions[j].sessionId != sid
    ensures r.Err? ==> r.error == NotFound || r.error == Forbidden
  {
    match FindSession(store, sid)
    case None => Err(NotFound)
    case Some(i) => if store.sessions[i].userId != caller then Err(Forbidden) else Ok(i)
  }

  /** With the unique index in place, a caller is refused as forbidden
      exactly when the session exists and belongs to someone else. */
  lemma ForbiddenMeansForeign(store: ChatStore, caller: int, sid: string)
    requires SessionIdsUnique(store.sessions)
    ensures OwnedSession(store, caller, sid) == Err(Forbidden) <==>
      exists s :: s in store.sessions && s.sessionId == sid && s.userId != caller
  {
    if exists s :: s in store.sessions && s.sessionId == sid && s.userId != caller {
      var s :| s in store.sessions && s.sessionId == sid && s.userId != caller;
      var k :| 0 <= k < |store.sessions| && store.sessions[k] == s;
      var i := FindSession(store, sid).value;
      assert i == k;
    }
  }

  // ---------------------------------------------------------------------
  // controller/chat_session.go
  // ---------------------------------------------------------------------

  /** `CreateChatSession`: a session owned by the caller, status 1, with
      zero totals. The model's create hook is declared without the ORM's
      argument, so it never runs and the three timestamps stay zero. */
  function CreateChatSession(store: ChatStore, caller: int, req: NewSession, uuid: string, insertOk: bool): (r: Reply<ChatStore, Session>)
    ensures req.topic == "" || req.model == "" ==> r.result == Err(Invalid(BadFormat))
    ensures r.result.Err? ==> r.state == store
    ensures r.result.Ok? ==> r.state.sessions == store.sessions + [r.result.value] && r.state.messages == store.messages
    ensures r.result.Ok? ==> var s := r.result.value;
      && s.userId == caller && s.sessionId == uuid && s.topic == req.topic && s.model == req.model
      && s.status == 1 && s.totalMessages == 0 && s.totalTokens == 0 && s.totalCost == 0
      && s.createdTime == 0 && s.updatedTime == 0 && s.lastMessageTime == 0 && s.deletedAt.None?
    ensures SessionIdsUnique(store.sessions) ==> SessionIdsUnique(r.state.sessions)
  {
    if req.topic == "" || req.model == "" then
      Reply(store, Err(Invalid(BadFormat)))
    else if !insertOk || FindSession(store, uuid).Some? then
      Reply(store, Err(StoreFailure))
    else
      var s := Session(store.nextSessionRow, caller, uuid, req.topic, req.model, 0, 0, 0, req.channelId, 1, 0, 0, 0, None);
      Reply(store.(sessions := store.sessions + [s], nextSessionRow := store.nextSessionRow + 1), Ok(s))
  }

  /** `GetChatSession`. */
  function GetChatSession(store: ChatStore, caller: int, sid: string): (r: Result<Session>)
    ensures r.Ok? ==> r.value in store.sessions && r.value.sessionId == sid && r.value.userId == caller
    ensures r.Err? ==> OwnedSession(store, caller, sid) == Err(r.error)
  {
    match OwnedSession(store, caller, sid)
    case Err(e) => Err(e)
    case Ok(i) => Ok(store.sessions[i])
  }

  /** `UpdateChatSession`: only the topic changes; the update hook does
      not run, so updated_time is left as it was. */
  function UpdateChatSession(store: ChatStore, caller: int, sid: string, topic: string, writeOk: bool): (r: Reply<ChatStore, Session>)
    ensures topic == "" ==> r.result == Err(Invalid(BadFormat))
    ensures r.result.Err? ==> r.state == store
    ensures r.result.Ok? ==> OwnedSession(store, caller, sid).Ok?
    ensures r.result.Ok? ==> var i := OwnedSession(store, caller, sid).value;
      && r.state.sessions == store.sessions[i := r.result.value]
      && r.result.value == store.sessions[i].(topic := topic)
      && r.state.messages == store.messages
    ensures SessionIdsUnique(store.sessions) ==> SessionIdsUnique(r.state.sessions)
  {
    if topic == "" then Reply(store, Err(Invalid(BadFormat)))
    else match OwnedSession(store, caller, sid)
      case Err(e) => Reply(store, Err(e))
      case Ok(i) =>
        if !writeOk then Reply(store, Err(StoreFailure))
        else
          var s := store.sessions[i].(topic := topic);
          Reply(store.(sessions := store.sessions[i := s]), Ok(s))
  }

  /** `DeleteChatSession`: after the ownership check, delete the session
      row, then every message of the session. Each step can fail; a failed
      first step changes nothing, a failed second step leaves the session
      gone and its messages in place. */
  function DeleteChatSession(store: ChatStore, caller: int, sid: string, sessionDeleteOk: bool, messagesDeleteOk: bool): (r: Reply<ChatStore, ()>)
    ensures OwnedSession(store, caller, sid).Err? ==> r == Reply(store, Err(OwnedSession(store, caller, sid).error))
    ensures !sessionDeleteOk ==> r.state == store
    ensures r.result.Ok? ==> OwnedSession(store, caller, sid).Ok?
    ensures r.result.Ok? ==> forall s :: s in r.state.sessions <==> s in store.sessions && !(s.userId == caller && s.sessionId == sid)
    ensures r.result.Ok? ==> forall m :: m in r.state.messages <==> m in store.messages && m.sessionId != sid
    ensures OwnedSession(store, caller, sid).Ok? && sessionDeleteOk && !messagesDeleteOk ==>
      && r.result == Err(StoreFailure)
      && r.state.messages == store.messages
      && (forall s :: s in r.state.sessions <==> s in store.sessions && !(s.userId == caller && s.sessionId == sid))
    ensures SessionIdsUnique(store.sessions) ==> SessionIdsUnique(r.state.sessions)
  {
    match OwnedSession(store, caller, sid)
    case Err(e) => Reply(store, Err(e))
    case Ok(i) =>
      if !sessionDeleteOk then Reply(store, Err(StoreFailure))
      else
        var afterSession := DeleteUserSession(store, caller, sid);
        if !messagesDeleteOk then Reply(afterSession, Err(StoreFailure))
        else Reply(DeleteSessionMessages(afterSession, sid), Ok(()))
  }

  /** Under the unique index on session_id, a successful delete leaves no
      session row and no message with that session_id; without the index,
      a row of another user carrying the same id would survive, since the
      delete also matches on user_id. */
  lemma DeleteCascades(store: ChatStore, caller: int, sid: string, sessionDeleteOk: bool, messagesDeleteOk: bool)
    requires SessionIdsUnique(store.sessions)
    requires DeleteChatSession(store, caller, sid, sessionDeleteOk, messagesDeleteOk).result.Ok?
    ensures var after := DeleteChatSession(store, caller, sid, sessionDeleteOk, messagesDeleteOk).state;
      && (forall s :: s in after.sessions <==> s in store.sessions && s.sessionId != sid)
      && (forall m :: m in after.messages <==> m in store.messages && m.sessionId != sid)
  {
    var i := OwnedSession(store, caller, sid).value;
    forall s | s in store.sessions && s.sessionId == sid ensures s.userId == caller {
      var k :| 0 <= k < |store.sessions| && store.sessions[k] == s;
      assert k == i;
    }
  }

  /** `GetUserSessions` handler: clamped page and size (default 10). */
  function ListUserSessions(store: ChatStore, caller: int, page: int, size: int): (r: Paged<Session>)
    ensures r.page == ClampPage(page) && r.size == ClampSize(size, SessionPageSize)
    ensures r.listing == GetUserSessions(store, caller, r.page, r.size)
    ensures |r.listing.items| <= r.size
  {
    var p := ClampPage(page);
    var s := ClampSize(size, SessionPageSize);
    Paged(GetUserSessions(store, caller, p, s), p, s)
  }

  /** `SearchUserSessions` handler: clamped page and size (default 10). */
  function SearchSessions(store: ChatStore, caller: int, keyword: string, page: int, size: int): (r: Paged<Session>)
    ensures r.page == ClampPage(page) && r.size == ClampSize(size, SessionPageSize)
    ensures r.listing == SearchUserSessions(store, caller, keyword, r.page, r.size)
  {
    var p := ClampPage(page);
    var s := ClampSize(size, SessionPageSize);
    Paged(SearchUserSessions(store, caller, keyword, p, s), p, s)
  }

  /** `DeleteUserAllSessions` handler. */
  function DeleteAllSessions(store: ChatStore, caller: int, deleteOk: bool): (r: Reply<ChatStore, ()>)
    ensures r.result.Err? ==> r.state == store
    ensures r.result.Ok? ==> forall s :: s in r.state.sessions <==> s in store.sessions && s.userId != caller
    ensures r.state.messages == store.messages
  {
    if !deleteOk then Reply(store, Err(StoreFailure))
    else Reply(DeleteUserAllSessions(store, caller), Ok(()))
  }

  /** Deleting all of a user's sessions leaves their messages in the table
      but out of every per-user read: the join finds no live session. */
  lemma DeleteAllHidesMessages(store: ChatStore, caller: int, page: int, size: int)
    ensures UserSessionIds(DeleteUserAllSessions(store, caller), caller) == {}
    ensures GetUserMessages(DeleteUserAllSessions(store, caller), caller, page, size).total == 0
    ensures GetUserSessions(DeleteUserAllSessions(store, caller), caller, page, size).total == 0
  {
    var after := DeleteUserAllSessions(store, caller);
    NoneMatch(after.messages, LiveOfUser({}));
    NoneMatch(after.sessions, LiveSessionOf(caller));
  }

  /** An empty keyword filters nothing: the session search equals the plain
      listing. */
  lemma EmptySessionSearch(store: ChatStore, uid: int, page: int, size: int)
    ensures SearchUserSessions(store, uid, "", page, size) == GetUserSessions(store, uid, page, size)
  {
    FilterSame(store.sessions, LiveSessionOfMatching(uid, ""), LiveSessionOf(uid));
  }

  // ---------------------------------------------------------------------
  // controller/chat_message.go
  // ---------------------------------------------------------------------

  /** The statistics write-back every message mutation ends with. When the
      fetch or the write fails the stored totals are left as they were and
      the mutation still succeeds. */
  function RollUp(store: ChatStore, sid: string, now: int, rollup: bool): (r: ChatStore)
    ensures rollup ==> RollupConsistent(r, sid)
    ensures !rollup ==> r == store
    ensures r.messages == store.messages && |r.sessions| == |store.sessions|
    ensures forall i :: 0 <= i < |r.sessions| && store.sessions[i].sessionId != sid ==> r.sessions[i] == store.sessions[i]
    ensures forall i :: 0 <= i < |r.sessions| ==> r.sessions[i].sessionId == store.sessions[i].sessionId
    ensures SessionIdsUnique(store.sessions) ==> SessionIdsUnique(r.sessions)
  {
    if rollup then Recompute(store, sid, now) else store
  }

  /** The `binding:"required"` fields of a create request. */
  predicate MessageRequestComplete(req: NewMessage)
  {
    req.sessionId != "" && req.messageId != "" && req.role != "" && req.content != ""
  }

  /** The row `CreateChatMessage` inserts: the request's fields, status 0
      replaced by the column default 1, both timestamps from the create
      hook. */
  function NewMessageRow(req: NewMessage, id: nat, now: int): (m: Message)
    ensures m.sessionId == req.sessionId && m.messageId == req.messageId && m.role == req.role
    ensures m.content == req.content && m.tokens == req.tokens && m.cost == req.cost && m.errorMsg == req.errorMsg
    ensures m.status == (if req.status == 0 then 1 else req.status)
    ensures m.createdTime == now && m.updatedTime == now && m.deletedAt.None?
  {
    var m := Message(id, req.sessionId, req.messageId, req.role, req.content, req.tokens, req.cost,
                     if req.status == 0 then 1 else req.status, req.errorMsg, 0, 0, None);
    BeforeCreateMessage(m, now)
  }

  /** `CreateChatMessage`: refuses before writing unless the session exists
      and belongs to the caller; otherwise appends the message and re-folds
      the session's totals over its live messages. */
  function CreateChatMessage(store: ChatStore, caller: int, req: NewMessage, now: int, insertOk: bool, rollup: bool): (r: Reply<ChatStore, Message>)
    ensures !MessageRequestComplete(req) ==> r.result == Err(Invalid(BadFormat))
    ensures MessageRequestComplete(req) && OwnedSession(store, caller, req.sessionId).Err? ==>
      r.result == Err(OwnedSession(store, caller, req.sessionId).error)
    ensures r.result.Err? ==> r.state == store
    ensures r.result.Ok? ==> OwnedSession(store, caller, req.sessionId).Ok?
    ensures r.result.Ok? ==> r.result.value == NewMessageRow(req, store.nextMessageRow, now)
    ensures r.result.Ok? ==> r.state.messages == store.messages + [r.result.value]
    ensures r.result.Ok? && rollup ==> RollupConsistent(r.state, req.sessionId)
    ensures r.result.Ok? && !rollup ==> r.state.sessions == store.sessions
    ensures |r.state.sessions| == |store.sessions|
    ensures forall i :: 0 <= i < |store.sessions| ==> r.state.sessions[i].sessionId == store.sessions[i].sessionId
    ensures forall i :: 0 <= i < |store.sessions| && store.sessions[i].sessionId != req.sessionId ==>
      r.state.sessions[i] == store.sessions[i]
    ensures SessionIdsUnique(store.sessions) ==> SessionIdsUnique(r.state.sessions)
  {
    if !MessageRequestComplete(req) then Reply(store, Err(Invalid(BadFormat)))
    else match OwnedSession(store, caller, req.sessionId)
      case Err(e) => Reply(store, Err(e))
      case Ok(_) =>
        if !insertOk then Reply(store, Err(StoreFailure))
        else
          var m := NewMessageRow(req, store.nextMessageRow, now);
          var inserted := store.(messages := store.messages + [m], nextMessageRow := store.nextMessageRow + 1);
          Reply(RollUp(inserted, req.sessionId, now, rollup), Ok(m))
  }

  /** Ownership of a message is derived through its session: look the
      message up by message_id, then its session by session_id, then
      compare the session's owner with the caller. */
  function OwnedMessage(store: ChatStore, caller: int, mid: string): (r: Result<nat>)
    ensures r.Ok? ==> r.value < |store.messages| && store.messages[r.value].messageId == mid
    ensures r.Ok? ==> r.value == FindMessage(store, mid).value
    ensures r.Ok? ==> OwnedSession(store, caller, store.messages[r.value].sessionId).Ok?
    ensures FindMessage(store, mid).None? ==> r == Err(NotFound)
    ensures r.Err? ==> r.error == NotFound || r.error == Forbidden
  {
    match FindMessage(store, mid)
    case None => Err(NotFound)
    case Some(i) =>
      match OwnedSession(store, caller, store.messages[i].sessionId)
      case Err(e) => Err(e)
      case Ok(_) => Ok(i)
  }

  /** `GetChatMessage`. */
  function GetChatMessage(store: ChatStore, caller: int, mid: string): (r: Result<Message>)
    ensures r.Ok? ==> r.value in store.messages && r.value.messageId == mid
    ensures r.Ok? ==> OwnedSession(store, caller, r.value.sessionId).Ok?
    ensures r.Err? ==> OwnedMessage(store, caller, mid) == Err(r.error)
  {
    match OwnedMessage(store, caller, mid)
    case Err(e) => Err(e)
    case Ok(i) => Ok(store.messages[i])
  }

  /** The edited row: content, tokens, cost, status and error text from the
      request, updated_time from the update hook, every other column kept. */
  function EditedRow(m: Message, edit: MessageEdit, now: int): (r: Message)
    ensures r.id == m.id && r.sessionId == m.sessionId && r.messageId == m.messageId && r.role == m.role
    ensures r.createdTime == m.createdTime && r.deletedAt == m.deletedAt
    ensures r.content == edit.content && r.tokens == edit.tokens && r.cost == edit.cost
    ensures r.status == edit.status && r.errorMsg == edit.errorMsg && r.updatedTime == now
  {
    BeforeUpdateMessage(m.(content := edit.content, tokens := edit.tokens, cost := edit.cost,
                           status := edit.status, errorMsg := edit.errorMsg), now)
  }

  /** `UpdateChatMessage`: after the ownership check through the session,
      overwrite the editable columns in place and re-fold the totals of the
      message's session. */
  function UpdateChatMessage(store: ChatStore, caller: int, mid: string, edit: MessageEdit, now: int, writeOk: bool, rollup: bool): (r: Reply<ChatStore, Message>)
    ensures edit.content == "" ==> r.result == Err(Invalid(BadFormat))
    ensures edit.content != "" && OwnedMessage(store, caller, mid).Err? ==> r.result == Err(OwnedMessage(store, caller, mid).error)
    ensures r.result.Err? ==> r.state == store
    ensures r.result.Ok? ==> OwnedMessage(store, caller, mid).Ok?
    ensures r.result.Ok? ==> var i := OwnedMessage(store, caller, mid).value;
      && r.result.value == EditedRow(store.messages[i], edit, now)
      && r.state.messages == store.messages[i := r.result.value]
    ensures r.result.Ok? && rollup ==> RollupConsistent(r.state, r.result.value.sessionId)
    ensures |r.state.sessions| == |store.sessions|
    ensures forall i :: 0 <= i < |store.sessions| ==> r.state.sessions[i].sessionId == store.sessions[i].sessionId
    ensures r.result.Ok? ==> forall i :: 0 <= i < |store.sessions| && store.sessions[i].sessionId != r.result.value.sessionId ==>
      r.state.sessions[i] == store.sessions[i]
    ensures SessionIdsUnique(store.sessions) ==> SessionIdsUnique(r.state.sessions)
  {
    if edit.content == "" then Reply(store, Err(Invalid(BadFormat)))
    else match OwnedMessage(store, caller, mid)
      case Err(e) => Reply(store, Err(e))
      case Ok(i) =>
        if !writeOk then Reply(store, Err(StoreFailure))
        else
          var m := EditedRow(store.messages[i], edit, now);
          var written := store.(messages := store.messages[i := m]);
          Reply(RollUp(written, m.sessionId, now, rollup), Ok(m))
  }

  /** `DeleteChatMessage`: after the ownership check through the session,
      remove that one row and re-fold the totals of its session. */
  function DeleteChatMessage(store: ChatStore, caller: int, mid: string, now: int, deleteOk: bool, rollup: bool): (r: Reply<ChatStore, Message>)
    ensures OwnedMessage(store, caller, mid).Err? ==> r.result == Err(OwnedMessage(store, caller, mid).error)
    ensures r.result.Err? ==> r.state == store
    ensures r.result.Ok? ==> OwnedMessage(store, caller, mid).Ok?
    ensures r.result.Ok? ==> var i := OwnedMessage(store, caller, mid).value;
      && r.result.value == store.messages[i]
      && r.state.messages == store.messages[..i] + store.messages[i + 1..]
    ensures r.result.Ok? && rollup ==> RollupConsistent(r.state, r.result.value.sessionId)
    ensures |r.state.sessions| == |store.sessions|
    ensures forall i :: 0 <= i < |store.sessions| ==> r.state.sessions[i].sessionId == store.sessions[i].sessionId
    ensures r.result.Ok? ==> forall i :: 0 <= i < |store.sessions| && store.sessions[i].sessionId != r.result.value.sessionId ==>
      r.state.sessions[i] == store.sessions[i]
    ensures SessionIdsUnique(store.sessions) ==> SessionIdsUnique(r.state.sessions)
  {
    match OwnedMessage(store, caller, mid)
    case Err(e) => Reply(store, Err(e))
    case Ok(i) =>
      if !deleteOk then Reply(store, Err(StoreFailure))
      else
        var m := store.messages[i];
        var removed := store.(messages := store.messages[..i] + store.messages[i + 1..]);
        Reply(RollUp(removed, m.sessionId, now, rollup), Ok(m))
  }

  /** `GetSessionMessages` handler: ownership first, then the clamped page
      (default size 20). */
  function ListSessionMessages(store: ChatStore, caller: int, sid: string, page: int, size: int): (r: Result<Paged<Message>>)
    ensures r.Err? ==> OwnedSession(store, caller, sid) == Err(r.error)
    ensures r.Ok? ==> OwnedSession(store, caller, sid).Ok?
    ensures r.Ok? ==> r.value.page == ClampPage(page) && r.value.size == ClampSize(size, MessagePageSize)
    ensures r.Ok? ==> r.value.listing == GetSessionMessages(store, sid, r.value.page, r.value.size)
  {
    match OwnedSession(store, caller, sid)
    case Err(e) => Err(e)
    case Ok(_) =>
      var p := ClampPage(page);
      var s := ClampSize(size, MessagePageSize);
      Ok(Paged(GetSessionMessages(store, sid, p, s), p, s))
  }

  /** `GetUserMessages` handler (default size 20). */
  function ListUserMessages(store: ChatStore, caller: int, page: int, size: int): (r: Paged<Message>)
    ensures r.page == ClampPage(page) && r.size == ClampSize(size, MessagePageSize)
    ensures r.listing == GetUserMessages(store, caller, r.page, r.size)
  {
    var p := ClampPage(page);
    var s := ClampSize(size, MessagePageSize);
    Paged(GetUserMessages(store, caller, p, s), p, s)
  }

  /** `SearchMessages` handler (default size 20). */
  function SearchUserMessages(store: ChatStore, caller: int, keyword: string, page: int, size: int): (r: Paged<Message>)
    ensures r.page == ClampPage(page) && r.size == ClampSize(size, MessagePageSize)
    ensures r.listing == SearchMessages(store, caller, keyword, r.page, r.size)
  {
    var p := ClampPage(page);
    var s := ClampSize(size, MessagePageSize);
    Paged(SearchMessages(store, caller, keyword, p, s), p, s)
  }

  /** `GetErrorMessages` handler (default size 20). */
  function ListErrorMessages(store: ChatStore, caller: int, page: int, size: int): (r: Paged<Message>)
    ensures r.page == ClampPage(page) && r.size == ClampSize(size, MessagePageSize)
    ensures r.listing == GetErrorMessages(store, caller, r.page, r.size)
  {
    var p := ClampPage(page);
    var s := ClampSize(size, MessagePageSize);
    Paged(GetErrorMessages(store, caller, p, s), p, s)
  }

  /** `GetMessageStats` handler: ownership first. */
  function SessionMessageStats(store: ChatStore, caller: int, sid: string): (r: Result<MessageStats>)
    ensures r.Err? ==> OwnedSession(store, caller, sid) == Err(r.error)
    ensures r.Ok? ==> OwnedSession(store, caller, sid).Ok? && r.value == GetMessageStats(store, sid)
  {
    match OwnedSession(store, caller, sid)
    case Err(e) => Err(e)
    case Ok(_) => Ok(GetMessageStats(store, sid))
  }

  /** An empty keyword filters nothing: the message search equals the
      plain per-user listing. */
  lemma EmptyMessageSearch(store: ChatStore, uid: int, page: int, size: int)
    ensures SearchMessages(store, uid, "", page, size) == GetUserMessages(store, uid, page, size)
  {
    var ids := UserSessionIds(store, uid);
    FilterSame(store.messages, LiveOfUserMatching(ids, ""), LiveOfUser(ids));
  }

  // ---------------------------------------------------------------------
  // The roll-up across handlers
  // ---------------------------------------------------------------------

  /** Recomputing after an insert agrees with incrementing: on a consistent
      session, the new totals are the old ones plus one message and its
      tokens and cost. */
  lemma CreateIsIncrement(store: ChatStore, caller: int, req: NewMessage, now: int, insertOk: bool, i: nat)
    requires RollupConsistent(store, req.sessionId)
    requires i < |store.sessions| && store.sessions[i].sessionId == req.sessionId
    requires CreateChatMessage(store, caller, req, now, insertOk, true).result.Ok?
    ensures var after := CreateChatMessage(store, caller, req, now, insertOk, true).state.sessions[i];
      && after.totalMessages == store.sessions[i].totalMessages + 1
      && after.totalTokens == store.sessions[i].totalTokens + req.tokens
      && after.totalCost == store.sessions[i].totalCost + req.cost
  {
    var r := CreateChatMessage(store, caller, req, now, insertOk, true);
    var m := r.result.value;
    FilterAppend(store.messages, m, LiveIn(req.sessionId));
    SumAppend(LiveMessages(store, req.sessionId), m, Tokens);
    SumAppend(LiveMessages(store, req.sessionId), m, Cost);
    assert store.sessions[i] in store.sessions;
    assert r.state.sessions[i] in r.state.sessions;
  }

  /** A message mutation in one session leaves every other session's
      roll-up as consistent as it was. */
  lemma CreateKeepsOtherRollups(store: ChatStore, caller: int, req: NewMessage, now: int, insertOk: bool, rollup: bool, other: string)
    requires other != req.sessionId && RollupConsistent(store, other)
    ensures RollupConsistent(CreateChatMessage(store, caller, req, now, insertOk, rollup).state, other)
  {
    var r := CreateChatMessage(store, caller, req, now, insertOk, rollup);
    if r.result.Ok? {
      FilterAppend(store.messages, r.result.value, LiveIn(other));
      SameRowsOutside(store, r.state, req.sessionId, other);
    }
  }

  lemma UpdateKeepsOtherRollups(store: ChatStore, caller: int, mid: string, edit: MessageEdit, now: int, writeOk: bool, rollup: bool, other: string)
    requires RollupConsistent(store, other)
    requires UpdateChatMessage(store, caller, mid, edit, now, writeOk, rollup).result.Ok? ==>
      UpdateChatMessage(store, caller, mid, edit, now, writeOk, rollup).result.value.sessionId != other
    ensures RollupConsistent(UpdateChatMessage(store, caller, mid, edit, now, writeOk, rollup).state, other)
  {
    var r := UpdateChatMessage(store, caller, mid, edit, now, writeOk, rollup);
    if r.result.Ok? {
      var i := OwnedMessage(store, caller, mid).value;
      FilterReplaceRejected(store.messages, i, r.result.value, LiveIn(other));
      SameRowsOutside(store, r.state, r.result.value.sessionId, other);
    }
  }

  lemma DeleteKeepsOtherRollups(store: ChatStore, caller: int, mid: string, now: int, deleteOk: bool, rollup: bool, other: string)
    requires RollupConsistent(store, other)
    requires DeleteChatMessage(store, caller, mid, now, deleteOk, rollup).result.Ok? ==>
      DeleteChatMessage(store, caller, mid, now, deleteOk, rollup).result.value.sessionId != other
    ensures RollupConsistent(DeleteChatMessage(store, caller, mid, now, deleteOk, rollup).state, other)
  {
    var r := DeleteChatMessage(store, caller, mid, now, deleteOk, rollup);
    if r.result.Ok? {
      var i := OwnedMessage(store, caller, mid).value;
      FilterRemoveRejected(store.messages, i, LiveIn(other));
      SameRowsOutside(store, r.state, r.result.value.sessionId, other);
    }
  }

  /** Consistency of `other` carries over when its live messages and its
      session rows are unchanged. */
  lemma SameRowsOutside(before: ChatStore, after: ChatStore, touched: string, other: string)
    requires other != touched && RollupConsistent(before, other)
    requires LiveMessages(after, other) == LiveMessages(before, other)
    requires |after.sessions| == |before.sessions|
    requires forall i :: 0 <= i < |before.sessions| ==> after.sessions[i].sessionId == before.sessions[i].sessionId
    requires forall i :: 0 <= i < |before.sessions| && before.sessions[i].sessionId != touched ==> after.sessions[i] == before.sessions[i]
    ensures RollupConsistent(after, other)
  {
    forall s | s in after.sessions && s.sessionId == other
      ensures s.totalMessages == |LiveMessages(after, other)|
      ensures s.totalTokens == Sum(LiveMessages(after, other), Tokens)
      ensures s.totalCost == Sum(LiveMessages(after, other), Cost)
    {
      var k :| 0 <= k < |after.sessions| && after.sessions[k] == s;
      assert before.sessions[k] in before.sessions;
    }
  }
}

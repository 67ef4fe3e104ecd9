/** The topic endpoints. Unlike the other list endpoints they pass `page`
    and `page_size` to the query as given (an unparsable number reads as 0),
    so a negative page size lifts the limit. */
module TopicApi {
  import opened Results
  import opened Query
  import opened TopicModel
  import Text

  /** Role given to a message sent without one. */
  const DefaultRole := "user"
  const AssistantRole := "assistant"

  /** What a successful message post answers: the stored message and the
      stored reply. */
  datatype Exchange = Exchange(userMessage: TopicMessage, aiMessage: TopicMessage)

  /** `GetTopics`: the caller's live topics, page and size unclamped. */
  function ListTopics(st: TopicStore, caller: int, page: int, size: int): (r: Listing<TopicView>)
    ensures r.total == |Filter(st.topics, LiveTopicOf(caller))|
    ensures forall i :: 0 <= i < |r.items| ==> r.items[i].topic.userId == caller && r.items[i].topic.status == 1
    ensures size >= 0 ==> |r.items| <= size
    ensures WindowOfOrdered(TopicsOf(r.items), Filter(st.topics, LiveTopicOf(caller)), TopicNewestFirst, Offset(page, size), size)
  {
    GetUserTopics(st, caller, page, size)
  }

  /** With the first page and a negative page size every live topic is
      returned at once: the size is not clamped to 1..100 here. */
  lemma NegativePageSizeListsAll(st: TopicStore, caller: int, size: int)
    requires size < 0
    ensures |ListTopics(st, caller, 1, size).items| == |Filter(st.topics, LiveTopicOf(caller))|
  {
    GetUserTopicsUnlimited(st, caller, 1, size);
  }

  /** `CreateTopic`: the name is required; an empty model and a zero channel
      take their defaults; the caller owns the new, active topic. */
  function CreateTopicEndpoint(st: TopicStore, caller: int, name: string, model: string, channel: int, now: int, insertOk: bool): (r: Reply<TopicStore, Topic>)
    ensures name == "" ==> r == Reply(st, Err(Invalid(BadFormat)))
    ensures r.result.Err? ==> r.state == st
    ensures r.result.Ok? <==> name != "" && insertOk
    ensures r.result.Ok? ==>
      && r.state.topics == st.topics + [r.result.value]
      && r.result.value.userId == caller && r.result.value.topicName == name && r.result.value.status == 1
      && r.result.value.model == (if model == "" then DefaultModel else model)
      && r.result.value.channelId == (if channel == 0 then DefaultChannel else channel)
      && r.result.value.model != "" && r.result.value.channelId != 0
    ensures r.state.messages == st.messages
  {
    if name == "" then Reply(st, Err(Invalid(BadFormat)))
    else if !insertOk then Reply(st, Err(StoreFailure))
    else
      var row := Topic(0, caller, name, if model == "" then DefaultModel else model,
                       if channel == 0 then DefaultChannel else channel, now, 1);
      var after := CreateTopic(st, row);
      assert after.topics == st.topics + [after.topics[|st.topics|]];
      Reply(after, Ok(after.topics[|st.topics|]))
  }

  /** The ownership check shared by delete, the message listing and the
      message post: not found (missing or deleted), then forbidden. */
  function OwnedTopic(st: TopicStore, caller: int, id: int): (r: Result<Topic>)
    ensures r.Ok? ==> r.value in st.topics && r.value.id == id && r.value.userId == caller && r.value.status == 1
    ensures r.Err? && r.error == NotFound <==> !exists t :: t in st.topics && t.id == id && t.status == 1
    ensures r.Err? ==> r.error == NotFound || r.error == Forbidden
  {
    match GetTopicById(st, id)
    case Err(e) => Err(NotFound)
    case Ok(v) => if v.topic.userId != caller then Err(Forbidden) else Ok(v.topic)
  }

  /** `DeleteTopic` endpoint. */
  function DeleteTopicEndpoint(st: TopicStore, caller: int, id: int, writeOk: bool): (r: Reply<TopicStore, ()>)
    ensures OwnedTopic(st, caller, id).Err? ==> r == Reply(st, Err(OwnedTopic(st, caller, id).error))
    ensures r.result.Err? ==> r.state == st
    ensures r.result.Ok? ==> OwnedTopic(st, caller, id).Ok? && r.state == DeleteTopic(st, id)
    ensures r.result.Ok? ==> GetTopicById(r.state, id) == Err(NotFound)
  {
    match OwnedTopic(st, caller, id)
    case Err(e) => Reply(st, Err(e))
    case Ok(_) =>
      if !writeOk then Reply(st, Err(StoreFailure))
      else
        DeleteHidesTopic(st, id);
        Reply(DeleteTopic(st, id), Ok(()))
  }

  /** `GetTopicMessages` endpoint: page and size unclamped. */
  function TopicMessagesEndpoint(st: TopicStore, caller: int, id: int, page: int, size: int): (r: Result<Listing<TopicMessage>>)
    ensures OwnedTopic(st, caller, id).Err? ==> r == Err(OwnedTopic(st, caller, id).error)
    ensures r.Ok? ==> OwnedTopic(st, caller, id).Ok?
    ensures r.Ok? ==> r.value.total == |Filter(st.messages, LiveMessageOf(id))|
    ensures r.Ok? ==> forall m :: m in r.value.items ==> m in st.messages && m.topicId == id && m.status == 1
    ensures r.Ok? ==> WindowOfOrdered(r.value.items, Filter(st.messages, LiveMessageOf(id)), MessageOldestFirst, Offset(page, size), size)
    ensures r.Ok? && size >= 0 ==> |r.value.items| <= size
  {
    match OwnedTopic(st, caller, id)
    case Err(e) => Err(e)
    case Ok(_) => Ok(GetTopicMessages(st, id, page, size))
  }

  /** `CreateMessage` endpoint: after the ownership check and the required
      content, the caller's message is stored (role "user" when none is
      given), then the canned reply drawn as `pick` is stored as the
      assistant's. The second insert can fail after the first committed:
      nothing is rolled back. */
  function CreateMessageEndpoint(st: TopicStore, caller: int, id: int, content: string, role: string, now: int, pick: int, firstOk: bool, secondOk: bool): (r: Reply<TopicStore, Exchange>)
    requires 0 <= pick < |CannedReplies|
    ensures OwnedTopic(st, caller, id).Err? ==> r == Reply(st, Err(OwnedTopic(st, caller, id).error))
    ensures OwnedTopic(st, caller, id).Ok? && content == "" ==> r == Reply(st, Err(Invalid(BadFormat)))
    ensures r.state.topics == st.topics
    ensures r.result.Ok? ==>
      && r.state.messages == st.messages + [r.result.value.userMessage, r.result.value.aiMessage]
      && r.result.value.userMessage.topicId == id && r.result.value.aiMessage.topicId == id
      && r.result.value.userMessage.content == content
      && r.result.value.userMessage.role == (if role == "" then DefaultRole else role)
      && r.result.value.aiMessage.role == AssistantRole
      && r.result.value.userMessage.status == 1 && r.result.value.aiMessage.status == 1
    ensures r.result.Err? ==> |st.messages| <= |r.state.messages| <= |st.messages| + 1
    ensures r.result.Err? && |r.state.messages| == |st.messages| + 1 ==>
      firstOk && !secondOk && r.state.messages[|st.messages|].content == content
  {
    match OwnedTopic(st, caller, id)
    case Err(e) => Reply(st, Err(e))
    case Ok(topic) =>
      if content == "" then Reply(st, Err(Invalid(BadFormat)))
      else if !firstOk then Reply(st, Err(StoreFailure))
      else
        var mine := TopicMessage(0, id, if role == "" then DefaultRole else role, content, now, 1);
        var s1 := CreateMessage(st, mine);
        var stored := s1.messages[|st.messages|];
        if !secondOk then Reply(s1, Err(StoreFailure))
        else
          var reply := TopicMessage(0, id, AssistantRole, GenerateAIResponse(content, topic.topicName, pick), now, 1);
          var s2 := CreateMessage(s1, reply);
          var answer := s2.messages[|s1.messages|];
          assert s2.messages == st.messages + [stored, answer];
          Reply(s2, Ok(Exchange(stored, answer)))
  }

  /** A successful post raises the topic's live-message count by exactly
      two, the count the topic listing reports. */
  lemma PostAddsTwoMessages(st: TopicStore, caller: int, id: int, content: string, role: string, now: int, pick: int)
    requires 0 <= pick < |CannedReplies|
    requires CreateMessageEndpoint(st, caller, id, content, role, now, pick, true, true).result.Ok?
    ensures var after := CreateMessageEndpoint(st, caller, id, content, role, now, pick, true, true).state;
      |Filter(after.messages, LiveMessageOf(id))| == |Filter(st.messages, LiveMessageOf(id))| + 2
  {
    var r := CreateMessageEndpoint(st, caller, id, content, role, now, pick, true, true);
    var ex := r.result.value;
    FilterAppend(st.messages, ex.userMessage, LiveMessageOf(id));
    assert st.messages + [ex.userMessage, ex.aiMessage] == (st.messages + [ex.userMessage]) + [ex.aiMessage];
    FilterAppend(st.messages + [ex.userMessage], ex.aiMessage, LiveMessageOf(id));
  }

  /** The assistant's reply in a successful post names the topic in
      quotes. */
  lemma PostReplyQuotesTopic(st: TopicStore, caller: int, id: int, content: string, role: string, now: int, pick: int)
    requires 0 <= pick < |CannedReplies|
    requires CreateMessageEndpoint(st, caller, id, content, role, now, pick, true, true).result.Ok?
    requires OwnedTopic(st, caller, id).value.topicName != ""
    ensures var ex := CreateMessageEndpoint(st, caller, id, content, role, now, pick, true, true).result.value;
      Text.Contains(ex.aiMessage.content, "\"" + OwnedTopic(st, caller, id).value.topicName + "\"")
  {
    ReplyQuotesTopic(content, OwnedTopic(st, caller, id).value.topicName, pick);
  }

  /** After a topic is deleted its messages can no longer be listed or
      posted to, by anyone. */
  lemma DeletedTopicIsClosed(st: TopicStore, caller: int, id: int, who: int, page: int, size: int)
    requires DeleteTopicEndpoint(st, caller, id, true).result.Ok?
    ensures var after := DeleteTopicEndpoint(st, caller, id, true).state;
      TopicMessagesEndpoint(after, who, id, page, size) == Err(NotFound)
  {
  }
}

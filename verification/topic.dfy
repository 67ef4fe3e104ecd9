/** Topics and their message threads: a user's conversation topics, each
    with messages answered by a canned assistant reply. Both tables are
    soft-deleted (status 0) and reads keep only status 1. */
module TopicModel {
  import opened Results
  import opened Query
  import Text

  /** A row of `topics`. */
  datatype Topic = Topic(
    id: nat,
    userId: int,
    topicName: string,
    model: string,
    channelId: int,
    createdAt: int,
    status: int)

  /** A row of `messages`. */
  datatype TopicMessage = TopicMessage(
    id: nat,
    topicId: int,
    role: string,
    content: string,
    createdAt: int,
    status: int)

  /** Both tables in primary-key order. */
  datatype TopicStore = TopicStore(topics: seq<Topic>, messages: seq<TopicMessage>)

  /** A topic as read: with the number of its live messages. */
  datatype TopicView = TopicView(topic: Topic, messageCount: nat)

  /** Column defaults of `topics`. */
  const DefaultModel := "gpt-3.5-turbo"
  const DefaultChannel := 1

  function LiveTopicOf(uid: int): Topic -> bool { (t: Topic) => t.userId == uid && t.status == 1 }
  function LiveTopicWithId(id: int): Topic -> bool { (t: Topic) => t.id == id && t.status == 1 }
  function TopicWithId(id: int): Topic -> bool { (t: Topic) => t.id == id }
  function TopicStatus(v: int): Topic -> Topic { (t: Topic) => t.(status := v) }
  function LiveMessageOf(tid: int): TopicMessage -> bool { (m: TopicMessage) => m.topicId == tid && m.status == 1 }

  /** `ORDER BY created_at DESC` for topics. */
  function TopicNewestFirst(t: Topic): Key { Key(t.createdAt, 0, 0) }
  /** `ORDER BY created_at ASC` for messages. */
  function MessageOldestFirst(m: TopicMessage): Key { Key(-m.createdAt, 0, 0) }

  /** A topic with its live-message count (`Preload` restricted to status
      1, then `len`). */
  function ViewOf(st: TopicStore, t: Topic): (v: TopicView)
    ensures v.topic == t && v.messageCount == |Filter(st.messages, LiveMessageOf(t.id))|
  {
    TopicView(t, |Filter(st.messages, LiveMessageOf(t.id))|)
  }

  function Views(st: TopicStore, rows: seq<Topic>): (r: seq<TopicView>)
    ensures |r| == |rows|
    ensures forall i :: 0 <= i < |rows| ==> r[i] == ViewOf(st, rows[i])
  {
    if rows == [] then [] else [ViewOf(st, rows[0])] + Views(st, rows[1..])
  }

  /** The rows behind a sequence of views, in the same order. */
  function TopicsOf(views: seq<TopicView>): (r: seq<Topic>)
    ensures |r| == |views|
    ensures forall i :: 0 <= i < |views| ==> r[i] == views[i].topic
  {
    if views == [] then [] else [views[0].topic] + TopicsOf(views[1..])
  }

  /** `GetUserTopics`: the user's live topics, newest first, each with the
      count of its live messages. */
  function GetUserTopics(st: TopicStore, uid: int, page: int, size: int): (r: Listing<TopicView>)
    ensures r.total == |Filter(st.topics, LiveTopicOf(uid))|
    ensures forall i :: 0 <= i < |r.items| ==>
      && r.items[i].topic in st.topics
      && r.items[i].topic.userId == uid && r.items[i].topic.status == 1
      && r.items[i].messageCount == |Filter(st.messages, LiveMessageOf(r.items[i].topic.id))|
    ensures size >= 0 ==> |r.items| <= size
    ensures WindowOfOrdered(TopicsOf(r.items), Filter(st.topics, LiveTopicOf(uid)), TopicNewestFirst, Offset(page, size), size)
  {
    var listing := PageOf(Filter(st.topics, LiveTopicOf(uid)), TopicNewestFirst, Offset(page, size), size);
    LiveViews(st, uid, listing.items);
    Listing(Views(st, listing.items), listing.total)
  }

  /** Views of rows drawn from the user's live topics describe live topics
      of that user, each with its live-message count. */
  lemma LiveViews(st: TopicStore, uid: int, items: seq<Topic>)
    requires forall x :: x in items ==> x in Filter(st.topics, LiveTopicOf(uid))
    ensures forall i :: 0 <= i < |Views(st, items)| ==>
      && Views(st, items)[i].topic in st.topics
      && Views(st, items)[i].topic.userId == uid && Views(st, items)[i].topic.status == 1
      && Views(st, items)[i].messageCount == |Filter(st.messages, LiveMessageOf(Views(st, items)[i].topic.id))|
    ensures TopicsOf(Views(st, items)) == items
  {
    var views := Views(st, items);
    forall i | 0 <= i < |views|
      ensures views[i].topic in st.topics && LiveTopicOf(uid)(views[i].topic)
    {
      assert views[i].topic == items[i] && items[i] in items;
    }
    assert TopicsOf(views) == items;
  }

  /** With no offset and a negative limit the query has neither clause:
      every live topic is listed. */
  lemma GetUserTopicsUnlimited(st: TopicStore, uid: int, page: int, size: int)
    requires Offset(page, size) <= 0 && size < 0
    ensures |GetUserTopics(st, uid, page, size).items| == |Filter(st.topics, LiveTopicOf(uid))|
  {
    var live := Filter(st.topics, LiveTopicOf(uid));
    var listing := PageOf(live, TopicNewestFirst, Offset(page, size), size);
    assert |Views(st, listing.items)| == |listing.items| == |live|;
  }

  /** `GetTopicByID`: the first live row with that key; a deleted topic is
      not found. */
  function GetTopicById(st: TopicStore, id: int): (r: Result<TopicView>)
    ensures r.Ok? <==> exists t :: t in st.topics && t.id == id && t.status == 1
    ensures r.Ok? ==> r.value.topic in st.topics && r.value.topic.id == id && r.value.topic.status == 1
    ensures r.Ok? ==> r.value.messageCount == |Filter(st.messages, LiveMessageOf(id))|
    ensures r.Err? ==> r.error == NotFound
  {
    match FirstIndex(st.topics, LiveTopicWithId(id))
    case Some(i) => Ok(ViewOf(st, st.topics[i]))
    case None =>
      assert forall t :: t in st.topics ==> !LiveTopicWithId(id)(t);
      Err(NotFound)
  }

  /** `CreateTopic`: appends with the next key; zero-valued columns that
      carry a default take it. */
  function CreateTopic(st: TopicStore, row: Topic): (r: TopicStore)
    ensures |r.topics| == |st.topics| + 1 && r.topics[..|st.topics|] == st.topics
    ensures var t := r.topics[|st.topics|];
      && t.id == |st.topics| + 1 && t.userId == row.userId && t.topicName == row.topicName
      && t.model == (if row.model == "" then DefaultModel else row.model)
      && t.channelId == (if row.channelId == 0 then DefaultChannel else row.channelId)
      && t.status == (if row.status == 0 then 1 else row.status)
      && t.createdAt == row.createdAt
    ensures r.messages == st.messages
  {
    var t := row.(
      id := |st.topics| + 1,
      model := if row.model == "" then DefaultModel else row.model,
      channelId := if row.channelId == 0 then DefaultChannel else row.channelId,
      status := if row.status == 0 then 1 else row.status);
    st.(topics := st.topics + [t])
  }

  /** `DeleteTopic`: soft delete by key; the topic's messages stay. */
  function DeleteTopic(st: TopicStore, id: int): (r: TopicStore)
    ensures |r.topics| == |st.topics|
    ensures forall i :: 0 <= i < |st.topics| ==>
      r.topics[i] == (if st.topics[i].id == id then st.topics[i].(status := 0) else st.topics[i])
    ensures r.messages == st.messages
  {
    st.(topics := UpdateWhere(st.topics, TopicWithId(id), TopicStatus(0)))
  }

  /** `GetTopicMessages`: the topic's live messages, oldest first; the count
      uses the same filter. */
  function GetTopicMessages(st: TopicStore, tid: int, page: int, size: int): (r: Listing<TopicMessage>)
    ensures r.total == |Filter(st.messages, LiveMessageOf(tid))|
    ensures WindowOfOrdered(r.items, Filter(st.messages, LiveMessageOf(tid)), MessageOldestFirst, Offset(page, size), size)
    ensures forall m :: m in r.items ==> m in st.messages && m.topicId == tid && m.status == 1
  {
    PageOf(Filter(st.messages, LiveMessageOf(tid)), MessageOldestFirst, Offset(page, size), size)
  }

  /** `CreateMessage`: appends with the next key; status 0 takes the column
      default 1. */
  function CreateMessage(st: TopicStore, m: TopicMessage): (r: TopicStore)
    ensures r.topics == st.topics
    ensures r.messages == st.messages + [m.(id := |st.messages| + 1, status := if m.status == 0 then 1 else m.status)]
  {
    st.(messages := st.messages + [m.(id := |st.messages| + 1, status := if m.status == 0 then 1 else m.status)])
  }

  /** The canned assistant replies; one is drawn at random. */
  const CannedReplies: seq<string> := [
    "这是一个很好的问题！让我来为您详细解答。",
    "根据您的问题，我认为可以从以下几个方面来考虑。",
    "感谢您的提问！这个问题确实很有趣，我的看法是...",
    "您提到的这个观点很有见地，我想补充几点。",
    "这个问题涉及到多个层面，让我逐一为您分析。",
    "非常有趣的问题！让我从专业角度为您解答。",
    "您的问题很有深度，我来为您详细分析一下。",
    "这是一个值得深入探讨的话题，我的观点是...",
    "感谢您的提问，让我为您提供一些见解。",
    "您的问题很有启发性，我认为可以这样理解..."
  ]

  /** The prefix that names the topic in a reply. */
  function TopicPrefix(topicName: string): string
  {
    "\"" + topicName + "\": "
  }

  /** `GenerateAIResponse`: reply `pick` (the random draw), prefixed by the
      quoted topic name when there is one. The user's message is not used. */
  function GenerateAIResponse(userMessage: string, topicName: string, pick: int): (r: string)
    requires 0 <= pick < |CannedReplies|
    ensures topicName != "" ==> Text.IsPrefix(TopicPrefix(topicName), r)
    ensures topicName == "" ==> r in CannedReplies
    ensures exists line :: line in CannedReplies && |line| <= |r| && r[|r| - |line|..] == line
  {
    var line := CannedReplies[pick];
    var r := if topicName != "" then TopicPrefix(topicName) + line else line;
    assert r[|r| - |line|..] == line;
    r
  }

  /** Whatever follows it, the topic prefix puts the quoted name at the
      start and the bare name at index 1. */
  lemma PrefixQuotesName(topicName: string, rest: string)
    ensures Text.OccursAt(TopicPrefix(topicName) + rest, "\"" + topicName + "\"", 0)
    ensures Text.OccursAt(TopicPrefix(topicName) + rest, topicName, 1)
  {
    var r := TopicPrefix(topicName) + rest;
    var quoted := "\"" + topicName + "\"";
    assert r[0..|quoted|] == quoted;
    assert r[1..1 + |topicName|] == topicName;
  }

  /** A reply names its topic in quotes, as a substring the client can look
      for. */
  lemma ReplyQuotesTopic(userMessage: string, topicName: string, pick: int)
    requires 0 <= pick < |CannedReplies|
    requires topicName != ""
    ensures Text.Contains(GenerateAIResponse(userMessage, topicName, pick), "\"" + topicName + "\"")
    ensures Text.Contains(GenerateAIResponse(userMessage, topicName, pick), topicName)
  {
    var r := GenerateAIResponse(userMessage, topicName, pick);
    assert r == TopicPrefix(topicName) + CannedReplies[pick];
    PrefixQuotesName(topicName, CannedReplies[pick]);
    Text.OccursThenContains(r, "\"" + topicName + "\"", 0);
    Text.OccursThenContains(r, topicName, 1);
  }

  /** A deleted topic cannot be read any more, while its messages remain in
      the table. */
  lemma DeleteHidesTopic(st: TopicStore, id: int)
    ensures GetTopicById(DeleteTopic(st, id), id) == Err(NotFound)
    ensures DeleteTopic(st, id).messages == st.messages
  {
    var after := DeleteTopic(st, id);
    forall t | t in after.topics && t.id == id ensures t.status != 1 {
      var i :| 0 <= i < |after.topics| && after.topics[i] == t;
    }
  }

  /** Deleting one topic leaves every other topic readable exactly as it
      was. */
  lemma DeleteKeepsOthers(st: TopicStore, id: int, other: int)
    requires other != id
    ensures GetTopicById(DeleteTopic(st, id), other) == GetTopicById(st, other)
  {
    var after := DeleteTopic(st, id);
    assert forall i :: 0 <= i < |st.topics| ==> (LiveTopicWithId(other)(st.topics[i]) <==> LiveTopicWithId(other)(after.topics[i]));
    match FirstIndex(st.topics, LiveTopicWithId(other)) {
      case Some(k) =>
        FirstIndexStable(st.topics, after.topics, LiveTopicWithId(other), k);
      case None =>
        assert forall i :: 0 <= i < |after.topics| ==> !LiveTopicWithId(other)(after.topics[i]);
    }
  }
}

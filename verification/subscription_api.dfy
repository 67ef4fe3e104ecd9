/** The subscription endpoints. They follow the per-owner flow: a
    subscription belongs to the user recorded in `create_user_id`, and every
    endpoint that names a subscription by key answers not-found for a
    missing key and forbidden for a row of another owner, before any write.
    Writes the store refuses are passed in as `writeOk` flags. */
module SubscriptionApi {
  import opened Results
  import opened Query
  import opened SubscriptionModel

  /** Page size used when the requested one is out of range. */
  const SubscriptionPageSize := 10
  /** Binding limits: `max` counts characters. */
  const TopicNameMax := 100
  const DescriptionMax := 1000

  /** The create request binds when the topic is present and both fields
      are within their limits. */
  predicate CreateRequestBinds(topic: string, description: string)
  {
    topic != "" && |topic| <= TopicNameMax && |description| <= DescriptionMax
  }

  /** The update request has no required field, only limits. */
  predicate UpdateRequestBinds(topic: string, description: string)
  {
    |topic| <= TopicNameMax && |description| <= DescriptionMax
  }

  /** The ownership check shared by update, reactivate, delete and the
      article listing. */
  function OwnedSubscription(st: SubStore, caller: int, id: int): (r: Result<Subscription>)
    ensures r.Ok? ==> r.value in st.subscriptions && r.value.id == id && r.value.createUserId == caller
    ensures r.Err? && r.error == NotFound <==> !exists s :: s in st.subscriptions && s.id == id
    ensures r.Err? ==> r.error == NotFound || r.error == Forbidden
    ensures Valid(st) && r.Err? && r.error == Forbidden ==>
      forall s :: s in st.subscriptions && s.id == id ==> s.createUserId != caller
  {
    match GetSubscriptionById(st, id)
    case Err(e) =>
      assert forall s :: s in st.subscriptions ==> s.id != id by {
        forall s | s in st.subscriptions ensures s.id != id {
          var i :| 0 <= i < |st.subscriptions| && st.subscriptions[i] == s;
        }
      }
      Err(NotFound)
    case Ok(v) =>
      if v.subscription.createUserId != caller then
        OneRowPerId(st, v.subscription, id);
        Err(Forbidden)
      else Ok(v.subscription)
  }

  /** While keys are positions a key names one row. */
  lemma OneRowPerId(st: SubStore, row: Subscription, id: int)
    requires row in st.subscriptions && row.id == id
    ensures IdsArePositions(st) ==> forall s :: s in st.subscriptions && s.id == id ==> s == row
  {
    if IdsArePositions(st) {
      forall s | s in st.subscriptions && s.id == id ensures s == row {
        var i :| 0 <= i < |st.subscriptions| && st.subscriptions[i] == s;
        var j :| 0 <= j < |st.subscriptions| && st.subscriptions[j] == row;
      }
    }
  }

  /** `GetUserSubscriptions`: clamps the page and size, then runs the
      model query of the same name, which lists the caller's active rows
      only (see Findings in the README). */
  function ListSubscriptions(st: SubStore, caller: int, page: int, size: int): (r: Paged<SubscriptionView>)
    ensures r.page == ClampPage(page) && r.size == ClampSize(size, SubscriptionPageSize)
    ensures 1 <= r.page && 1 <= r.size <= MaxPageSize && |r.listing.items| <= r.size
    ensures r.listing.total == |Filter(st.subscriptions, ActiveOwnedBy(caller))|
    ensures WindowOfOrdered(SubscriptionsOf(r.listing.items), Filter(st.subscriptions, ActiveOwnedBy(caller)),
      SubscriptionNewestFirst, Offset(r.page, r.size), r.size)
    ensures forall i :: 0 <= i < |r.listing.items| ==>
      && r.listing.items[i].subscription in st.subscriptions
      && r.listing.items[i].subscription.createUserId == caller && r.listing.items[i].subscription.status == 1
  {
    var p := ClampPage(page);
    var s := ClampSize(size, SubscriptionPageSize);
    Paged(GetUserSubscriptions(st, caller, p, s), p, s)
  }

  /** The same endpoint over the listing the model query documents: every
      row of the caller, cancelled ones included. */
  function ListSubscriptionsCorrected(st: SubStore, caller: int, page: int, size: int): (r: Paged<SubscriptionView>)
    ensures r.page == ClampPage(page) && r.size == ClampSize(size, SubscriptionPageSize)
    ensures 1 <= r.page && 1 <= r.size <= MaxPageSize && |r.listing.items| <= r.size
    ensures r.listing.total == |Filter(st.subscriptions, OwnedBy(caller))|
    ensures WindowOfOrdered(SubscriptionsOf(r.listing.items), Filter(st.subscriptions, OwnedBy(caller)),
      SubscriptionNewestFirst, Offset(r.page, r.size), r.size)
    ensures forall i :: 0 <= i < |r.listing.items| ==>
      r.listing.items[i].subscription in st.subscriptions && r.listing.items[i].subscription.createUserId == caller
  {
    var p := ClampPage(page);
    var s := ClampSize(size, SubscriptionPageSize);
    Paged(ListOwnSubscriptions(st, caller, p, s), p, s)
  }

  /** `CreateSubscription`:
      - a request that does not bind is refused;
      - an active (caller, topic) row makes it refuse the duplicate;
      - otherwise the caller's cancelled rows for the topic are reactivated,
        and if the caller has any row for the topic its key is returned;
      - otherwise a new active row is inserted and its key returned.
      `reactivateOk` is false when the reactivation UPDATE fails, in which
      case the flow goes straight to the insert on the unchanged store. The
      lookup after the UPDATE is a read, and reads always succeed here. */
  function CreateSubscription(st: SubStore, caller: int, topic: string, description: string, now: int, reactivateOk: bool, insertOk: bool): (r: Reply<SubStore, int>)
    ensures !CreateRequestBinds(topic, description) ==> r == Reply(st, Err(Invalid(BadFormat)))
    ensures CreateRequestBinds(topic, description) && CheckSubscriptionExists(st, caller, topic) ==>
      r == Reply(st, Err(Invalid(AlreadySubscribed)))
    ensures r.result.Err? ==> r.result.error in {Invalid(BadFormat), Invalid(AlreadySubscribed), StoreFailure}
    ensures r.result.Ok? && StatusesBinary(st) ==>
      exists s :: s in r.state.subscriptions && s.id == r.result.value && OwnedTopic(caller, topic)(s) && s.status == 1
    ensures r.result.Ok? && StatusesBinary(st) ==> CheckSubscriptionExists(r.state, caller, topic)
    ensures r.result.Err? ==> r.state == st
    ensures |r.state.subscriptions| > |st.subscriptions| ==>
      && r.state.subscriptions == st.subscriptions + [Subscription(|st.subscriptions| + 1, caller, topic, description, now, 1)]
      && r.result == Ok(|st.subscriptions| + 1)
    ensures r.result.Ok? && |r.state.subscriptions| <= |st.subscriptions| ==> r.state == ReactivateSubscription(st, caller, topic)
    ensures r.state.links == st.links && r.state.articles == st.articles
    ensures Valid(st) ==> Valid(r.state)
  {
    if !CreateRequestBinds(topic, description) then Reply(st, Err(Invalid(BadFormat)))
    else if CheckSubscriptionExists(st, caller, topic) then Reply(st, Err(Invalid(AlreadySubscribed)))
    else
      var s1 := if reactivateOk then ReactivateSubscription(st, caller, topic) else st;
      ReactivateKeepsValid(st, caller, topic);
      match (if reactivateOk then FirstIndex(s1.subscriptions, OwnedTopic(caller, topic)) else None)
      case Some(i) =>
        var row := s1.subscriptions[i];
        ReactivatedRowIsActive(st, caller, topic, i);
        Reply(s1, Ok(row.id))
      case None =>
        assert s1 == st by {
          if reactivateOk { ReactivateWithoutRowIsNoop(st, caller, topic); }
        }
        if !insertOk then Reply(s1, Err(StoreFailure))
        else
          var created := SubscriptionModel.CreateSubscription(s1, caller, topic, description, now);
          if created.result.Ok? then
            assert created.result.value in created.state.subscriptions;
            Reply(created.state, Ok(created.result.value.id))
          else Reply(created.state, Err(StoreFailure))
  }

  /** When the reactivated table has no (caller, topic) row, there was none
      to reactivate either: the UPDATE wrote nothing. */
  lemma ReactivateWithoutRowIsNoop(st: SubStore, caller: int, topic: string)
    requires FirstIndex(ReactivateSubscription(st, caller, topic).subscriptions, OwnedTopic(caller, topic)).None?
    ensures ReactivateSubscription(st, caller, topic) == st
  {
    var s1 := ReactivateSubscription(st, caller, topic);
    forall i | 0 <= i < |st.subscriptions|
      ensures s1.subscriptions[i] == st.subscriptions[i]
    {
      assert !OwnedTopic(caller, topic)(s1.subscriptions[i]);
    }
    assert s1.subscriptions == st.subscriptions;
  }

  /** After the owner flow's reactivation every (caller, topic) row is
      active, given that rows are only ever active or cancelled. */
  lemma ReactivatedRowIsActive(st: SubStore, caller: int, topic: string, i: nat)
    requires i < |ReactivateSubscription(st, caller, topic).subscriptions|
    requires OwnedTopic(caller, topic)(ReactivateSubscription(st, caller, topic).subscriptions[i])
    ensures StatusesBinary(st) ==> ReactivateSubscription(st, caller, topic).subscriptions[i].status == 1
  {
    assert st.subscriptions[i] in st.subscriptions;
  }

  /** `UpdateSubscription`: after the ownership check only the description
      of the row changes; every other field and row is kept. */
  function UpdateSubscription(st: SubStore, caller: int, id: int, topic: string, description: string, writeOk: bool): (r: Reply<SubStore, ()>)
    ensures !UpdateRequestBinds(topic, description) ==> r == Reply(st, Err(Invalid(BadFormat)))
    ensures UpdateRequestBinds(topic, description) && OwnedSubscription(st, caller, id).Err? ==>
      r == Reply(st, Err(OwnedSubscription(st, caller, id).error))
    ensures r.result.Err? ==> r.state == st
    ensures r.result.Ok? ==> OwnedSubscription(st, caller, id).Ok?
    ensures |r.state.subscriptions| == |st.subscriptions|
    ensures forall i :: 0 <= i < |st.subscriptions| && st.subscriptions[i].id != id ==>
      r.state.subscriptions[i] == st.subscriptions[i]
    ensures r.result.Ok? && Valid(st) ==> forall i :: 0 <= i < |st.subscriptions| && st.subscriptions[i].id == id ==>
      r.state.subscriptions[i] == st.subscriptions[i].(topicDescription := description)
    ensures r.state.links == st.links && r.state.articles == st.articles
  {
    if !UpdateRequestBinds(topic, description) then Reply(st, Err(Invalid(BadFormat)))
    else match OwnedSubscription(st, caller, id)
    case Err(e) => Reply(st, Err(e))
    case Ok(row) =>
      if !writeOk then Reply(st, Err(StoreFailure))
      else
        OneRowPerId(st, row, id);
        Reply(SaveSubscription(st, row.(topicDescription := description)), Ok(()))
  }

  /** `ReactivateSubscription` endpoint: after the ownership check, every
      cancelled row of the caller with that row's topic becomes active. */
  function ReactivateEndpoint(st: SubStore, caller: int, id: int, writeOk: bool): (r: Reply<SubStore, ()>)
    ensures OwnedSubscription(st, caller, id).Err? ==> r == Reply(st, Err(OwnedSubscription(st, caller, id).error))
    ensures r.result.Err? ==> r.state == st
    ensures r.result.Ok? ==>
      OwnedSubscription(st, caller, id).Ok? &&
      r.state == ReactivateSubscription(st, caller, OwnedSubscription(st, caller, id).value.topicName)
    ensures r.result.Ok? && IdsArePositions(st) && StatusesBinary(st) ==>
      forall s :: s in r.state.subscriptions && s.id == id ==> s.status == 1
  {
    match OwnedSubscription(st, caller, id)
    case Err(e) => Reply(st, Err(e))
    case Ok(row) =>
      if !writeOk then Reply(st, Err(StoreFailure))
      else
        var after := ReactivateSubscription(st, caller, row.topicName);
        ReactivateEndpointActivates(st, caller, id, row);
        Reply(after, Ok(()))
  }

  /** The endpoint's reactivation reaches the row it checked: while keys
      are positions that row is the only one with the key. */
  lemma ReactivateEndpointActivates(st: SubStore, caller: int, id: int, row: Subscription)
    requires OwnedSubscription(st, caller, id) == Ok(row)
    ensures IdsArePositions(st) && StatusesBinary(st) ==>
      forall s :: s in ReactivateSubscription(st, caller, row.topicName).subscriptions && s.id == id ==> s.status == 1
  {
    var after := ReactivateSubscription(st, caller, row.topicName);
    OneRowPerId(st, row, id);
    if IdsArePositions(st) && StatusesBinary(st) {
      forall s | s in after.subscriptions && s.id == id ensures s.status == 1 {
        var i :| 0 <= i < |after.subscriptions| && after.subscriptions[i] == s;
        assert st.subscriptions[i] in st.subscriptions;
        assert st.subscriptions[i] == row;
      }
    }
  }

  /** `DeleteSubscription` endpoint: after the ownership check the row is
      soft-deleted. */
  function DeleteEndpoint(st: SubStore, caller: int, id: int, writeOk: bool): (r: Reply<SubStore, ()>)
    ensures OwnedSubscription(st, caller, id).Err? ==> r == Reply(st, Err(OwnedSubscription(st, caller, id).error))
    ensures r.result.Err? ==> r.state == st
    ensures r.result.Ok? ==> OwnedSubscription(st, caller, id).Ok? && r.state == DeleteSubscription(st, id)
    ensures r.result.Ok? ==> !SubscriptionActive(r.state.subscriptions, id)
  {
    match OwnedSubscription(st, caller, id)
    case Err(e) => Reply(st, Err(e))
    case Ok(_) =>
      if !writeOk then Reply(st, Err(StoreFailure))
      else Reply(DeleteSubscription(st, id), Ok(()))
  }

  /** `GetSubscriptionArticles` endpoint: after the ownership check, one
      clamped page of the subscription's live articles. */
  function ArticlesEndpoint(st: SubStore, caller: int, id: int, page: int, size: int): (r: Result<Paged<Article>>)
    ensures OwnedSubscription(st, caller, id).Err? ==> r == Err(OwnedSubscription(st, caller, id).error)
    ensures r.Ok? ==> OwnedSubscription(st, caller, id).Ok?
    ensures r.Ok? ==> r.value.page == ClampPage(page) && r.value.size == ClampSize(size, SubscriptionPageSize)
    ensures r.Ok? ==> r.value.listing.total == |Filter(st.articles, LiveArticleOf(id))|
    ensures r.Ok? ==> forall a :: a in r.value.listing.items ==> a in st.articles && a.subscriptionId == id && a.status == 1
    ensures r.Ok? ==> |r.value.listing.items| <= r.value.size
    ensures r.Ok? ==> WindowOfOrdered(r.value.listing.items, Filter(st.articles, LiveArticleOf(id)),
      ArticleNewestFirst, Offset(r.value.page, r.value.size), r.value.size)
  {
    match OwnedSubscription(st, caller, id)
    case Err(e) => Err(e)
    case Ok(_) =>
      var p := ClampPage(page);
      var s := ClampSize(size, SubscriptionPageSize);
      Ok(Paged(GetSubscriptionArticles(st, id, p, s), p, s))
  }

  /** `CancelSubscription` endpoint as written: no lookup, the WHERE clause
      alone decides which row changes, and the answer is success unless
      the store refuses the write. */
  function CancelAsWritten(st: SubStore, caller: int, id: int, writeOk: bool): (r: Reply<SubStore, ()>)
    ensures r.result.Ok? <==> writeOk
    ensures r.result.Ok? ==> r.state == CancelSubscription(st, id, caller)
    ensures r.result.Err? ==> r.state == st
  {
    if !writeOk then Reply(st, Err(StoreFailure))
    else Reply(CancelSubscription(st, id, caller), Ok(()))
  }

  /** The cancel endpoint with the checks its callers expect: not-found,
      forbidden, and a refusal to cancel what is already cancelled. */
  function CancelEndpoint(st: SubStore, caller: int, id: int, writeOk: bool): (r: Reply<SubStore, ()>)
    ensures OwnedSubscription(st, caller, id).Err? ==> r == Reply(st, Err(OwnedSubscription(st, caller, id).error))
    ensures OwnedSubscription(st, caller, id).Ok? && OwnedSubscription(st, caller, id).value.status != 1 ==>
      r == Reply(st, Err(Invalid(NotActive)))
    ensures r.result.Err? ==> r.state == st
    ensures r.result.Ok? ==> OwnedSubscription(st, caller, id).Ok? && r.state == CancelSubscription(st, id, caller)
    ensures r.result.Ok? ==> forall s :: s in r.state.subscriptions && s.id == id && s.createUserId == caller ==> s.status == 0
  {
    match OwnedSubscription(st, caller, id)
    case Err(e) => Reply(st, Err(e))
    case Ok(row) =>
      if row.status != 1 then Reply(st, Err(Invalid(NotActive)))
      else if !writeOk then Reply(st, Err(StoreFailure))
      else
        var after := CancelSubscription(st, id, caller);
        assert forall s :: s in after.subscriptions && s.id == id && s.createUserId == caller ==> s.status == 0 by {
          forall s | s in after.subscriptions && s.id == id && s.createUserId == caller ensures s.status == 0 {
            var i :| 0 <= i < |after.subscriptions| && after.subscriptions[i] == s;
          }
        }
        Reply(after, Ok(()))
  }

  // ---------------------------------------------------------------------
  // Properties
  // ---------------------------------------------------------------------

  /** As written, cancelling a key that does not exist, or a row of another
      owner, answers success and changes nothing. */
  lemma CancelAsWrittenAcceptsForeign(st: SubStore, caller: int, id: int)
    requires forall s :: s in st.subscriptions && s.id == id ==> s.createUserId != caller
    ensures CancelAsWritten(st, caller, id, true) == Reply(st, Ok(()))
  {
    var after := CancelSubscription(st, id, caller);
    forall i | 0 <= i < |st.subscriptions| ensures after.subscriptions[i] == st.subscriptions[i] {
      assert st.subscriptions[i] in st.subscriptions;
    }
    assert after.subscriptions == st.subscriptions;
    assert after == st;
  }

  /** The checked cancel refuses those same requests, and whenever it
      succeeds it makes exactly the write the unchecked one makes. */
  lemma CancelEndpointRefinesAsWritten(st: SubStore, caller: int, id: int)
    ensures (forall s :: s in st.subscriptions && s.id == id ==> s.createUserId != caller) ==>
      CancelEndpoint(st, caller, id, true).result.Err?
    ensures CancelEndpoint(st, caller, id, true).result.Ok? ==>
      CancelEndpoint(st, caller, id, true) == CancelAsWritten(st, caller, id, true)
  {
  }

  /** Creating the same (caller, topic) twice: the second request is
      refused as a duplicate and writes nothing. */
  lemma CreateTwiceIsRefused(st: SubStore, caller: int, topic: string, d1: string, d2: string, t1: int, t2: int, ok1: bool, ok2: bool, ok3: bool, ok4: bool)
    requires StatusesBinary(st)
    requires CreateSubscription(st, caller, topic, d1, t1, ok1, ok2).result.Ok?
    requires CreateRequestBinds(topic, d2)
    ensures var first := CreateSubscription(st, caller, topic, d1, t1, ok1, ok2);
      CreateSubscription(first.state, caller, topic, d2, t2, ok3, ok4) == Reply(first.state, Err(Invalid(AlreadySubscribed)))
  {
  }

  /** Cancelling and creating again brings back the same row: the key
      answered is the cancelled row's key and no row is inserted. */
  lemma CancelThenCreateReactivates(st: SubStore, caller: int, id: int, topic: string, d: string, now: int, ok: bool)
    requires Valid(st) && StatusesBinary(st)
    requires exists s :: s in st.subscriptions && s.id == id && s.createUserId == caller && s.topicName == topic
    requires CreateRequestBinds(topic, d)
    ensures var cancelled := CancelSubscription(st, id, caller);
      var again := CreateSubscription(cancelled, caller, topic, d, now, true, ok);
      again.result == Ok(id) && |again.state.subscriptions| == |st.subscriptions|
  {
    var s :| s in st.subscriptions && s.id == id && s.createUserId == caller && s.topicName == topic;
    var k :| 0 <= k < |st.subscriptions| && st.subscriptions[k] == s;
    CancelClearsTopic(st, caller, id, topic, k);
    CancelledRowFoundAgain(st, caller, id, topic, k);
    CreateAnswersReactivated(CancelSubscription(st, id, caller), caller, topic, d, now, ok, k);
  }

  /** After the cancel, the owner flow's reactivation finds the cancelled
      row first, under its old key. */
  lemma CancelledRowFoundAgain(st: SubStore, caller: int, id: int, topic: string, k: nat)
    requires Valid(st)
    requires k < |st.subscriptions| && st.subscriptions[k].id == id
    requires st.subscriptions[k].createUserId == caller && st.subscriptions[k].topicName == topic
    ensures var s1 := ReactivateSubscription(CancelSubscription(st, id, caller), caller, topic);
      FirstIndex(s1.subscriptions, OwnedTopic(caller, topic)) == Some(k) && s1.subscriptions[k].id == id
  {
    var cancelled := CancelSubscription(st, id, caller);
    CancelClearsTopic(st, caller, id, topic, k);
    var s1 := ReactivateSubscription(cancelled, caller, topic);
    assert SameKeys(cancelled.subscriptions, s1.subscriptions);
    SameKeysUnique(cancelled.subscriptions, s1.subscriptions);
    UniqueOwnedTopicRow(s1.subscriptions, caller, topic, k);
  }

  /** Cancelling the caller's row for a topic leaves the caller no active
      row for it, and keeps the (creator, topic) index unique. */
  lemma CancelClearsTopic(st: SubStore, caller: int, id: int, topic: string, k: nat)
    requires Valid(st)
    requires k < |st.subscriptions| && st.subscriptions[k].id == id
    requires st.subscriptions[k].createUserId == caller && st.subscriptions[k].topicName == topic
    ensures TopicKeysUnique(CancelSubscription(st, id, caller).subscriptions)
    ensures !CheckSubscriptionExists(CancelSubscription(st, id, caller), caller, topic)
  {
    var cancelled := CancelSubscription(st, id, caller);
    assert SameKeys(st.subscriptions, cancelled.subscriptions);
    SameKeysUnique(st.subscriptions, cancelled.subscriptions);
    UniqueOwnedTopicRow(cancelled.subscriptions, caller, topic, k);
    assert cancelled.subscriptions[k].status == 0;
    forall x | x in cancelled.subscriptions && OwnedTopic(caller, topic)(x) ensures x.status == 0 {
      var j :| 0 <= j < |cancelled.subscriptions| && cancelled.subscriptions[j] == x;
    }
  }

  /** When the duplicate check passes and the reactivated table has a
      (caller, topic) row, the create flow answers that row's key and
      inserts nothing. */
  lemma CreateAnswersReactivated(st: SubStore, caller: int, topic: string, d: string, now: int, ok: bool, k: nat)
    requires CreateRequestBinds(topic, d) && !CheckSubscriptionExists(st, caller, topic)
    requires FirstIndex(ReactivateSubscription(st, caller, topic).subscriptions, OwnedTopic(caller, topic)) == Some(k)
    ensures CreateSubscription(st, caller, topic, d, now, true, ok) ==
      Reply(ReactivateSubscription(st, caller, topic), Ok(ReactivateSubscription(st, caller, topic).subscriptions[k].id))
  {
  }

  /** Two tables that differ at most in row status. */
  ghost predicate SameKeys(a: seq<Subscription>, b: seq<Subscription>)
  {
    && |a| == |b|
    && forall i :: 0 <= i < |a| ==>
      a[i].id == b[i].id && a[i].createUserId == b[i].createUserId && a[i].topicName == b[i].topicName
  }

  lemma SameKeysUnique(a: seq<Subscription>, b: seq<Subscription>)
    requires SameKeys(a, b)
    ensures TopicKeysUnique(a) ==> TopicKeysUnique(b)
  {
  }

  /** The owner flow's reactivation changes only statuses, so the table
      invariants survive it. */
  lemma ReactivateKeepsValid(st: SubStore, caller: int, topic: string)
    ensures Valid(st) ==> Valid(ReactivateSubscription(st, caller, topic))
  {
    var s1 := ReactivateSubscription(st, caller, topic);
    assert SameKeys(st.subscriptions, s1.subscriptions);
    SameKeysUnique(st.subscriptions, s1.subscriptions);
  }

  /** Under the unique index a (creator, topic) pair names one row, which is
      therefore the first match. */
  lemma UniqueOwnedTopicRow(subs: seq<Subscription>, caller: int, topic: string, k: nat)
    requires TopicKeysUnique(subs) && k < |subs| && OwnedTopic(caller, topic)(subs[k])
    ensures forall j :: 0 <= j < |subs| && OwnedTopic(caller, topic)(subs[j]) ==> j == k
    ensures FirstIndex(subs, OwnedTopic(caller, topic)) == Some(k)
  {
  }

  /** The listing documented as including cancelled rows: a cancelled row
      of the caller is counted and can be listed there, while the
      status-filtered model query leaves it out, so the endpoint as
      written reports a smaller total than the corrected one. */
  lemma CancelledRowListedOnlyByOwnerListing(st: SubStore, caller: int, s: Subscription, page: int, size: int)
    requires s in st.subscriptions && s.createUserId == caller && s.status == 0
    ensures s in Filter(st.subscriptions, OwnedBy(caller))
    ensures s !in Filter(st.subscriptions, ActiveOwnedBy(caller))
    ensures ListSubscriptions(st, caller, page, size).listing.total < ListSubscriptionsCorrected(st, caller, page, size).listing.total
  {
    var inactive := (x: Subscription) => x.createUserId == caller && x.status != 1;
    FilterPartition(st.subscriptions, OwnedBy(caller), ActiveOwnedBy(caller), inactive);
    assert s in Filter(st.subscriptions, inactive);
  }
}

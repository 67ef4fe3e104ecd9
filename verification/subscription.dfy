/** The subscription tables of the literature-digest feature: shared topic
    subscriptions, the per-user membership rows that link users to them,
    and the articles filed under each subscription. Rows are never removed;
    cancelling or deleting sets `status` to 0. */
module SubscriptionModel {
  import opened Results
  import opened Query

  /** A row of `subscriptions`. `createUserId` is 0 for the shared rows the
      membership flow creates and the caller for rows of the older
      per-owner flow. Status 1 is active, 0 cancelled. */
  datatype Subscription = Subscription(
    id: nat,
    createUserId: int,
    topicName: string,
    topicDescription: string,
    createdAt: int,
    status: int)

  /** A row of `subscription_articles` (the descriptive columns are not
      modelled). A NULL `published_at` is `None`. */
  datatype Article = Article(
    id: nat,
    subscriptionId: int,
    title: string,
    publishedAt: Option<int>,
    createdAt: int,
    status: int)

  /** A row of `user_subscriptions`: user `userId` follows subscription
      `subscriptionId` while `status` is 1. */
  datatype Link = Link(
    id: nat,
    userId: int,
    subscriptionId: int,
    createdAt: int,
    status: int)

  /** The three tables, each in primary-key order. */
  datatype SubStore = SubStore(
    subscriptions: seq<Subscription>,
    links: seq<Link>,
    articles: seq<Article>)

  /** A subscription as the read endpoints return it: with the number of
      its live articles. */
  datatype SubscriptionView = SubscriptionView(subscription: Subscription, articleCount: nat)

  // ---------------------------------------------------------------------
  // Table invariants
  // ---------------------------------------------------------------------

  /** Rows are never deleted, so the auto-increment key of row i is i + 1. */
  ghost predicate IdsArePositions(st: SubStore)
  {
    && (forall i :: 0 <= i < |st.subscriptions| ==> st.subscriptions[i].id == i + 1)
    && (forall i :: 0 <= i < |st.links| ==> st.links[i].id == i + 1)
  }

  /** Unique index `idx_subscriptions_create_user_topic`. */
  ghost predicate TopicKeysUnique(subs: seq<Subscription>)
  {
    forall i, j :: 0 <= i < j < |subs| ==>
      !(subs[i].createUserId == subs[j].createUserId && subs[i].topicName == subs[j].topicName)
  }

  /** Unique index `idx_user_subscriptions_user_subscription`. */
  ghost predicate LinkKeysUnique(links: seq<Link>)
  {
    forall i, j :: 0 <= i < j < |links| ==>
      !(links[i].userId == links[j].userId && links[i].subscriptionId == links[j].subscriptionId)
  }

  ghost predicate Valid(st: SubStore)
  {
    IdsArePositions(st) && TopicKeysUnique(st.subscriptions) && LinkKeysUnique(st.links)
  }

  /** Every subscription row is active or cancelled: each write sets status
      to 1 or 0. */
  ghost predicate StatusesBinary(st: SubStore)
  {
    forall s :: s in st.subscriptions ==> s.status == 0 || s.status == 1
  }

  // ---------------------------------------------------------------------
  // Row selectors and row rewrites
  // ---------------------------------------------------------------------

  function HasId(id: int): Subscription -> bool { (s: Subscription) => s.id == id }
  function ActiveWithId(id: int): Subscription -> bool { (s: Subscription) => s.id == id && s.status == 1 }
  function ActiveTopic(topic: string): Subscription -> bool { (s: Subscription) => s.topicName == topic && s.status == 1 }
  function OwnedTopic(uid: int, topic: string): Subscription -> bool
  { (s: Subscription) => s.createUserId == uid && s.topicName == topic }
  function CancelledOwnedTopic(uid: int, topic: string): Subscription -> bool
  { (s: Subscription) => s.createUserId == uid && s.topicName == topic && s.status == 0 }
  function OwnedWithId(id: int, uid: int): Subscription -> bool
  { (s: Subscription) => s.id == id && s.createUserId == uid }
  function OwnedBy(uid: int): Subscription -> bool
  { (s: Subscription) => s.createUserId == uid }
  function ActiveOwnedBy(uid: int): Subscription -> bool
  { (s: Subscription) => s.createUserId == uid && s.status == 1 }
  function SubscriptionStatus(v: int): Subscription -> Subscription
  { (s: Subscription) => s.(status := v) }

  function LinkOf(uid: int, sid: int): Link -> bool
  { (l: Link) => l.userId == uid && l.subscriptionId == sid }
  function CancelledLinkOf(uid: int, sid: int): Link -> bool
  { (l: Link) => l.userId == uid && l.subscriptionId == sid && l.status == 0 }
  function ActiveLinkOf(uid: int, sid: int): Link -> bool
  { (l: Link) => l.userId == uid && l.subscriptionId == sid && l.status == 1 }
  function LinkStatus(v: int): Link -> Link
  { (l: Link) => l.(status := v) }

  function LiveArticleOf(sid: int): Article -> bool
  { (a: Article) => a.subscriptionId == sid && a.status == 1 }

  /** `ORDER BY created_at DESC`. */
  function SubscriptionNewestFirst(s: Subscription): Key { Key(s.createdAt, 0, 0) }
  function LinkNewestFirst(l: Link): Key { Key(l.createdAt, 0, 0) }

  /** `ORDER BY published_at DESC, created_at DESC`; SQLite sorts NULL below
      every value, so unpublished articles come last. */
  function ArticleNewestFirst(a: Article): Key
  {
    match a.publishedAt
    case Some(t) => Key(1, t, a.createdAt)
    case None => Key(0, 0, a.createdAt)
  }

  // ---------------------------------------------------------------------
  // Membership
  // ---------------------------------------------------------------------

  predicate SubscriptionActive(subs: seq<Subscription>, sid: int)
  {
    exists s :: s in subs && s.id == sid && s.status == 1
  }

  predicate LinkActive(links: seq<Link>, uid: int, sid: int)
  {
    exists l :: l in links && l.userId == uid && l.subscriptionId == sid && l.status == 1
  }

  /** User `uid` receives subscription `sid`: an active membership row and
      an active subscription row. */
  predicate IsMember(st: SubStore, uid: int, sid: int)
  {
    LinkActive(st.links, uid, sid) && SubscriptionActive(st.subscriptions, sid)
  }

  /** The article reaches `uid`'s feed. */
  function VisibleTo(st: SubStore, uid: int): Article -> bool
  {
    (a: Article) => a.status == 1 && IsMember(st, uid, a.subscriptionId)
  }

  /** The membership row is live and so is the subscription it points at. */
  function LiveLinkOf(st: SubStore, uid: int): Link -> bool
  {
    (l: Link) => l.userId == uid && l.status == 1 && SubscriptionActive(st.subscriptions, l.subscriptionId)
  }

  // ---------------------------------------------------------------------
  // Reads
  // ---------------------------------------------------------------------

  /** A subscription with the count of its live articles (`Preload`
      restricted to status 1, then `len`). */
  function ViewOf(st: SubStore, s: Subscription): (v: SubscriptionView)
    ensures v.subscription == s
    ensures v.articleCount == |Filter(st.articles, LiveArticleOf(s.id))|
    ensures v.articleCount <= |st.articles|
  {
    SubscriptionView(s, |Filter(st.articles, LiveArticleOf(s.id))|)
  }

  /** `GetSubscriptionByID`: the row with that key whatever its status. */
  function GetSubscriptionById(st: SubStore, id: int): (r: Result<SubscriptionView>)
    ensures r.Ok? <==> exists i :: 0 <= i < |st.subscriptions| && st.subscriptions[i].id == id
    ensures r.Ok? ==> r.value.subscription in st.subscriptions && r.value.subscription.id == id
    ensures r.Ok? ==> r.value.articleCount == |Filter(st.articles, LiveArticleOf(id))|
    ensures r.Err? ==> r.error == NotFound
  {
    match FirstIndex(st.subscriptions, HasId(id))
    case Some(i) => Ok(ViewOf(st, st.subscriptions[i]))
    case None => Err(NotFound)
  }

  /** `GetSubscriptionByTopicName`: the first active row for the topic, of
      any creator. */
  function GetSubscriptionByTopicName(st: SubStore, topic: string): (r: Result<Subscription>)
    ensures r.Ok? <==> exists s :: s in st.subscriptions && s.topicName == topic && s.status == 1
    ensures r.Ok? ==> r.value in st.subscriptions && r.value.topicName == topic && r.value.status == 1
    ensures r.Err? ==> r.error == NotFound
  {
    match FirstIndex(st.subscriptions, ActiveTopic(topic))
    case Some(i) => Ok(st.subscriptions[i])
    case None =>
      assert forall s :: s in st.subscriptions ==> !ActiveTopic(topic)(s);
      Err(NotFound)
  }

  /** `CheckSubscriptionExists`: an active row created by `uid` for the
      topic. */
  function CheckSubscriptionExists(st: SubStore, uid: int, topic: string): (r: bool)
    ensures r <==> exists s :: s in st.subscriptions && s.createUserId == uid && s.topicName == topic && s.status == 1
  {
    FirstIndex(st.subscriptions, (s: Subscription) => s.createUserId == uid && s.topicName == topic && s.status == 1).Some?
  }

  /** `GetUserSubscriptions`: the active rows created by `uid`, newest
      first, each with its live-article count. */
  function GetUserSubscriptions(st: SubStore, uid: int, page: int, size: int): (r: Listing<SubscriptionView>)
    ensures r.total == |Filter(st.subscriptions, ActiveOwnedBy(uid))|
    ensures forall i :: 0 <= i < |r.items| ==>
      && r.items[i].subscription in st.subscriptions
      && r.items[i].subscription.createUserId == uid && r.items[i].subscription.status == 1
      && r.items[i].articleCount == |Filter(st.articles, LiveArticleOf(r.items[i].subscription.id))|
    ensures size >= 0 ==> |r.items| <= size
    ensures WindowOfOrdered(SubscriptionsOf(r.items), Filter(st.subscriptions, ActiveOwnedBy(uid)), SubscriptionNewestFirst, Offset(page, size), size)
  {
    var listing := PageOf(Filter(st.subscriptions, ActiveOwnedBy(uid)), SubscriptionNewestFirst, Offset(page, size), size);
    ViewsOfSelected(st, listing.items, ActiveOwnedBy(uid));
    Listing(Views(st, listing.items), listing.total)
  }

  /** The owner's rows whatever their status, newest first: the listing
      `GetUserSubscriptions` is documented to return, cancelled rows
      included (see Findings in the README). */
  function ListOwnSubscriptions(st: SubStore, uid: int, page: int, size: int): (r: Listing<SubscriptionView>)
    ensures r.total == |Filter(st.subscriptions, OwnedBy(uid))|
    ensures forall i :: 0 <= i < |r.items| ==>
      && r.items[i].subscription in st.subscriptions
      && r.items[i].subscription.createUserId == uid
      && r.items[i].articleCount == |Filter(st.articles, LiveArticleOf(r.items[i].subscription.id))|
    ensures size >= 0 ==> |r.items| <= size
    ensures WindowOfOrdered(SubscriptionsOf(r.items), Filter(st.subscriptions, OwnedBy(uid)), SubscriptionNewestFirst, Offset(page, size), size)
  {
    var listing := PageOf(Filter(st.subscriptions, OwnedBy(uid)), SubscriptionNewestFirst, Offset(page, size), size);
    ViewsOfSelected(st, listing.items, OwnedBy(uid));
    Listing(Views(st, listing.items), listing.total)
  }

  /** Each row with its live-article count, in the same order. */
  function Views(st: SubStore, rows: seq<Subscription>): (r: seq<SubscriptionView>)
    ensures |r| == |rows|
    ensures forall i :: 0 <= i < |rows| ==> r[i] == ViewOf(st, rows[i])
  {
    if rows == [] then [] else [ViewOf(st, rows[0])] + Views(st, rows[1..])
  }

  /** The rows behind a sequence of views, in the same order. */
  function SubscriptionsOf(views: seq<SubscriptionView>): (r: seq<Subscription>)
    ensures |r| == |views|
    ensures forall i :: 0 <= i < |views| ==> r[i] == views[i].subscription
  {
    if views == [] then [] else [views[0].subscription] + SubscriptionsOf(views[1..])
  }

  /** Views of rows drawn from a filter describe stored rows the filter
      keeps, each with its live-article count. */
  lemma ViewsOfSelected(st: SubStore, items: seq<Subscription>, keep: Subscription -> bool)
    requires forall x :: x in items ==> x in Filter(st.subscriptions, keep)
    ensures forall i :: 0 <= i < |Views(st, items)| ==>
      && Views(st, items)[i].subscription in st.subscriptions && keep(Views(st, items)[i].subscription)
      && Views(st, items)[i].articleCount == |Filter(st.articles, LiveArticleOf(Views(st, items)[i].subscription.id))|
    ensures SubscriptionsOf(Views(st, items)) == items
  {
    var views := Views(st, items);
    forall i | 0 <= i < |views|
      ensures views[i].subscription in st.subscriptions && keep(views[i].subscription)
    {
      assert views[i].subscription == items[i] && items[i] in items;
    }
    assert SubscriptionsOf(views) == items;
  }

  /** `GetSubscriptionArticles`: the live articles of one subscription,
      latest publication first. */
  function GetSubscriptionArticles(st: SubStore, sid: int, page: int, size: int): (r: Listing<Article>)
    ensures r.total == |Filter(st.articles, LiveArticleOf(sid))|
    ensures WindowOfOrdered(r.items, Filter(st.articles, LiveArticleOf(sid)), ArticleNewestFirst, Offset(page, size), size)
    ensures forall a :: a in r.items ==> a in st.articles && a.subscriptionId == sid && a.status == 1
  {
    PageOf(Filter(st.articles, LiveArticleOf(sid)), ArticleNewestFirst, Offset(page, size), size)
  }

  /** Rows the JOIN of a membership row with `subscriptions` produces: one
      per active subscription row carrying that key. */
  function LinkJoinWidth(st: SubStore, uid: int): Link -> nat
  {
    (l: Link) =>
      if l.userId == uid && l.status == 1 then |Filter(st.subscriptions, ActiveWithId(l.subscriptionId))| else 0
  }

  /** The rows `GetUserSubscriptionsByUserID` reads, before ordering. */
  function MembershipRows(st: SubStore, uid: int): seq<Link>
  {
    Expand(st.links, LinkJoinWidth(st, uid))
  }

  /** `GetUserSubscriptionsByUserID`: the user's live membership rows whose
      subscription is active, newest membership first. */
  function GetUserSubscriptionsByUserId(st: SubStore, uid: int, page: int, size: int): (r: Listing<Link>)
    ensures r.total == |MembershipRows(st, uid)|
    ensures WindowOfOrdered(r.items, MembershipRows(st, uid), LinkNewestFirst, Offset(page, size), size)
    ensures Valid(st) ==> forall l :: l in r.items ==> l in st.links && LiveLinkOf(st, uid)(l)
  {
    MembershipRowsWhenValid(st, uid);
    PageOf(MembershipRows(st, uid), LinkNewestFirst, Offset(page, size), size)
  }

  /** Rows the double JOIN of an article with `user_subscriptions` and
      `subscriptions` produces. */
  function ArticleJoinWidth(st: SubStore, uid: int): Article -> nat
  {
    (a: Article) =>
      if a.status == 1
      then |Filter(st.links, ActiveLinkOf(uid, a.subscriptionId))| * |Filter(st.subscriptions, ActiveWithId(a.subscriptionId))|
      else 0
  }

  /** The rows `GetUserSubscriptionArticles` reads, before ordering. */
  function FeedRows(st: SubStore, uid: int): seq<Article>
  {
    Expand(st.articles, ArticleJoinWidth(st, uid))
  }

  /** `GetUserSubscriptionArticles`: the articles of every subscription the
      user is a member of, latest publication first. */
  function GetUserSubscriptionArticles(st: SubStore, uid: int, page: int, size: int): (r: Listing<Article>)
    ensures r.total == |FeedRows(st, uid)|
    ensures WindowOfOrdered(r.items, FeedRows(st, uid), ArticleNewestFirst, Offset(page, size), size)
    ensures Valid(st) ==> forall a :: a in r.items ==> a in st.articles && VisibleTo(st, uid)(a)
  {
    FeedRowsWhenValid(st, uid);
    PageOf(FeedRows(st, uid), ArticleNewestFirst, Offset(page, size), size)
  }

  lemma MembershipRowsWhenValid(st: SubStore, uid: int)
    ensures Valid(st) ==> MembershipRows(st, uid) == Filter(st.links, LiveLinkOf(st, uid))
  {
    if Valid(st) {
      MembershipRowsAreLinks(st, uid);
    }
  }

  lemma FeedRowsWhenValid(st: SubStore, uid: int)
    ensures Valid(st) ==> FeedRows(st, uid) == Filter(st.articles, VisibleTo(st, uid))
  {
    if Valid(st) {
      FeedRowsAreVisible(st, uid);
    }
  }

  /** Key uniqueness makes each membership JOIN produce at most one row, so
      the membership listing is exactly the live memberships. */
  lemma MembershipRowsAreLinks(st: SubStore, uid: int)
    requires Valid(st)
    ensures MembershipRows(st, uid) == Filter(st.links, LiveLinkOf(st, uid))
  {
    forall l | l in st.links
      ensures LinkJoinWidth(st, uid)(l) == (if LiveLinkOf(st, uid)(l) then 1 else 0)
    {
      SubscriptionRowsAtMostOne(st, l.subscriptionId);
    }
    ExpandIsFilter(st.links, LinkJoinWidth(st, uid), LiveLinkOf(st, uid));
  }

  /** Key uniqueness makes each feed JOIN produce at most one row per
      article: the feed is exactly the visible articles, without copies. */
  lemma FeedRowsAreVisible(st: SubStore, uid: int)
    requires Valid(st)
    ensures FeedRows(st, uid) == Filter(st.articles, VisibleTo(st, uid))
  {
    forall a | a in st.articles
      ensures ArticleJoinWidth(st, uid)(a) == (if VisibleTo(st, uid)(a) then 1 else 0)
    {
      SubscriptionRowsAtMostOne(st, a.subscriptionId);
      LinkRowsAtMostOne(st, uid, a.subscriptionId);
    }
    ExpandIsFilter(st.articles, ArticleJoinWidth(st, uid), VisibleTo(st, uid));
  }

  /** The primary key admits at most one active row per id, and there is
      one exactly when the subscription is active. */
  lemma SubscriptionRowsAtMostOne(st: SubStore, sid: int)
    requires IdsArePositions(st)
    ensures |Filter(st.subscriptions, ActiveWithId(sid))| == (if SubscriptionActive(st.subscriptions, sid) then 1 else 0)
  {
    AtMostOneSelected(st.subscriptions, ActiveWithId(sid), (a: Subscription, b: Subscription) => a.id != b.id);
    FilterNonEmpty(st.subscriptions, ActiveWithId(sid));
  }

  /** The membership index admits at most one active row per (user,
      subscription), and there is one exactly when the link is active. */
  lemma LinkRowsAtMostOne(st: SubStore, uid: int, sid: int)
    requires LinkKeysUnique(st.links)
    ensures |Filter(st.links, ActiveLinkOf(uid, sid))| == (if LinkActive(st.links, uid, sid) then 1 else 0)
  {
    AtMostOneSelected(st.links, ActiveLinkOf(uid, sid),
      (a: Link, b: Link) => !(a.userId == b.userId && a.subscriptionId == b.subscriptionId));
    FilterNonEmpty(st.links, ActiveLinkOf(uid, sid));
  }

  // ---------------------------------------------------------------------
  // Writes on subscriptions (the per-owner flow)
  // ---------------------------------------------------------------------

  /** `CreateSubscription`: inserts with the next key; the unique index on
      (create_user_id, topic_name) rejects a second row for the same pair. */
  function CreateSubscription(st: SubStore, uid: int, topic: string, description: string, now: int): (r: Reply<SubStore, Subscription>)
    ensures r.result.Ok? <==> !exists s :: s in st.subscriptions && s.createUserId == uid && s.topicName == topic
    ensures r.result.Ok? ==> r.state.subscriptions == st.subscriptions + [r.result.value]
    ensures r.result.Ok? ==> r.result.value.createUserId == uid && r.result.value.topicName == topic && r.result.value.status == 1
    ensures r.result.Ok? ==> r.result.value == Subscription(|st.subscriptions| + 1, uid, topic, description, now, 1)
    ensures r.result.Err? ==> r.state == st && r.result.error == StoreFailure
    ensures r.state.links == st.links && r.state.articles == st.articles
    ensures Valid(st) ==> Valid(r.state)
  {
    match FirstIndex(st.subscriptions, OwnedTopic(uid, topic))
    case Some(_) => Reply(st, Err(StoreFailure))
    case None =>
      assert forall s :: s in st.subscriptions ==> !OwnedTopic(uid, topic)(s);
      var row := Subscription(|st.subscriptions| + 1, uid, topic, description, now, 1);
      Reply(st.(subscriptions := st.subscriptions + [row]), Ok(row))
  }

  /** `DeleteSubscription`: soft delete by key. */
  function DeleteSubscription(st: SubStore, id: int): (r: SubStore)
    ensures |r.subscriptions| == |st.subscriptions|
    ensures forall i :: 0 <= i < |st.subscriptions| ==>
      r.subscriptions[i] == (if st.subscriptions[i].id == id then st.subscriptions[i].(status := 0) else st.subscriptions[i])
    ensures r.links == st.links && r.articles == st.articles
    ensures !SubscriptionActive(r.subscriptions, id)
  {
    st.(subscriptions := UpdateWhere(st.subscriptions, HasId(id), SubscriptionStatus(0)))
  }

  /** `CancelSubscription`: soft delete by key, only when `uid` created the
      row; any other caller changes nothing. */
  function CancelSubscription(st: SubStore, id: int, uid: int): (r: SubStore)
    ensures |r.subscriptions| == |st.subscriptions|
    ensures forall i :: 0 <= i < |st.subscriptions| ==>
      r.subscriptions[i] == (if st.subscriptions[i].id == id && st.subscriptions[i].createUserId == uid
                             then st.subscriptions[i].(status := 0) else st.subscriptions[i])
    ensures r.links == st.links && r.articles == st.articles
  {
    st.(subscriptions := UpdateWhere(st.subscriptions, OwnedWithId(id, uid), SubscriptionStatus(0)))
  }

  /** `ReactivateSubscription`: the cancelled rows of (uid, topic) become
      active; nothing else changes. */
  function ReactivateSubscription(st: SubStore, uid: int, topic: string): (r: SubStore)
    ensures |r.subscriptions| == |st.subscriptions|
    ensures forall i :: 0 <= i < |st.subscriptions| ==>
      r.subscriptions[i] == (if CancelledOwnedTopic(uid, topic)(st.subscriptions[i])
                             then st.subscriptions[i].(status := 1) else st.subscriptions[i])
    ensures r.links == st.links && r.articles == st.articles
  {
    st.(subscriptions := UpdateWhere(st.subscriptions, CancelledOwnedTopic(uid, topic), SubscriptionStatus(1)))
  }

  /** `UpdateSubscription` (a full-row save): the row with the same key is
      replaced by `row`. */
  function SaveSubscription(st: SubStore, row: Subscription): (r: SubStore)
    ensures |r.subscriptions| == |st.subscriptions|
    ensures forall i :: 0 <= i < |st.subscriptions| ==>
      r.subscriptions[i] == (if st.subscriptions[i].id == row.id then row else st.subscriptions[i])
    ensures r.links == st.links && r.articles == st.articles
  {
    st.(subscriptions := UpdateWhere(st.subscriptions, HasId(row.id), (s: Subscription) => row))
  }

  // ---------------------------------------------------------------------
  // Writes on memberships
  // ---------------------------------------------------------------------

  /** `CancelUserSubscription`: every (uid, sid) membership row gets status
      0; no other row changes. */
  function CancelUserSubscription(st: SubStore, uid: int, sid: int): (r: SubStore)
    ensures |r.links| == |st.links|
    ensures forall i :: 0 <= i < |st.links| ==>
      r.links[i] == (if LinkOf(uid, sid)(st.links[i]) then st.links[i].(status := 0) else st.links[i])
    ensures r.subscriptions == st.subscriptions && r.articles == st.articles
    ensures !LinkActive(r.links, uid, sid)
  {
    st.(links := UpdateWhere(st.links, LinkOf(uid, sid), LinkStatus(0)))
  }

  /** `ReactivateUserSubscription`: the cancelled (uid, sid) rows become
      active; no other row changes. */
  function ReactivateUserSubscription(st: SubStore, uid: int, sid: int): (r: SubStore)
    ensures |r.links| == |st.links|
    ensures forall i :: 0 <= i < |st.links| ==>
      r.links[i] == (if CancelledLinkOf(uid, sid)(st.links[i]) then st.links[i].(status := 1) else st.links[i])
    ensures r.subscriptions == st.subscriptions && r.articles == st.articles
  {
    st.(links := UpdateWhere(st.links, CancelledLinkOf(uid, sid), LinkStatus(1)))
  }

  /** `CreateSubscriptionWithUserRelation`, one transaction:
      - an active subscription for the topic exists (first by key, any
        creator): an active membership row leaves everything as it is; a
        cancelled one is reactivated; with none, one is inserted;
      - otherwise a shared subscription (creator 0) is inserted and the
        caller's membership row with it.
      `storeOk` is false when the transaction cannot begin or a write is
      refused for a reason outside the model; a refused write rolls back
      everything, as does a violation of either unique index. */
  function CreateSubscriptionWithUserRelation(st: SubStore, uid: int, topic: string, description: string, now: int, storeOk: bool): (r: Reply<SubStore, Subscription>)
    ensures r.result.Err? ==> r.state == st && r.result.error == StoreFailure
    ensures r.result.Ok? ==> r.result.value in r.state.subscriptions && r.result.value.topicName == topic && r.result.value.status == 1
    ensures r.result.Ok? ==> IsMember(r.state, uid, r.result.value.id)
    ensures r.state.articles == st.articles
    ensures |st.subscriptions| <= |r.state.subscriptions| <= |st.subscriptions| + 1
    ensures r.state.subscriptions[..|st.subscriptions|] == st.subscriptions
    ensures |st.links| <= |r.state.links| <= |st.links| + 1
    ensures forall i :: 0 <= i < |st.links| && st.links[i].userId != uid ==> r.state.links[i] == st.links[i]
    ensures r.result.Ok? ==>
      forall i :: 0 <= i < |st.links| && !LinkOf(uid, r.result.value.id)(st.links[i]) ==> r.state.links[i] == st.links[i]
    ensures Valid(st) ==> Valid(r.state)
  {
    if !storeOk then Reply(st, Err(StoreFailure))
    else match FirstIndex(st.subscriptions, ActiveTopic(topic))
    case Some(si) => JoinSubscription(st, uid, st.subscriptions[si], now)
    case None => CreateSharedSubscription(st, uid, topic, description, now)
  }

  /** Changing the status of membership rows keeps every key and id. */
  lemma LinkStatusKeepsValid(st: SubStore, p: Link -> bool, v: int)
    ensures Valid(st) ==> Valid(st.(links := UpdateWhere(st.links, p, LinkStatus(v))))
  {
  }

  /** Appending a membership row whose id is the next key and whose
      (user, subscription) pair is new keeps the store valid. */
  lemma AppendLinkKeepsValid(st: SubStore, link: Link)
    requires link.id == |st.links| + 1
    requires forall i :: 0 <= i < |st.links| ==> !LinkOf(link.userId, link.subscriptionId)(st.links[i])
    ensures Valid(st) ==> Valid(st.(links := st.links + [link]))
  {
  }

  /** Appending a subscription row and a membership row, each with the
      next key and a new unique-index pair, keeps the store valid. */
  lemma AppendSharedKeepsValid(st: SubStore, sub: Subscription, link: Link)
    requires sub.id == |st.subscriptions| + 1 && link.id == |st.links| + 1
    requires forall i :: 0 <= i < |st.subscriptions| ==> !OwnedTopic(sub.createUserId, sub.topicName)(st.subscriptions[i])
    requires forall i :: 0 <= i < |st.links| ==> !LinkOf(link.userId, link.subscriptionId)(st.links[i])
    ensures Valid(st) ==> Valid(st.(subscriptions := st.subscriptions + [sub], links := st.links + [link]))
  {
  }

  /** The branch of the transaction where the topic already has an active
      subscription `sub`. The first (caller, sub) membership row decides:
      an active one means nothing is written; any other status means every
      (caller, sub) row is set active; with none, one active row is
      appended. No other membership row changes. */
  function JoinSubscription(st: SubStore, uid: int, sub: Subscription, now: int): (r: Reply<SubStore, Subscription>)
    requires sub in st.subscriptions && sub.status == 1
    ensures r.result == Ok(sub) && r.state.subscriptions == st.subscriptions && r.state.articles == st.articles
    ensures IsMember(r.state, uid, sub.id)
    ensures |st.links| <= |r.state.links| <= |st.links| + 1
    ensures forall i :: 0 <= i < |st.links| && !LinkOf(uid, sub.id)(st.links[i]) ==> r.state.links[i] == st.links[i]
    ensures var f := FirstIndex(st.links, LinkOf(uid, sub.id));
      f.Some? && st.links[f.value].status == 1 ==> r.state == st
    ensures var f := FirstIndex(st.links, LinkOf(uid, sub.id));
      f.Some? && st.links[f.value].status != 1 ==>
        && |r.state.links| == |st.links|
        && forall i :: 0 <= i < |st.links| && LinkOf(uid, sub.id)(st.links[i]) ==> r.state.links[i] == st.links[i].(status := 1)
    ensures FirstIndex(st.links, LinkOf(uid, sub.id)).None? ==>
      r.state.links == st.links + [Link(|st.links| + 1, uid, sub.id, now, 1)]
    ensures Valid(st) ==> Valid(r.state)
  {
    var links := st.links;
    match FirstIndex(links, LinkOf(uid, sub.id))
    case Some(li) =>
      if links[li].status == 1 then
        assert links[li] in links;
        Reply(st, Ok(sub))
      else
        var r := st.(links := UpdateWhere(links, LinkOf(uid, sub.id), LinkStatus(1)));
        assert r.links[li] in r.links;
        LinkStatusKeepsValid(st, LinkOf(uid, sub.id), 1);
        Reply(r, Ok(sub))
    case None =>
      var link := Link(|links| + 1, uid, sub.id, now, 1);
      var r := st.(links := links + [link]);
      assert link in r.links;
      assert forall i :: 0 <= i < |links| ==> !LinkOf(uid, sub.id)(links[i]);
      AppendLinkKeepsValid(st, link);
      Reply(r, Ok(sub))
  }

  /** The branch where no active subscription carries the topic: insert a
      shared row (creator 0) and the caller's membership row with it, or
      roll back when either unique index refuses its row. */
  function CreateSharedSubscription(st: SubStore, uid: int, topic: string, description: string, now: int): (r: Reply<SubStore, Subscription>)
    ensures r.result.Err? ==> r.state == st && r.result.error == StoreFailure
    ensures r.result.Ok? ==> r.result.value.topicName == topic && r.result.value.status == 1 && r.result.value.createUserId == 0
    ensures r.result.Ok? ==> r.state.subscriptions == st.subscriptions + [r.result.value]
    ensures r.result.Ok? ==> IsMember(r.state, uid, r.result.value.id)
    ensures r.state.articles == st.articles
    ensures |st.links| <= |r.state.links| <= |st.links| + 1
    ensures r.state.links[..|st.links|] == st.links
    ensures Valid(st) ==> Valid(r.state)
  {
    var subs := st.subscriptions;
    var links := st.links;
    var sub := Subscription(|subs| + 1, 0, topic, description, now, 1);
    var link := Link(|links| + 1, uid, sub.id, now, 1);
    if FirstIndex(subs, OwnedTopic(0, topic)).Some? then Reply(st, Err(StoreFailure))
    else if FirstIndex(links, LinkOf(uid, sub.id)).Some? then Reply(st, Err(StoreFailure))
    else
      var r := st.(subscriptions := subs + [sub], links := links + [link]);
      assert link in r.links && sub in r.subscriptions;
      assert forall i :: 0 <= i < |subs| ==> !OwnedTopic(0, topic)(subs[i]);
      assert forall i :: 0 <= i < |links| ==> !LinkOf(uid, sub.id)(links[i]);
      assert r.links[..|links|] == links;
      AppendSharedKeepsValid(st, sub, link);
      Reply(r, Ok(sub))
  }

  // ---------------------------------------------------------------------
  // Properties
  // ---------------------------------------------------------------------

  /** Joining the same subscription a second time writes nothing: the
      first join left an active first (caller, sub) row. */
  lemma {:induction false} JoinTwiceWritesNothing(st: SubStore, uid: int, sub: Subscription, t1: int, t2: int)
    requires sub in st.subscriptions && sub.status == 1
    ensures var s1 := JoinSubscription(st, uid, sub, t1).state;
      JoinSubscription(s1, uid, sub, t2) == Reply(s1, Ok(sub))
  {
    var s1 := JoinSubscription(st, uid, sub, t1).state;
    var p := LinkOf(uid, sub.id);
    match FirstIndex(st.links, p) {
      case Some(li) =>
        if st.links[li].status != 1 {
          FirstIndexStable(st.links, s1.links, p, li);
        }
      case None =>
        FirstIndexAtEnd(st.links, s1.links, p);
    }
  }

  /** Right after a new shared row and its membership row are inserted,
      the flow for the same user and topic finds both and writes nothing. */
  lemma {:induction false} JoinAfterShared(st: SubStore, uid: int, topic: string, d1: string, d2: string, t1: int, t2: int)
    requires FirstIndex(st.subscriptions, ActiveTopic(topic)).None?
    requires CreateSharedSubscription(st, uid, topic, d1, t1).result.Ok?
    ensures var first := CreateSharedSubscription(st, uid, topic, d1, t1);
      CreateSubscriptionWithUserRelation(first.state, uid, topic, d2, t2, true) == Reply(first.state, Ok(first.result.value))
  {
    var first := CreateSharedSubscription(st, uid, topic, d1, t1);
    var s1 := first.state;
    var sub := first.result.value;
    FirstIndexAtEnd(st.subscriptions, s1.subscriptions, ActiveTopic(topic));
    FirstIndexAtEnd(st.links, s1.links, LinkOf(uid, sub.id));
  }

  /** Subscribing twice is the same as subscribing once: the second call
      hands back the same subscription and writes nothing. */
  lemma {:induction false} SubscribeIsIdempotent(st: SubStore, uid: int, topic: string, d1: string, d2: string, t1: int, t2: int)
    requires CreateSubscriptionWithUserRelation(st, uid, topic, d1, t1, true).result.Ok?
    ensures var first := CreateSubscriptionWithUserRelation(st, uid, topic, d1, t1, true);
      CreateSubscriptionWithUserRelation(first.state, uid, topic, d2, t2, true) == Reply(first.state, Ok(first.result.value))
  {
    match FirstIndex(st.subscriptions, ActiveTopic(topic)) {
      case Some(si) =>
        JoinTwiceWritesNothing(st, uid, st.subscriptions[si], t1, t2);
      case None =>
        JoinAfterShared(st, uid, topic, d1, d2, t1, t2);
    }
  }

  /** After the membership flow succeeds the caller's feed contains every
      live article of the subscription it returned. */
  lemma SubscribeOpensFeed(st: SubStore, uid: int, topic: string, d: string, now: int, a: Article)
    requires CreateSubscriptionWithUserRelation(st, uid, topic, d, now, true).result.Ok?
    requires a in st.articles
    requires LiveArticleOf(CreateSubscriptionWithUserRelation(st, uid, topic, d, now, true).result.value.id)(a)
    ensures VisibleTo(CreateSubscriptionWithUserRelation(st, uid, topic, d, now, true).state, uid)(a)
  {
  }

  /** Cancelling a membership twice is cancelling it once. */
  lemma {:induction false} CancelIsIdempotent(st: SubStore, uid: int, sid: int)
    ensures CancelUserSubscription(CancelUserSubscription(st, uid, sid), uid, sid) == CancelUserSubscription(st, uid, sid)
  {
    var once := CancelUserSubscription(st, uid, sid);
    var twice := CancelUserSubscription(once, uid, sid);
    assert twice.links == once.links;
  }

  /** Reactivating undoes cancelling: a membership whose rows were all
      active comes back exactly as it was. */
  lemma {:induction false} ReactivateUndoesCancel(st: SubStore, uid: int, sid: int)
    requires forall l :: l in st.links && LinkOf(uid, sid)(l) ==> l.status == 1
    ensures ReactivateUserSubscription(CancelUserSubscription(st, uid, sid), uid, sid) == st
  {
    var back := ReactivateUserSubscription(CancelUserSubscription(st, uid, sid), uid, sid);
    forall i | 0 <= i < |st.links| ensures back.links[i] == st.links[i] {
      assert st.links[i] in st.links;
    }
  }

  /** Reactivating a membership makes the user a member again exactly when
      some membership row exists and the subscription is active. */
  lemma ReactivateRestoresMembership(st: SubStore, uid: int, sid: int)
    ensures IsMember(ReactivateUserSubscription(st, uid, sid), uid, sid) <==>
      (exists l :: l in st.links && LinkOf(uid, sid)(l) && (l.status == 0 || l.status == 1))
      && SubscriptionActive(st.subscriptions, sid)
  {
    if l :| l in st.links && LinkOf(uid, sid)(l) && (l.status == 0 || l.status == 1) {
      ReactivatedLinkActive(st, uid, sid, l);
    }
    if LinkActive(ReactivateUserSubscription(st, uid, sid).links, uid, sid) {
      ActiveLinkWasThere(st, uid, sid);
    }
  }

  /** A cancelled or active membership row is active after reactivation. */
  lemma ReactivatedLinkActive(st: SubStore, uid: int, sid: int, l: Link)
    requires l in st.links && LinkOf(uid, sid)(l) && (l.status == 0 || l.status == 1)
    ensures LinkActive(ReactivateUserSubscription(st, uid, sid).links, uid, sid)
  {
    var r := ReactivateUserSubscription(st, uid, sid);
    var i :| 0 <= i < |st.links| && st.links[i] == l;
    assert r.links[i] in r.links && r.links[i].status == 1;
  }

  /** An active membership row after reactivation was there before, active
      or cancelled. */
  lemma ActiveLinkWasThere(st: SubStore, uid: int, sid: int)
    requires LinkActive(ReactivateUserSubscription(st, uid, sid).links, uid, sid)
    ensures exists l :: l in st.links && LinkOf(uid, sid)(l) && (l.status == 0 || l.status == 1)
  {
    var r := ReactivateUserSubscription(st, uid, sid);
    var l :| l in r.links && l.userId == uid && l.subscriptionId == sid && l.status == 1;
    var i :| 0 <= i < |r.links| && r.links[i] == l;
    assert st.links[i] in st.links && LinkOf(uid, sid)(st.links[i]);
    assert st.links[i].status == 0 || st.links[i].status == 1;
  }

  /** A soft-deleted subscription drops out of every member's feed. */
  lemma DeleteHidesArticles(st: SubStore, id: int, uid: int)
    ensures forall a :: a in DeleteSubscription(st, id).articles && a.subscriptionId == id ==>
      !VisibleTo(DeleteSubscription(st, id), uid)(a)
  {
  }

  /** Memberships of other users are untouched by cancelling one user's. */
  lemma CancelKeepsOthers(st: SubStore, uid: int, sid: int, other: int, osid: int)
    requires other != uid || osid != sid
    ensures IsMember(CancelUserSubscription(st, uid, sid), other, osid) <==> IsMember(st, other, osid)
  {
    var r := CancelUserSubscription(st, uid, sid);
    if LinkActive(st.links, other, osid) {
      var l :| l in st.links && l.userId == other && l.subscriptionId == osid && l.status == 1;
      var i :| 0 <= i < |st.links| && st.links[i] == l;
      assert !LinkOf(uid, sid)(l);
      assert r.links[i] == l;
      assert l in r.links;
    }
    if LinkActive(r.links, other, osid) {
      var l :| l in r.links && l.userId == other && l.subscriptionId == osid && l.status == 1;
      var i :| 0 <= i < |r.links| && r.links[i] == l;
      assert !LinkOf(uid, sid)(st.links[i]);
      assert st.links[i] == l;
      assert l in st.links;
    }
  }

  /** Once the shared row of a topic is soft-deleted and no other active row
      carries the topic, nobody can subscribe to it again: the flow tries to
      insert a second (0, topic) row and the unique index refuses it. */
  lemma SoftDeletedTopicBlocksSubscribe(st: SubStore, uid: int, topic: string, d: string, now: int)
    requires exists s :: s in st.subscriptions && s.createUserId == 0 && s.topicName == topic
    requires !exists s :: s in st.subscriptions && s.topicName == topic && s.status == 1
    ensures CreateSubscriptionWithUserRelation(st, uid, topic, d, now, true) == Reply(st, Err(StoreFailure))
  {
    var s :| s in st.subscriptions && s.createUserId == 0 && s.topicName == topic;
    assert OwnedTopic(0, topic)(s);
    assert forall x :: x in st.subscriptions ==> !ActiveTopic(topic)(x);
  }

  /** The owner flow's reactivation followed by the existence check: the
      check succeeds exactly when the owner has an active or cancelled row
      for the topic. */
  lemma ReactivateThenExists(st: SubStore, uid: int, topic: string)
    ensures CheckSubscriptionExists(ReactivateSubscription(st, uid, topic), uid, topic) <==>
      exists s :: s in st.subscriptions && OwnedTopic(uid, topic)(s) && (s.status == 0 || s.status == 1)
  {
    if s :| s in st.subscriptions && OwnedTopic(uid, topic)(s) && (s.status == 0 || s.status == 1) {
      ReactivationFindsRow(st, uid, topic, s);
    }
    if CheckSubscriptionExists(ReactivateSubscription(st, uid, topic), uid, topic) {
      ReactivatedRowWasThere(st, uid, topic);
    }
  }

  /** An active or cancelled (uid, topic) row is active after the
      reactivation, so the existence check finds it. */
  lemma ReactivationFindsRow(st: SubStore, uid: int, topic: string, s: Subscription)
    requires s in st.subscriptions && OwnedTopic(uid, topic)(s) && (s.status == 0 || s.status == 1)
    ensures CheckSubscriptionExists(ReactivateSubscription(st, uid, topic), uid, topic)
  {
    var r := ReactivateSubscription(st, uid, topic);
    var i :| 0 <= i < |st.subscriptions| && st.subscriptions[i] == s;
    ReactivatedAt(st, uid, topic, i);
    assert r.subscriptions[i] in r.subscriptions;
  }

  /** An active (uid, topic) row after the reactivation was an active or
      cancelled row before it. */
  lemma ReactivatedRowWasThere(st: SubStore, uid: int, topic: string)
    requires CheckSubscriptionExists(ReactivateSubscription(st, uid, topic), uid, topic)
    ensures exists s :: s in st.subscriptions && OwnedTopic(uid, topic)(s) && (s.status == 0 || s.status == 1)
  {
    var r := ReactivateSubscription(st, uid, topic);
    var s :| s in r.subscriptions && s.createUserId == uid && s.topicName == topic && s.status == 1;
    var i :| 0 <= i < |r.subscriptions| && r.subscriptions[i] == s;
    ReactivatedAt(st, uid, topic, i);
    assert st.subscriptions[i] in st.subscriptions;
  }

  /** Row i of the reactivated table is an active (uid, topic) row exactly
      when row i of the original was a (uid, topic) row at status 0 or 1. */
  lemma ReactivatedAt(st: SubStore, uid: int, topic: string, i: nat)
    requires i < |st.subscriptions|
    ensures var row := ReactivateSubscription(st, uid, topic).subscriptions[i];
      (row.createUserId == uid && row.topicName == topic && row.status == 1) <==>
      (OwnedTopic(uid, topic)(st.subscriptions[i]) && (st.subscriptions[i].status == 0 || st.subscriptions[i].status == 1))
  {
  }

}

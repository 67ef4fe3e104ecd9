/** System recommendations: a curated table of subscription topics the
    backend suggests to users. Rows are soft-deleted (status 0) and every
    read keeps only status 1. */
module RecommendationModel {
  import opened Results
  import opened Query
  import Text

  /** A row of `system_recommendations`. */
  datatype Recommendation = Recommendation(
    id: nat,
    title: string,
    description: string,
    category: string,
    subscriptionCount: int,
    articleCount: int,
    status: int,
    sortOrder: int,
    createdAt: int)

  /** Rows in primary-key order; rows are never hard-deleted, so the row at
      index i carries key i + 1. */
  ghost predicate IdsArePositions(table: seq<Recommendation>)
  {
    forall i :: 0 <= i < |table| ==> table[i].id == i + 1
  }

  predicate IsActive(r: Recommendation) { r.status == 1 }

  function ActiveWithId(id: int): Recommendation -> bool { (r: Recommendation) => r.id == id && r.status == 1 }
  function HasId(id: int): Recommendation -> bool { (r: Recommendation) => r.id == id }
  function WithStatus(v: int): Recommendation -> Recommendation { (r: Recommendation) => r.(status := v) }
  function WithSubscriptionCount(v: int): Recommendation -> Recommendation { (r: Recommendation) => r.(subscriptionCount := v) }
  function WithArticleCount(v: int): Recommendation -> Recommendation { (r: Recommendation) => r.(articleCount := v) }
  function Replacement(row: Recommendation): Recommendation -> Recommendation { (r: Recommendation) => row }

  /** `status = 1 AND (title LIKE %k% OR description LIKE %k% OR category
      LIKE %k%)`. */
  function MatchesKeyword(keyword: string): Recommendation -> bool
  {
    (r: Recommendation) =>
      r.status == 1 &&
      (Text.Contains(r.title, keyword) || Text.Contains(r.description, keyword) || Text.Contains(r.category, keyword))
  }

  /** `ORDER BY sort_order DESC, subscription_count DESC, created_at DESC`. */
  function Rank(r: Recommendation): Key { Key(r.sortOrder, r.subscriptionCount, r.createdAt) }

  /** `GetSystemRecommendations`: the active rows, highest rank first; the
      count uses the same filter. */
  function List(table: seq<Recommendation>, page: int, size: int): (r: Listing<Recommendation>)
    ensures r.total == |Filter(table, IsActive)|
    ensures WindowOfOrdered(r.items, Filter(table, IsActive), Rank, Offset(page, size), size)
    ensures forall x :: x in r.items ==> x in table && x.status == 1
    ensures size >= 0 ==> |r.items| <= size
  {
    PageOf(Filter(table, IsActive), Rank, Offset(page, size), size)
  }

  /** `SearchSystemRecommendations`: the active rows with the keyword in
      their title, description or category, ranked as in the listing. */
  function Search(table: seq<Recommendation>, keyword: string, page: int, size: int): (r: Listing<Recommendation>)
    ensures r.total == |Filter(table, MatchesKeyword(keyword))|
    ensures WindowOfOrdered(r.items, Filter(table, MatchesKeyword(keyword)), Rank, Offset(page, size), size)
    ensures forall x :: x in r.items ==> x in table && x.status == 1
    ensures forall x :: x in r.items ==>
      Text.Contains(x.title, keyword) || Text.Contains(x.description, keyword) || Text.Contains(x.category, keyword)
  {
    PageOf(Filter(table, MatchesKeyword(keyword)), Rank, Offset(page, size), size)
  }

  /** A search never finds more than the listing holds, and the empty
      pattern `%%` matches every active row, so searching for nothing is
      the listing itself. */
  lemma SearchWithinList(table: seq<Recommendation>, keyword: string, page: int, size: int)
    ensures Search(table, keyword, page, size).total <= List(table, page, size).total
    ensures keyword == "" ==> Search(table, keyword, page, size) == List(table, page, size)
  {
    FilterNarrower(table, MatchesKeyword(keyword), IsActive);
    if keyword == "" {
      forall x: Recommendation ensures MatchesKeyword(keyword)(x) == IsActive(x) {
        Text.EmptyIsEverywhere(x.title);
      }
      FilterSame(table, MatchesKeyword(keyword), IsActive);
    }
  }

  /** `GetSystemRecommendationByID`: the first active row with that key; a
      disabled row is not found. */
  function GetById(table: seq<Recommendation>, id: int): (r: Result<Recommendation>)
    ensures r.Ok? <==> exists x :: x in table && x.id == id && x.status == 1
    ensures r.Ok? ==> r.value in table && r.value.id == id && r.value.status == 1
    ensures r.Err? ==> r.error == NotFound
  {
    match FirstIndex(table, ActiveWithId(id))
    case Some(i) => Ok(table[i])
    case None =>
      assert forall x :: x in table ==> !ActiveWithId(id)(x);
      Err(NotFound)
  }

  /** The row `Create` stores for `row` under key `id`: a zero status takes
      the column default 1 (the counts and sort order default to 0, which a
      zero value already is). */
  function Stored(row: Recommendation, id: nat): Recommendation
  {
    row.(id := id, status := if row.status == 0 then 1 else row.status)
  }

  /** `CreateSystemRecommendation`: appends under the next key. */
  function Create(table: seq<Recommendation>, row: Recommendation): (r: seq<Recommendation>)
    ensures |r| == |table| + 1 && r[..|table|] == table
    ensures r[|table|].id == |table| + 1
    ensures r[|table|].status == (if row.status == 0 then 1 else row.status)
    ensures r[|table|].(id := row.id, status := row.status) == row
    ensures IdsArePositions(table) ==> IdsArePositions(r)
  {
    table + [Stored(row, |table| + 1)]
  }

  /** A created row is the one the lookup by its new key finds, provided it
      is active. */
  lemma CreateThenGet(table: seq<Recommendation>, row: Recommendation)
    requires IdsArePositions(table)
    requires row.status == 0 || row.status == 1
    ensures GetById(Create(table, row), |table| + 1) == Ok(Create(table, row)[|table|])
  {
    var after := Create(table, row);
    assert forall j :: 0 <= j < |table| ==> !ActiveWithId(|table| + 1)(after[j]);
    FirstIndexAtEnd(table, after, ActiveWithId(|table| + 1));
  }

  /** `UpdateSystemRecommendation` (GORM `Save`): every column of the row
      with that key is overwritten. */
  function Save(table: seq<Recommendation>, row: Recommendation): (r: seq<Recommendation>)
    ensures |r| == |table|
    ensures forall i :: 0 <= i < |table| ==> r[i] == (if table[i].id == row.id then row else table[i])
  {
    UpdateWhere(table, HasId(row.id), Replacement(row))
  }

  /** With keys at their positions, saving a row with an existing key
      rewrites exactly that position. */
  lemma SaveIsPointUpdate(table: seq<Recommendation>, row: Recommendation)
    requires IdsArePositions(table) && 1 <= row.id <= |table|
    ensures Save(table, row) == table[row.id - 1 := row]
    ensures IdsArePositions(Save(table, row))
  {
  }

  /** Saving an active row over an active row keeps it readable, as saved,
      and keeps the listing's size. */
  lemma SaveActiveRow(table: seq<Recommendation>, row: Recommendation)
    requires IdsArePositions(table) && GetById(table, row.id).Ok? && row.status == 1
    ensures GetById(Save(table, row), row.id) == Ok(row)
    ensures |Filter(Save(table, row), IsActive)| == |Filter(table, IsActive)|
  {
    var i := row.id - 1;
    SaveIsPointUpdate(table, row);
    var after := table[i := row];
    assert table[i].status == 1;
    FilterCountAgrees(table, after);
    FirstActiveAt(after, row.id);
  }

  /** With keys at their positions, the lookup finds the row at position
      id - 1 when it is active. */
  lemma FirstActiveAt(table: seq<Recommendation>, id: int)
    requires IdsArePositions(table) && 1 <= id <= |table| && table[id - 1].status == 1
    ensures GetById(table, id) == Ok(table[id - 1])
  {
    assert forall j :: 0 <= j < id - 1 ==> !ActiveWithId(id)(table[j]);
  }

  /** Saving a row with any status but 1 over an active row hides it: it
      can no longer be read and the listing loses it. */
  lemma SaveInactiveRow(table: seq<Recommendation>, row: Recommendation)
    requires IdsArePositions(table) && GetById(table, row.id).Ok? && row.status != 1
    ensures GetById(Save(table, row), row.id) == Err(NotFound)
    ensures |Filter(Save(table, row), IsActive)| + 1 == |Filter(table, IsActive)|
  {
    var i := row.id - 1;
    SaveIsPointUpdate(table, row);
    var after := Save(table, row);
    FilterReplaceKept(table, i, row, IsActive);
    forall x | x in after && x.id == row.id ensures x.status != 1 {
      var k :| 0 <= k < |after| && after[k] == x;
    }
  }

  /** `DeleteSystemRecommendation`: status 0 on the row with that key. */
  function Delete(table: seq<Recommendation>, id: int): (r: seq<Recommendation>)
    ensures |r| == |table|
    ensures forall i :: 0 <= i < |table| ==>
      r[i] == (if table[i].id == id then table[i].(status := 0) else table[i])
  {
    UpdateWhere(table, HasId(id), WithStatus(0))
  }

  /** A deleted row can no longer be read, and leaves the listing when it
      was in it. */
  lemma DeleteHides(table: seq<Recommendation>, id: int)
    requires IdsArePositions(table)
    ensures GetById(Delete(table, id), id) == Err(NotFound)
    ensures GetById(table, id).Ok? ==>
      |Filter(Delete(table, id), IsActive)| + 1 == |Filter(table, IsActive)|
  {
    var after := Delete(table, id);
    forall x | x in after && x.id == id ensures x.status != 1 {
      var i :| 0 <= i < |after| && after[i] == x;
    }
    if GetById(table, id).Ok? {
      var i := id - 1;
      assert table[i].id == id && table[i].status == 1;
      assert after == table[i := table[i].(status := 0)];
      FilterReplaceKept(table, i, table[i].(status := 0), IsActive);
    }
  }

  /** Deleting one row leaves every other row readable exactly as before. */
  lemma DeleteKeepsOthers(table: seq<Recommendation>, id: int, other: int)
    requires other != id
    ensures GetById(Delete(table, id), other) == GetById(table, other)
  {
    var after := Delete(table, id);
    assert forall i :: 0 <= i < |table| ==> (ActiveWithId(other)(table[i]) <==> ActiveWithId(other)(after[i]));
    match FirstIndex(table, ActiveWithId(other)) {
      case Some(k) =>
        FirstIndexStable(table, after, ActiveWithId(other), k);
      case None =>
        assert forall i :: 0 <= i < |after| ==> !ActiveWithId(other)(after[i]);
    }
  }

  /** `UpdateSubscriptionCount`: sets that one column on the row with that
      key. */
  function SetSubscriptionCount(table: seq<Recommendation>, id: int, count: int): (r: seq<Recommendation>)
    ensures |r| == |table|
    ensures forall i :: 0 <= i < |table| ==>
      r[i] == (if table[i].id == id then table[i].(subscriptionCount := count) else table[i])
  {
    UpdateWhere(table, HasId(id), WithSubscriptionCount(count))
  }

  /** `UpdateArticleCount`: sets that one column on the row with that key. */
  function SetArticleCount(table: seq<Recommendation>, id: int, count: int): (r: seq<Recommendation>)
    ensures |r| == |table|
    ensures forall i :: 0 <= i < |table| ==>
      r[i] == (if table[i].id == id then table[i].(articleCount := count) else table[i])
  {
    UpdateWhere(table, HasId(id), WithArticleCount(count))
  }

  /** Updating a counter moves a row within the ranking at most: the set
      of listed rows, their count and every lookup's success stay as they
      were. */
  lemma CountersKeepListing(table: seq<Recommendation>, id: int, count: int, other: int)
    ensures |Filter(SetSubscriptionCount(table, id, count), IsActive)| == |Filter(table, IsActive)|
    ensures |Filter(SetArticleCount(table, id, count), IsActive)| == |Filter(table, IsActive)|
    ensures GetById(SetSubscriptionCount(table, id, count), other).Ok? == GetById(table, other).Ok?
    ensures GetById(SetArticleCount(table, id, count), other).Ok? == GetById(table, other).Ok?
  {
    SubscriptionCountKeepsListing(table, id, count, other);
    ArticleCountKeepsListing(table, id, count, other);
  }

  /** The subscription-counter half of `CountersKeepListing`. */
  lemma SubscriptionCountKeepsListing(table: seq<Recommendation>, id: int, count: int, other: int)
    ensures |Filter(SetSubscriptionCount(table, id, count), IsActive)| == |Filter(table, IsActive)|
    ensures GetById(SetSubscriptionCount(table, id, count), other).Ok? == GetById(table, other).Ok?
  {
    var a := SetSubscriptionCount(table, id, count);
    assert forall i :: 0 <= i < |table| ==> table[i].id == a[i].id && table[i].status == a[i].status;
    StatusPreserved(table, a, other);
  }

  /** The article-counter half of `CountersKeepListing`. */
  lemma ArticleCountKeepsListing(table: seq<Recommendation>, id: int, count: int, other: int)
    ensures |Filter(SetArticleCount(table, id, count), IsActive)| == |Filter(table, IsActive)|
    ensures GetById(SetArticleCount(table, id, count), other).Ok? == GetById(table, other).Ok?
  {
    var b := SetArticleCount(table, id, count);
    assert forall i :: 0 <= i < |table| ==> table[i].id == b[i].id && table[i].status == b[i].status;
    StatusPreserved(table, b, other);
  }

  /** Two tables whose rows agree on key and status have the same active
      rows count and the same lookup outcome. */
  lemma StatusPreserved(a: seq<Recommendation>, b: seq<Recommendation>, id: int)
    requires |a| == |b|
    requires forall i :: 0 <= i < |a| ==> a[i].id == b[i].id && a[i].status == b[i].status
    ensures |Filter(b, IsActive)| == |Filter(a, IsActive)|
    ensures GetById(b, id).Ok? == GetById(a, id).Ok?
  {
    FilterCountAgrees(a, b);
    if GetById(a, id).Ok? {
      var i :| 0 <= i < |a| && a[i] == GetById(a, id).value;
      assert b[i] in b;
    }
    if GetById(b, id).Ok? {
      var i :| 0 <= i < |b| && b[i] == GetById(b, id).value;
      assert a[i] in a;
    }
  }

  lemma {:induction false} FilterCountAgrees(a: seq<Recommendation>, b: seq<Recommendation>)
    requires |a| == |b|
    requires forall i :: 0 <= i < |a| ==> a[i].status == b[i].status
    ensures |Filter(b, IsActive)| == |Filter(a, IsActive)|
  {
    if a != [] {
      FilterCountAgrees(a[..|a| - 1], b[..|b| - 1]);
    }
  }

  // ---------------------------------------------------------------------
  // Seeding
  // ---------------------------------------------------------------------

  /** One built-in recommendation: title, description, category and sort
      order. */
  datatype SeedEntry = SeedEntry(title: string, description: string, category: string, sortOrder: int)

  /** How many recommendations a fresh installation starts with. */
  const SeedCount := 10

  /** The i-th built-in recommendation, in insertion order. */
  function SeedAt(i: nat): SeedEntry
    requires i < SeedCount
  {
    match i
    case 0 => SeedEntry("人工智能与机器学习", "探索AI和ML的最新发展，包括深度学习、自然语言处理、计算机视觉等前沿技术", "技术", 100)
    case 1 => SeedEntry("Web开发技术", "涵盖前端、后端、全栈开发技术，包括React、Vue、Node.js、Python等热门技术栈", "技术", 95)
    case 2 => SeedEntry("移动应用开发", "iOS、Android开发技术，包括Swift、Kotlin、React Native、Flutter等跨平台解决方案", "技术", 90)
    case 3 => SeedEntry("云计算与DevOps", "云服务、容器化、CI/CD、微服务架构等现代化开发和部署技术", "技术", 85)
    case 4 => SeedEntry("数据科学与分析", "大数据处理、数据分析、数据可视化、商业智能等相关技术和应用", "技术", 80)
    case 5 => SeedEntry("网络安全", "网络安全、信息安全、隐私保护、漏洞分析等安全相关技术和最佳实践", "技术", 75)
    case 6 => SeedEntry("创业与商业", "创业指导、商业模式、市场营销、产品管理等商业相关内容", "商业", 70)
    case 7 => SeedEntry("产品设计与用户体验", "产品设计、UI/UX设计、用户研究、交互设计等设计相关内容", "设计", 65)
    case 8 => SeedEntry("编程语言与框架", "各种编程语言的学习指南、框架介绍、最佳实践等", "技术", 60)
    case _ => SeedEntry("数据库与存储", "关系型数据库、NoSQL、分布式存储、数据建模等技术", "技术", 55)
  }

  /** The row a seed entry is inserted as: active, with zero counts. */
  function SeedRow(e: SeedEntry, now: int): Recommendation
  {
    Recommendation(0, e.title, e.description, e.category, 0, 0, 1, e.sortOrder, now)
  }

  /** The rows for the first n seeds, in order. */
  function SeedRows(n: nat, now: int): (r: seq<Recommendation>)
    requires n <= SeedCount
    ensures |r| == n
    ensures forall i :: 0 <= i < n ==> r[i] == SeedRow(SeedAt(i), now)
  {
    if n == 0 then [] else SeedRows(n - 1, now) + [SeedRow(SeedAt(n - 1), now)]
  }

  /** Inserting rows one after another: each gets the next key. */
  function CreateAll(table: seq<Recommendation>, rows: seq<Recommendation>): (r: seq<Recommendation>)
    ensures |r| == |table| + |rows| && r[..|table|] == table
    ensures forall k :: 0 <= k < |rows| ==> r[|table| + k] == Stored(rows[k], |table| + k + 1)
  {
    if rows == [] then table
    else
      var init := CreateAll(table, rows[..|rows| - 1]);
      Create(init, rows[|rows| - 1])
  }

  /** The first n seeds inserted into an empty table. */
  function SeedTable(n: nat, now: int): (r: seq<Recommendation>)
    requires n <= SeedCount
    ensures |r| == n
    ensures forall i :: 0 <= i < n ==> r[i] == SeedRow(SeedAt(i), now).(id := i + 1)
  {
    var rows := SeedRows(n, now);
    var t := CreateAll([], rows);
    assert forall i :: 0 <= i < |rows| ==> t[0 + i] == Stored(rows[i], 0 + i + 1);
    t
  }

  /** `InitializeSystemRecommendations`: nothing happens when the table
      holds any row, active or not; otherwise the seeds are inserted in
      order. `inserted` is how many inserts the store accepts before one
      fails: the loop stops at the failure and keeps what it wrote. */
  function Initialize(table: seq<Recommendation>, now: int, inserted: nat): (r: Reply<seq<Recommendation>, ()>)
    ensures |table| > 0 ==> r == Reply(table, Ok(()))
    ensures |table| == 0 ==> |r.state| == Min(inserted, SeedCount)
    ensures |table| == 0 ==> forall i :: 0 <= i < |r.state| ==> r.state[i] == SeedRow(SeedAt(i), now).(id := i + 1)
    ensures r.result.Ok? <==> |table| > 0 || inserted >= SeedCount
    ensures r.result.Err? ==> r.result.error == StoreFailure
  {
    if |table| > 0 then Reply(table, Ok(()))
    else Reply(SeedTable(Min(inserted, SeedCount), now), if inserted >= SeedCount then Ok(()) else Err(StoreFailure))
  }

  /** The sort orders of the seeds run from 100 down to 55 in steps of 5. */
  lemma SeedSortOrders()
    ensures forall i :: 0 <= i < SeedCount ==> SeedAt(i).sortOrder == 100 - 5 * i
  {
    assert SeedAt(0).sortOrder == 100 && SeedAt(1).sortOrder == 95 && SeedAt(2).sortOrder == 90;
    assert SeedAt(3).sortOrder == 85 && SeedAt(4).sortOrder == 80 && SeedAt(5).sortOrder == 75;
    assert SeedAt(6).sortOrder == 70 && SeedAt(7).sortOrder == 65 && SeedAt(8).sortOrder == 60;
    assert SeedAt(9).sortOrder == 55;
  }

  /** A complete seeding leaves ten active rows with zero counts, keyed 1
      to 10, whose sort orders strictly decrease; seeding again is a
      no-op. */
  lemma SeededStore(now: int, later: int, inserted: nat)
    ensures var t := Initialize([], now, SeedCount).state;
      && |t| == 10 && IdsArePositions(t)
      && (forall i :: 0 <= i < |t| ==> t[i].status == 1 && t[i].subscriptionCount == 0 && t[i].articleCount == 0)
      && (forall i :: 0 <= i < |t| ==> t[i].sortOrder == 100 - 5 * i)
      && StrictlyDescMajor(t, Rank)
      && Initialize(t, later, inserted) == Reply(t, Ok(()))
  {
    SeedSortOrders();
  }

  /** When every row is active, no two share a sort order and they are
      already in rank order, a first page that holds them all lists them
      exactly as stored. */
  lemma RankedFirstPage(t: seq<Recommendation>, size: int)
    requires forall i :: 0 <= i < |t| ==> t[i].status == 1
    requires StrictlyDescMajor(t, Rank)
    requires |t| <= size
    ensures List(t, 1, size).items == t
  {
    FilterKeepsAll(t, IsActive);
    assert Offset(1, size) == 0;
    var items := List(t, 1, size).items;
    assert WindowOfOrdered(items, t, Rank, 0, size);
    var ordered :| multiset(ordered) == multiset(t) && SortedDesc(ordered, Rank) && items == Window(ordered, 0, size);
    assert |ordered| == |multiset(ordered)| == |t|;
    SortedIsUnique(t, ordered, Rank);
  }

  /** On a freshly seeded store the first page of ten lists the seeds in
      exactly the order they were written. */
  lemma SeededFirstPage(now: int)
    ensures var t := Initialize([], now, SeedCount).state;
      List(t, 1, 10).items == t && List(t, 1, 10).total == 10
  {
    SeededStore(now, now, 0);
    var t := Initialize([], now, SeedCount).state;
    FilterKeepsAll(t, IsActive);
    RankedFirstPage(t, 10);
  }
}

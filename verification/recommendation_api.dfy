/** The recommendation endpoints. Reads are open to every user; create,
    update and delete are for administrators, whose role is read from the
    user table first (`callerRole` is `None` when that read fails). */
module RecommendationApi {
  import opened Results
  import opened Query
  import opened RecommendationModel

  /** Default `page_size` of the list and search endpoints. */
  const RecommendationPageSize := 10
  /** Lowest role allowed to change recommendations. */
  const RoleAdminUser := 10
  const TitleMax := 255
  const DescriptionMax := 1000
  const CategoryMax := 100

  /** The administrator gate shared by the three write endpoints: the user
      read fails, then the role is too low. */
  function AdminGate(callerRole: Option<int>): (r: Result<()>)
    ensures r.Ok? <==> callerRole.Some? && callerRole.value >= RoleAdminUser
    ensures callerRole.None? ==> r == Err(StoreFailure)
    ensures callerRole.Some? && callerRole.value < RoleAdminUser ==> r == Err(Forbidden)
  {
    match callerRole
    case None => Err(StoreFailure)
    case Some(role) => if role < RoleAdminUser then Err(Forbidden) else Ok(())
  }

  /** `GetSystemRecommendations` endpoint: page and size clamped, size
      defaulting to 10. */
  function ListEndpoint(table: seq<Recommendation>, page: int, size: int): (r: Paged<Recommendation>)
    ensures r.page == ClampPage(page) && r.size == ClampSize(size, RecommendationPageSize)
    ensures r.listing == List(table, r.page, r.size)
    ensures |r.listing.items| <= r.size <= MaxPageSize
  {
    var p := ClampPage(page);
    var s := ClampSize(size, RecommendationPageSize);
    Paged(List(table, p, s), p, s)
  }

  /** `GetSystemRecommendationByID` endpoint: a missing or disabled row is
      not found. */
  function GetEndpoint(table: seq<Recommendation>, id: int): (r: Result<Recommendation>)
    ensures r.Ok? <==> exists x :: x in table && x.id == id && x.status == 1
    ensures r.Err? ==> r.error == NotFound
    ensures r.Ok? ==> r.value.id == id && r.value.status == 1
  {
    GetById(table, id)
  }

  /** The create request and its binding rules: the title is required and
      at most 255 characters, the description at most 1000, the category at
      most 100. */
  datatype CreateRequest = CreateRequest(title: string, description: string, category: string, sortOrder: int)

  predicate CreateRequestBinds(req: CreateRequest)
  {
    req.title != "" && |req.title| <= TitleMax && |req.description| <= DescriptionMax && |req.category| <= CategoryMax
  }

  /** `CreateSystemRecommendation` endpoint: after the gate and the
      binding, an active row with zero counts is inserted; the answer is
      its key. */
  function CreateEndpoint(table: seq<Recommendation>, callerRole: Option<int>, req: CreateRequest, now: int, insertOk: bool): (r: Reply<seq<Recommendation>, nat>)
    ensures AdminGate(callerRole).Err? ==> r == Reply(table, Err(AdminGate(callerRole).error))
    ensures AdminGate(callerRole).Ok? && !CreateRequestBinds(req) ==> r == Reply(table, Err(Invalid(BadFormat)))
    ensures r.result.Ok? <==> AdminGate(callerRole).Ok? && CreateRequestBinds(req) && insertOk
    ensures r.result.Err? ==> r.state == table
    ensures r.result.Ok? ==>
      && |r.state| == |table| + 1 && r.state[..|table|] == table
      && r.result.value == |table| + 1
      && r.state[|table|] == Recommendation(|table| + 1, req.title, req.description, req.category, 0, 0, 1, req.sortOrder, now)
  {
    match AdminGate(callerRole)
    case Err(e) => Reply(table, Err(e))
    case Ok(_) =>
      if !CreateRequestBinds(req) then Reply(table, Err(Invalid(BadFormat)))
      else if !insertOk then Reply(table, Err(StoreFailure))
      else
        var row := Recommendation(0, req.title, req.description, req.category, 0, 0, 1, req.sortOrder, now);
        Reply(Create(table, row), Ok(|table| + 1))
  }

  /** A created recommendation can be read back under the key the endpoint
      answered, and the listing grows by one. */
  lemma CreatedIsVisible(table: seq<Recommendation>, callerRole: Option<int>, req: CreateRequest, now: int)
    requires IdsArePositions(table)
    requires CreateEndpoint(table, callerRole, req, now, true).result.Ok?
    ensures var r := CreateEndpoint(table, callerRole, req, now, true);
      && GetEndpoint(r.state, r.result.value) == Ok(r.state[|table|])
      && List(r.state, 1, 10).total == List(table, 1, 10).total + 1
  {
    var row := Recommendation(0, req.title, req.description, req.category, 0, 0, 1, req.sortOrder, now);
    CreateThenGet(table, row);
    FilterAppend(table, Create(table, row)[|table|], IsActive);
  }

  /** The update request. `status` is `None` when the JSON body has no
      `status` member; the source's plain `int` field then decodes as 0. */
  datatype UpdateRequest = UpdateRequest(title: string, description: string, category: string, status: Option<int>, sortOrder: int)

  predicate UpdateRequestBinds(req: UpdateRequest)
  {
    |req.title| <= TitleMax && |req.description| <= DescriptionMax && |req.category| <= CategoryMax
  }

  /** The status the source reads from the request: an absent member is 0. */
  function DecodedStatus(req: UpdateRequest): int
  {
    match req.status
    case None => 0
    case Some(v) => v
  }

  /** The merge as written: empty strings and a non-positive sort order keep
      the stored value, but any decoded status of 0 or more overwrites the
      stored one, including the 0 an absent status decodes to. */
  function MergeAsWritten(row: Recommendation, req: UpdateRequest): (m: Recommendation)
    ensures m.id == row.id && m.createdAt == row.createdAt
    ensures m.subscriptionCount == row.subscriptionCount && m.articleCount == row.articleCount
    ensures req.status.None? ==> m.status == 0
    ensures req.status.Some? ==> m.status == (if req.status.value >= 0 then req.status.value else row.status)
  {
    row.(
      title := if req.title != "" then req.title else row.title,
      description := if req.description != "" then req.description else row.description,
      category := if req.category != "" then req.category else row.category,
      status := if DecodedStatus(req) >= 0 then DecodedStatus(req) else row.status,
      sortOrder := if req.sortOrder > 0 then req.sortOrder else row.sortOrder)
  }

  /** The merge as intended: a field the request leaves out keeps its
      stored value, status included. */
  function Merge(row: Recommendation, req: UpdateRequest): (m: Recommendation)
    ensures m.id == row.id && m.createdAt == row.createdAt
    ensures m.subscriptionCount == row.subscriptionCount && m.articleCount == row.articleCount
    ensures m.title == (if req.title == "" then row.title else req.title)
    ensures m.description == (if req.description == "" then row.description else req.description)
    ensures m.category == (if req.category == "" then row.category else req.category)
    ensures m.sortOrder == (if req.sortOrder > 0 then req.sortOrder else row.sortOrder)
    ensures req.status.None? ==> m.status == row.status
  {
    var v := match req.status
      case Some(s) => if s >= 0 then s else row.status
      case None => row.status;
    MergeAsWritten(row, req).(status := v)
  }

  /** The two merges differ only when the status is left out. */
  lemma MergeAgreesWhenStatusGiven(row: Recommendation, req: UpdateRequest)
    ensures req.status.Some? ==> Merge(row, req) == MergeAsWritten(row, req)
    ensures Merge(row, req).(status := 0) == MergeAsWritten(row, req).(status := 0)
  {
  }

  /** `UpdateSystemRecommendation` endpoint with the merge as written:
      gate, binding, lookup of an active row, merge, save. */
  function UpdateAsWritten(table: seq<Recommendation>, callerRole: Option<int>, id: int, req: UpdateRequest, writeOk: bool): (r: Reply<seq<Recommendation>, ()>)
    ensures AdminGate(callerRole).Err? ==> r == Reply(table, Err(AdminGate(callerRole).error))
    ensures r.result.Err? ==> r.state == table
    ensures r.result.Ok? ==> GetById(table, id).Ok? && r.state == Save(table, MergeAsWritten(GetById(table, id).value, req))
  {
    UpdateWith(table, callerRole, id, req, writeOk, false)
  }

  /** `UpdateSystemRecommendation` endpoint with the intended merge. */
  function UpdateEndpoint(table: seq<Recommendation>, callerRole: Option<int>, id: int, req: UpdateRequest, writeOk: bool): (r: Reply<seq<Recommendation>, ()>)
    ensures AdminGate(callerRole).Err? ==> r == Reply(table, Err(AdminGate(callerRole).error))
    ensures AdminGate(callerRole).Ok? && !UpdateRequestBinds(req) ==> r == Reply(table, Err(Invalid(BadFormat)))
    ensures AdminGate(callerRole).Ok? && UpdateRequestBinds(req) && GetById(table, id).Err? ==> r == Reply(table, Err(NotFound))
    ensures r.result.Ok? <==> AdminGate(callerRole).Ok? && UpdateRequestBinds(req) && GetById(table, id).Ok? && writeOk
    ensures r.result.Err? ==> r.state == table
    ensures r.result.Ok? ==> r.state == Save(table, Merge(GetById(table, id).value, req))
  {
    UpdateWith(table, callerRole, id, req, writeOk, true)
  }

  /** The update path, with either merge. */
  function UpdateWith(table: seq<Recommendation>, callerRole: Option<int>, id: int, req: UpdateRequest, writeOk: bool, intended: bool): (r: Reply<seq<Recommendation>, ()>)
    ensures AdminGate(callerRole).Err? ==> r == Reply(table, Err(AdminGate(callerRole).error))
    ensures AdminGate(callerRole).Ok? && !UpdateRequestBinds(req) ==> r == Reply(table, Err(Invalid(BadFormat)))
    ensures AdminGate(callerRole).Ok? && UpdateRequestBinds(req) && GetById(table, id).Err? ==> r == Reply(table, Err(NotFound))
    ensures r.result.Ok? <==> AdminGate(callerRole).Ok? && UpdateRequestBinds(req) && GetById(table, id).Ok? && writeOk
    ensures r.result.Err? ==> r.state == table
    ensures r.result.Ok? ==> r.state == Save(table, if intended then Merge(GetById(table, id).value, req) else MergeAsWritten(GetById(table, id).value, req))
  {
    match AdminGate(callerRole)
    case Err(e) => Reply(table, Err(e))
    case Ok(_) =>
      if !UpdateRequestBinds(req) then Reply(table, Err(Invalid(BadFormat)))
      else match GetById(table, id)
        case Err(_) => Reply(table, Err(NotFound))
        case Ok(row) =>
          if !writeOk then Reply(table, Err(StoreFailure))
          else Reply(Save(table, if intended then Merge(row, req) else MergeAsWritten(row, req)), Ok(()))
  }

  /** As written, an update that only renames an active recommendation
      disables it: it vanishes from the listing and can no longer be read. */
  lemma UpdateWithoutStatusDisables(table: seq<Recommendation>, callerRole: Option<int>, id: int, req: UpdateRequest)
    requires IdsArePositions(table)
    requires req.status.None?
    requires UpdateAsWritten(table, callerRole, id, req, true).result.Ok?
    ensures var after := UpdateAsWritten(table, callerRole, id, req, true).state;
      && GetById(after, id) == Err(NotFound)
      && |Filter(after, IsActive)| + 1 == |Filter(table, IsActive)|
  {
    SaveInactiveRow(table, MergeAsWritten(GetById(table, id).value, req));
  }

  /** With the intended merge, an update that leaves out the status keeps
      the row readable, and returns it with every requested change. */
  lemma UpdateWithoutStatusKeepsRow(table: seq<Recommendation>, callerRole: Option<int>, id: int, req: UpdateRequest)
    requires IdsArePositions(table)
    requires req.status.None?
    requires UpdateEndpoint(table, callerRole, id, req, true).result.Ok?
    ensures var after := UpdateEndpoint(table, callerRole, id, req, true).state;
      && GetById(after, id) == Ok(Merge(GetById(table, id).value, req))
      && |Filter(after, IsActive)| == |Filter(table, IsActive)|
  {
    SaveActiveRow(table, Merge(GetById(table, id).value, req));
  }

  /** `DeleteSystemRecommendation` endpoint: gate, then the soft delete,
      with no existence check, so an unknown key also succeeds. */
  function DeleteEndpoint(table: seq<Recommendation>, callerRole: Option<int>, id: int, writeOk: bool): (r: Reply<seq<Recommendation>, ()>)
    ensures AdminGate(callerRole).Err? ==> r == Reply(table, Err(AdminGate(callerRole).error))
    ensures r.result.Ok? <==> AdminGate(callerRole).Ok? && writeOk
    ensures r.result.Err? ==> r.state == table
    ensures r.result.Ok? ==> r.state == Delete(table, id) && GetById(r.state, id) == Err(NotFound)
    ensures r.result.Ok? && (forall x :: x in table ==> x.id != id) ==> r.state == table
  {
    match AdminGate(callerRole)
    case Err(e) => Reply(table, Err(e))
    case Ok(_) =>
      if !writeOk then Reply(table, Err(StoreFailure))
      else
        var after := Delete(table, id);
        assert forall x :: x in after && x.id == id ==> x.status == 0 by {
          forall x | x in after && x.id == id ensures x.status == 0 {
            var k :| 0 <= k < |after| && after[k] == x;
          }
        }
        Reply(after, Ok(()))
  }

  /** `SearchSystemRecommendations` endpoint: an empty keyword is refused
      before any query; otherwise page and size are clamped as in the
      listing. */
  function SearchEndpoint(table: seq<Recommendation>, keyword: string, page: int, size: int): (r: Result<Paged<Recommendation>>)
    ensures keyword == "" <==> r == Err(Invalid(MissingParameter))
    ensures r.Ok? ==> r.value.page == ClampPage(page) && r.value.size == ClampSize(size, RecommendationPageSize)
    ensures r.Ok? ==> r.value.listing == Search(table, keyword, r.value.page, r.value.size)
  {
    if keyword == "" then Err(Invalid(MissingParameter))
    else
      var p := ClampPage(page);
      var s := ClampSize(size, RecommendationPageSize);
      Ok(Paged(Search(table, keyword, p, s), p, s))
  }

  /** Every search answer is a subset of the listing for the same page
      bounds, and the refused empty keyword would have matched exactly the
      listing. */
  lemma SearchAgreesWithList(table: seq<Recommendation>, keyword: string, page: int, size: int)
    ensures SearchEndpoint(table, keyword, page, size).Ok? ==>
      SearchEndpoint(table, keyword, page, size).value.listing.total <= ListEndpoint(table, page, size).listing.total
    ensures Search(table, "", ClampPage(page), ClampSize(size, RecommendationPageSize)) == ListEndpoint(table, page, size).listing
  {
    SearchWithinList(table, keyword, ClampPage(page), ClampSize(size, RecommendationPageSize));
    SearchWithinList(table, "", ClampPage(page), ClampSize(size, RecommendationPageSize));
  }
}

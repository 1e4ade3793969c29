/**
 * The case list handlers: `GET /api/admin/cases` (every user's cases, for
 * ADMIN, INTERNAL_STAFF and ATTORNEY) and `GET /api/cases` (the caller's own
 * cases). Both turn the query string into a `where` filter and an `orderBy`
 * choice; the database then selects the matching rows. The selection is
 * modelled as a filter over the store's cases in store order; the sorting the
 * database applies is not modelled, only the `orderBy` it is given.
 */
module CaseListing {
  import opened Text
  import opened UrlParams
  import opened Entities
  import StaffAdmin

  /** `checkAdminAccess` of the admin case list: the user exists and is ADMIN, INTERNAL_STAFF or ATTORNEY. */
  predicate HasCaseAdminAccess(users: map<UserId, User>, userId: UserId) {
    userId in users && users[userId].role in {AdminRole, InternalStaffRole, AttorneyRole}
  }

  /** Every existing user but a CLIENT may open the admin case list. */
  lemma CaseAdminAccessIffNotClient(users: map<UserId, User>, userId: UserId)
    ensures HasCaseAdminAccess(users, userId) <==> userId in users && users[userId].role != ClientRole
  {
  }

  /** Whoever may manage staff may open the admin case list, but not the other way round. */
  lemma StaffAccessWithinCaseAdminAccess(users: map<UserId, User>, userId: UserId)
    ensures StaffAdmin.HasStaffAccess(users, userId) ==> HasCaseAdminAccess(users, userId)
    ensures HasCaseAdminAccess(users, userId) && !StaffAdmin.HasStaffAccess(users, userId) <==>
      userId in users && users[userId].role in {InternalStaffRole, AttorneyRole}
  {
  }

  /** `searchParams.get(name)` when it is truthy: present and not empty. */
  function ActiveParam(params: seq<Entry>, name: string): (r: Option<string>)
    ensures r.Some? <==> GetEntry(params, name).Some? && GetEntry(params, name).value != []
    ensures r.Some? ==> r == GetEntry(params, name)
  {
    var v := GetEntry(params, name);
    if v.Some? && v.value != [] then v else None
  }

  /** Which fields the keyword is looked for in. */
  datatype KeywordScope = NumberTitleApplicant | NumberTitle

  /** The `where` object: `None` for a key the route leaves unset. */
  datatype CaseWhere = CaseWhere(
    owner: Option<UserId>,
    status: Option<string>,
    trademarkType: Option<string>,
    classes: Option<seq<string>>,
    keyword: Option<string>,
    scope: KeywordScope)

  /** `classFilter.split(',').map((c) => c.trim())` */
  function ClassList(classFilter: string): (r: seq<string>)
    ensures |r| == |Split(classFilter, ',')|
    ensures forall i | 0 <= i < |r| :: r[i] == Trim(Split(classFilter, ',')[i])
  {
    var parts := Split(classFilter, ',');
    seq(|parts|, i requires 0 <= i < |parts| => Trim(parts[i]))
  }

  /** The filter the route builds: each query parameter sets its key only when truthy. */
  function BuildWhere(owner: Option<UserId>, params: seq<Entry>, scope: KeywordScope): CaseWhere {
    var classes := ActiveParam(params, "classes");
    CaseWhere(
      owner,
      ActiveParam(params, "status"),
      ActiveParam(params, "trademarkType"),
      if classes.Some? then Some(ClassList(classes.value)) else None,
      ActiveParam(params, "q"),
      scope)
  }

  /** `contains` with `mode: 'insensitive'`, with ASCII case folding. */
  predicate ContainsInsensitive(s: string, q: string) {
    IndexOf(ToLower(s), ToLower(q)).Some?
  }

  /** Some class of the case is in the list (`hasSome`). */
  predicate SharesClass(caseClasses: seq<string>, wanted: seq<string>) {
    exists i, j | 0 <= i < |caseClasses| && 0 <= j < |wanted| :: caseClasses[i] == wanted[j]
  }

  /** A case row satisfies the `where` object; `deletedAt: null` is always part of it. */
  predicate Matches(w: CaseWhere, c: CaseRecord) {
    && !c.deleted
    && (w.owner.Some? ==> c.userId == w.owner.value)
    && (w.status.Some? ==> c.status == w.status.value)
    && (w.trademarkType.Some? ==> c.trademarkType == w.trademarkType.value)
    && (w.classes.Some? ==> SharesClass(c.classes, w.classes.value))
    && (w.keyword.Some? ==>
          || ContainsInsensitive(c.caseNumber, w.keyword.value)
          || ContainsInsensitive(c.title, w.keyword.value)
          || (w.scope == NumberTitleApplicant && ContainsInsensitive(c.applicant, w.keyword.value)))
  }

  /** `case.findMany({ where })`, in store order. */
  function Select(cases: seq<CaseRecord>, w: CaseWhere): (r: seq<CaseRecord>)
    ensures |r| <= |cases|
    ensures forall c | c in r :: c in cases && Matches(w, c)
    ensures forall c | c in cases && Matches(w, c) :: c in r
  {
    if cases == [] then []
    else (if Matches(w, cases[0]) then [cases[0]] else []) + Select(cases[1..], w)
  }

  datatype Direction = Ascending | Descending

  datatype OrderField = ByCaseNumber | ByTitle | ByApplicant | ByStatus | ByCreatedAt | ByUpdatedAt

  function OrderFieldKey(f: OrderField): string {
    match f
    case ByCaseNumber => "caseNumber"
    case ByTitle => "title"
    case ByApplicant => "applicant"
    case ByStatus => "status"
    case ByCreatedAt => "createdAt"
    case ByUpdatedAt => "updatedAt"
  }

  datatype OrderBy = OrderBy(field: OrderField, direction: Direction)

  /** The sort keys the admin list accepts besides its default. */
  const AdminSortKeys: set<string> := {"caseNumber", "title", "applicant", "status", "createdAt"}
  /** The sort keys the client list accepts besides its default. */
  const ClientSortKeys: set<string> := {"title", "status"}

  /**
   * The sort the route must choose: ascending exactly when `sortOrder` is
   * "asc"; the field `sortBy` names when it is one of `keys`, `updatedAt`
   * otherwise (missing, empty or unknown).
   */
  predicate OrderChosen(o: OrderBy, params: seq<Entry>, keys: set<string>) {
    var sortBy := GetEntry(params, "sortBy");
    && (o.direction == Ascending <==> GetEntry(params, "sortOrder") == Some("asc"))
    && (if sortBy.Some? && sortBy.value in keys then OrderFieldKey(o.field) == sortBy.value else o.field == ByUpdatedAt)
  }

  /** The rule leaves no freedom: for the admin or the client keys, at most one `orderBy` satisfies it. */
  lemma OrderChosenUnique(o1: OrderBy, o2: OrderBy, params: seq<Entry>, keys: set<string>)
    requires keys <= AdminSortKeys
    requires OrderChosen(o1, params, keys) && OrderChosen(o2, params, keys)
    ensures o1 == o2
  {
    var sortBy := GetEntry(params, "sortBy");
    if sortBy.Some? && sortBy.value in keys {
      OrderFieldKeyInjective(o1.field, o2.field);
    }
  }

  lemma OrderFieldKeyInjective(f: OrderField, g: OrderField)
    requires OrderFieldKey(f) == OrderFieldKey(g)
    ensures f == g
  {
    match f
    case ByCaseNumber => assert OrderFieldKey(g)[0] == 'c' && OrderFieldKey(g)[1] == 'a';
    case ByTitle => assert OrderFieldKey(g)[0] == 't';
    case ByApplicant => assert OrderFieldKey(g)[0] == 'a';
    case ByStatus => assert OrderFieldKey(g)[0] == 's';
    case ByCreatedAt => assert OrderFieldKey(g)[0] == 'c' && OrderFieldKey(g)[1] == 'r';
    case ByUpdatedAt => assert OrderFieldKey(g)[0] == 'u';
  }

  /** `searchParams.get('sortBy') || 'updatedAt'` and `searchParams.get('sortOrder') || 'desc'`, then the direction. */
  method ReadSort(params: seq<Entry>) returns (sortBy: string, direction: Direction)
    ensures GetEntry(params, "sortBy").Some? && GetEntry(params, "sortBy").value != [] ==> sortBy == GetEntry(params, "sortBy").value
    ensures !(GetEntry(params, "sortBy").Some? && GetEntry(params, "sortBy").value != []) ==> sortBy == "updatedAt"
    ensures direction == Ascending <==> GetEntry(params, "sortOrder") == Some("asc")
  {
    var sortByParam := GetEntry(params, "sortBy");
    sortBy := if sortByParam.Some? && sortByParam.value != [] then sortByParam.value else "updatedAt";
    var sortOrderParam := GetEntry(params, "sortOrder");
    var sortOrder := if sortOrderParam.Some? && sortOrderParam.value != [] then sortOrderParam.value else "desc";
    direction := if sortOrder == "asc" then Ascending else Descending;
  }

  /** The `orderBy` if-chain of the admin list. */
  method AdminOrderBy(params: seq<Entry>) returns (orderBy: OrderBy)
    ensures OrderChosen(orderBy, params, AdminSortKeys)
  {
    var sortBy, direction := ReadSort(params);
    if sortBy == "caseNumber" {
      orderBy := OrderBy(ByCaseNumber, direction);
    } else if sortBy == "title" {
      orderBy := OrderBy(ByTitle, direction);
    } else if sortBy == "applicant" {
      orderBy := OrderBy(ByApplicant, direction);
    } else if sortBy == "status" {
      orderBy := OrderBy(ByStatus, direction);
    } else if sortBy == "createdAt" {
      orderBy := OrderBy(ByCreatedAt, direction);
    } else {
      orderBy := OrderBy(ByUpdatedAt, direction);
    }
  }

  /** The `orderBy` if-chain of the client list. */
  method ClientOrderBy(params: seq<Entry>) returns (orderBy: OrderBy)
    ensures OrderChosen(orderBy, params, ClientSortKeys)
  {
    var sortBy, direction := ReadSort(params);
    if sortBy == "title" {
      orderBy := OrderBy(ByTitle, direction);
    } else if sortBy == "status" {
      orderBy := OrderBy(ByStatus, direction);
    } else {
      orderBy := OrderBy(ByUpdatedAt, direction);
    }
  }

  /** A list response: an error status, or the selected cases, their count and the sort handed to the database. */
  datatype ListResponse = ListError(status: int) | ListOk(cases: seq<CaseRecord>, total: int, orderBy: OrderBy)

  /** `GET /api/admin/cases` */
  method AdminListCases(store: Store, session: Option<UserId>, params: seq<Entry>) returns (resp: ListResponse)
    ensures session.None? ==> resp == ListError(401)
    ensures session.Some? && !HasCaseAdminAccess(store.users, session.value) ==> resp == ListError(403)
    ensures session.Some? && HasCaseAdminAccess(store.users, session.value) ==>
      && resp.ListOk?
      && resp.cases == Select(store.cases, BuildWhere(None, params, NumberTitleApplicant))
      && resp.total == |resp.cases|
      && OrderChosen(resp.orderBy, params, AdminSortKeys)
  {
    if session.None? {
      return ListError(401);
    }
    if !HasCaseAdminAccess(store.users, session.value) {
      return ListError(403);
    }
    var where := BuildWhere(None, params, NumberTitleApplicant);
    var orderBy := AdminOrderBy(params);
    var cases := Select(store.cases, where);
    resp := ListOk(cases, |cases|, orderBy);
  }

  /** `GET /api/cases` */
  method ClientListCases(store: Store, session: Option<UserId>, params: seq<Entry>) returns (resp: ListResponse)
    ensures session.None? ==> resp == ListError(401)
    ensures session.Some? ==>
      && resp.ListOk?
      && resp.cases == Select(store.cases, BuildWhere(Some(session.value), params, NumberTitle))
      && resp.total == |resp.cases|
      && OrderChosen(resp.orderBy, params, ClientSortKeys)
  {
    if session.None? {
      return ListError(401);
    }
    var where := BuildWhere(Some(session.value), params, NumberTitle);
    var orderBy := ClientOrderBy(params);
    var cases := Select(store.cases, where);
    resp := ListOk(cases, |cases|, orderBy);
  }

  /** A case is listed exactly when it is in the store and satisfies the filter the query string builds. */
  lemma ListedIff(cases: seq<CaseRecord>, owner: Option<UserId>, params: seq<Entry>, scope: KeywordScope, c: CaseRecord)
    ensures c in Select(cases, BuildWhere(owner, params, scope)) <==> c in cases && PassesFilters(owner, params, scope, c)
  {
    MatchesBuildWhere(owner, params, scope, c);
  }

  /** The filters written out: not deleted, the owner, each active parameter; the classes filter keeps a case iff one of its classes equals a trimmed comma-separated entry. */
  predicate PassesFilters(owner: Option<UserId>, params: seq<Entry>, scope: KeywordScope, c: CaseRecord) {
    && !c.deleted
    && (owner.Some? ==> c.userId == owner.value)
    && (ActiveParam(params, "status").Some? ==> c.status == GetEntry(params, "status").value)
    && (ActiveParam(params, "trademarkType").Some? ==> c.trademarkType == GetEntry(params, "trademarkType").value)
    && (ActiveParam(params, "classes").Some? ==>
          exists i, j | 0 <= i < |c.classes| && 0 <= j < |Split(GetEntry(params, "classes").value, ',')| ::
            c.classes[i] == Trim(Split(GetEntry(params, "classes").value, ',')[j]))
    && (ActiveParam(params, "q").Some? ==>
          var q := GetEntry(params, "q").value;
          ContainsInsensitive(c.caseNumber, q) || ContainsInsensitive(c.title, q) || (scope == NumberTitleApplicant && ContainsInsensitive(c.applicant, q)))
  }

  lemma MatchesBuildWhere(owner: Option<UserId>, params: seq<Entry>, scope: KeywordScope, c: CaseRecord)
    ensures Matches(BuildWhere(owner, params, scope), c) <==> PassesFilters(owner, params, scope, c)
  {
    var w := BuildWhere(owner, params, scope);
    var classes := ActiveParam(params, "classes");
    if classes.Some? {
      var wanted := ClassList(classes.value);
      var parts := Split(GetEntry(params, "classes").value, ',');
      assert w.classes == Some(wanted);
      assert classes.value == GetEntry(params, "classes").value;
      if SharesClass(c.classes, wanted) {
        var i, j :| 0 <= i < |c.classes| && 0 <= j < |wanted| && c.classes[i] == wanted[j];
        assert c.classes[i] == Trim(parts[j]);
      }
      if exists i, j | 0 <= i < |c.classes| && 0 <= j < |parts| :: c.classes[i] == Trim(parts[j]) {
        var i, j :| 0 <= i < |c.classes| && 0 <= j < |parts| && c.classes[i] == Trim(parts[j]);
        assert c.classes[i] == wanted[j];
      }
    }
  }

  /** The client list never looks at the applicant: changing it does not change whether a case is listed. */
  lemma ClientKeywordIgnoresApplicant(owner: Option<UserId>, params: seq<Entry>, c: CaseRecord, applicant: string)
    ensures Matches(BuildWhere(owner, params, NumberTitle), c) == Matches(BuildWhere(owner, params, NumberTitle), c.(applicant := applicant))
  {
  }

  /** With the same query string, every case in a client's list is in the admin list too. */
  lemma ClientListWithinAdminList(cases: seq<CaseRecord>, userId: UserId, params: seq<Entry>)
    ensures forall c | c in Select(cases, BuildWhere(Some(userId), params, NumberTitle)) ::
      c in Select(cases, BuildWhere(None, params, NumberTitleApplicant))
  {
    var wc, wa := BuildWhere(Some(userId), params, NumberTitle), BuildWhere(None, params, NumberTitleApplicant);
    forall c | c in Select(cases, wc)
      ensures c in Select(cases, wa)
    {
      assert Matches(wc, c);
      assert Matches(wa, c);
    }
  }

  /** The client list holds only the caller's non-deleted cases, and with no filter all of them. */
  lemma ClientListIsOwnCases(cases: seq<CaseRecord>, userId: UserId, params: seq<Entry>)
    ensures forall c | c in Select(cases, BuildWhere(Some(userId), params, NumberTitle)) :: c.userId == userId && !c.deleted
    ensures (forall n | n in ["status", "trademarkType", "classes", "q"] :: ActiveParam(params, n).None?) ==>
      forall c | c in cases && c.userId == userId && !c.deleted :: c in Select(cases, BuildWhere(Some(userId), params, NumberTitle))
  {
    var w := BuildWhere(Some(userId), params, NumberTitle);
    assert w.owner == Some(userId);
    if forall n | n in ["status", "trademarkType", "classes", "q"] :: ActiveParam(params, n).None? {
      assert ActiveParam(params, "status").None? && ActiveParam(params, "trademarkType").None?;
      assert ActiveParam(params, "classes").None? && ActiveParam(params, "q").None?;
      assert w == CaseWhere(Some(userId), None, None, None, None, NumberTitle);
    }
  }
}

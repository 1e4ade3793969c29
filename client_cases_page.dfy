/**
 * The client case list page (src/app/client/cases/page.tsx): the sort-header
 * toggle and the query string sent to `GET /api/cases`.
 */
module ClientCasesPage {
  import opened Text
  import opened UrlParams

  datatype SortField = Title | StatusField | UpdatedAt
  datatype SortDirection = Asc | Desc
  datatype SortState = SortState(field: Option<SortField>, direction: SortDirection)

  function FieldName(f: SortField): string {
    match f
    case Title => "title"
    case StatusField => "status"
    case UpdatedAt => "updatedAt"
  }

  function DirectionName(d: SortDirection): string {
    match d
    case Asc => "asc"
    case Desc => "desc"
  }

  function Flip(d: SortDirection): (r: SortDirection)
    ensures r != d
  {
    if d == Asc then Desc else Asc
  }

  /** The initial sort: by `updatedAt`, descending. */
  const InitialSort := SortState(Some(UpdatedAt), Desc)

  /** `handleSort(field)`: clicking the current column flips the direction, another column sorts by it ascending. */
  function HandleSort(s: SortState, field: SortField): (r: SortState)
    ensures r.field == Some(field)
    ensures s.field == Some(field) ==> r.direction != s.direction
    ensures s.field != Some(field) ==> r.direction == Asc
  {
    if s.field == Some(field) then s.(direction := Flip(s.direction))
    else SortState(Some(field), Asc)
  }

  /** Clicking the same column twice restores the sort it started from, once that column is the sort column. */
  lemma SortTwiceRestores(s: SortState, field: SortField)
    requires s.field == Some(field)
    ensures HandleSort(HandleSort(s, field), field) == s
  {
  }

  /** A click never clears the sort column, so every reachable state has one. */
  lemma SortAlwaysSet(s: SortState, field: SortField)
    ensures HandleSort(s, field).field.Some?
  {
  }

  /** The filter state of the page. */
  datatype Filters = Filters(
    stageFilter: string,
    markTypeFilter: string,   // "all", "TEXT" or "LOGO"
    classFilter: string,
    searchQuery: string,
    sort: SortState)

  function StatusPart(f: Filters): seq<Entry> {
    if f.stageFilter != "all" then [("status", f.stageFilter)] else []
  }

  function TypePart(f: Filters): seq<Entry> {
    if f.markTypeFilter != "all" then [("trademarkType", f.markTypeFilter)] else []
  }

  function ClassesPart(f: Filters): seq<Entry> {
    if f.classFilter != "" then [("classes", f.classFilter)] else []
  }

  function KeywordPart(f: Filters): seq<Entry> {
    if f.searchQuery != "" then [("q", f.searchQuery)] else []
  }

  function SortPart(f: Filters): seq<Entry> {
    if f.sort.field.Some? then [("sortBy", FieldName(f.sort.field.value)), ("sortOrder", DirectionName(f.sort.direction))] else []
  }

  /** The pairs of the query, in the order the page sets them. */
  function CasesQuery(f: Filters): seq<Entry> {
    StatusPart(f) + TypePart(f) + ClassesPart(f) + KeywordPart(f) + SortPart(f)
  }

  predicate NoName(entries: seq<Entry>, name: string) {
    forall i | 0 <= i < |entries| :: entries[i].0 != name
  }

  /** No part of the query repeats a name set by a later part. */
  lemma PartsNamesDistinct(f: Filters)
    ensures NoName(StatusPart(f), "trademarkType")
    ensures NoName(StatusPart(f) + TypePart(f), "classes")
    ensures NoName(StatusPart(f) + TypePart(f) + ClassesPart(f), "q")
    ensures NoName(StatusPart(f) + TypePart(f) + ClassesPart(f) + KeywordPart(f), "sortBy")
    ensures f.sort.field.Some? ==> NoName(StatusPart(f) + TypePart(f) + ClassesPart(f) + KeywordPart(f) + [("sortBy", FieldName(f.sort.field.value))], "sortOrder")
  {
  }

  /** The query-building part of `fetchCases`: successive `params.set` calls on a fresh object. */
  method BuildCasesQuery(f: Filters) returns (params: SearchParams)
    ensures fresh(params)
    ensures params.entries == CasesQuery(f)
  {
    PartsNamesDistinct(f);
    params := new SearchParams();
    if f.stageFilter != "all" {
      params.Set("status", f.stageFilter);
    }
    assert params.entries == StatusPart(f);
    if f.markTypeFilter != "all" {
      SetNew(params, "trademarkType", f.markTypeFilter);
    }
    assert params.entries == StatusPart(f) + TypePart(f);
    if f.classFilter != "" {
      SetNew(params, "classes", f.classFilter);
    }
    assert params.entries == StatusPart(f) + TypePart(f) + ClassesPart(f);
    if f.searchQuery != "" {
      SetNew(params, "q", f.searchQuery);
    }
    assert params.entries == StatusPart(f) + TypePart(f) + ClassesPart(f) + KeywordPart(f);
    if f.sort.field.Some? {
      SetNew(params, "sortBy", FieldName(f.sort.field.value));
      SetNew(params, "sortOrder", DirectionName(f.sort.direction));
    }
  }

  /** `params.set` of a name the query does not hold yet appends the pair. */
  method SetNew(params: SearchParams, name: string, value: string)
    requires NoName(params.entries, name)
    modifies params
    ensures params.entries == old(params.entries) + [(name, value)]
  {
    SetAppends(params.entries, name, value);
    params.Set(name, value);
  }

  lemma StatusPartLookup(f: Filters, name: string)
    ensures GetEntry(StatusPart(f), name) == if name == "status" && f.stageFilter != "all" then Some(f.stageFilter) else None
  {
    GetEntrySingle("status", f.stageFilter, name);
  }

  lemma TypePartLookup(f: Filters, name: string)
    ensures GetEntry(TypePart(f), name) == if name == "trademarkType" && f.markTypeFilter != "all" then Some(f.markTypeFilter) else None
  {
    GetEntrySingle("trademarkType", f.markTypeFilter, name);
  }

  lemma ClassesPartLookup(f: Filters, name: string)
    ensures GetEntry(ClassesPart(f), name) == if name == "classes" && f.classFilter != "" then Some(f.classFilter) else None
  {
    GetEntrySingle("classes", f.classFilter, name);
  }

  lemma KeywordPartLookup(f: Filters, name: string)
    ensures GetEntry(KeywordPart(f), name) == if name == "q" && f.searchQuery != "" then Some(f.searchQuery) else None
  {
    GetEntrySingle("q", f.searchQuery, name);
  }

  lemma SortPartLookup(f: Filters, name: string)
    requires f.sort.field.Some?
    ensures GetEntry(SortPart(f), "sortBy") == Some(FieldName(f.sort.field.value))
    ensures GetEntry(SortPart(f), "sortOrder") == Some(DirectionName(f.sort.direction))
    ensures name != "sortBy" && name != "sortOrder" ==> GetEntry(SortPart(f), name) == None
  {
    var byPair, orderPair := ("sortBy", FieldName(f.sort.field.value)), ("sortOrder", DirectionName(f.sort.direction));
    assert SortPart(f) == [byPair] + [orderPair];
    GetEntryAppend([byPair], [orderPair], name);
    GetEntrySingle(byPair.0, byPair.1, name);
    GetEntrySingle(orderPair.0, orderPair.1, name);
    GetEntryAppend([byPair], [orderPair], "sortBy");
    GetEntrySingle(byPair.0, byPair.1, "sortBy");
    GetEntryAppend([byPair], [orderPair], "sortOrder");
    GetEntrySingle(byPair.0, byPair.1, "sortOrder");
    GetEntrySingle(orderPair.0, orderPair.1, "sortOrder");
  }

  function FirstOf(x: Option<string>, y: Option<string>): Option<string> {
    if x.Some? then x else y
  }

  /** `get` on the query looks through the five parts in order. */
  lemma QueryLookup(f: Filters, name: string)
    ensures GetEntry(CasesQuery(f), name)
      == FirstOf(GetEntry(StatusPart(f), name), FirstOf(GetEntry(TypePart(f), name),
           FirstOf(GetEntry(ClassesPart(f), name), FirstOf(GetEntry(KeywordPart(f), name), GetEntry(SortPart(f), name)))))
  {
    var a, b, c, d, e := StatusPart(f), TypePart(f), ClassesPart(f), KeywordPart(f), SortPart(f);
    assert CasesQuery(f) == a + (b + (c + (d + e)));
    GetEntryAppend(d, e, name);
    GetEntryAppend(c, d + e, name);
    GetEntryAppend(b, c + (d + e), name);
    GetEntryAppend(a, b + (c + (d + e)), name);
  }

  lemma LookupParts(f: Filters, name: string)
    ensures GetEntry(CasesQuery(f), name)
      == FirstOf(GetEntry(StatusPart(f), name), FirstOf(GetEntry(TypePart(f), name),
           FirstOf(GetEntry(ClassesPart(f), name), FirstOf(GetEntry(KeywordPart(f), name), GetEntry(SortPart(f), name)))))
    ensures GetEntry(StatusPart(f), name) == if name == "status" && f.stageFilter != "all" then Some(f.stageFilter) else None
    ensures GetEntry(TypePart(f), name) == if name == "trademarkType" && f.markTypeFilter != "all" then Some(f.markTypeFilter) else None
    ensures GetEntry(ClassesPart(f), name) == if name == "classes" && f.classFilter != "" then Some(f.classFilter) else None
    ensures GetEntry(KeywordPart(f), name) == if name == "q" && f.searchQuery != "" then Some(f.searchQuery) else None
    ensures f.sort.field.None? ==> GetEntry(SortPart(f), name) == None
    ensures f.sort.field.Some? ==> GetEntry(SortPart(f), "sortBy") == Some(FieldName(f.sort.field.value))
    ensures f.sort.field.Some? ==> GetEntry(SortPart(f), "sortOrder") == Some(DirectionName(f.sort.direction))
    ensures f.sort.field.Some? && name != "sortBy" && name != "sortOrder" ==> GetEntry(SortPart(f), name) == None
  {
    QueryLookup(f, name);
    StatusPartLookup(f, name);
    TypePartLookup(f, name);
    ClassesPartLookup(f, name);
    KeywordPartLookup(f, name);
    if f.sort.field.Some? {
      SortPartLookup(f, name);
    }
  }

  /** Each parameter is present exactly when its filter is active, and then carries the filter's value. */
  lemma CasesQueryParams(f: Filters)
    ensures GetEntry(CasesQuery(f), "status") == (if f.stageFilter != "all" then Some(f.stageFilter) else None)
    ensures GetEntry(CasesQuery(f), "trademarkType") == (if f.markTypeFilter != "all" then Some(f.markTypeFilter) else None)
    ensures GetEntry(CasesQuery(f), "classes") == (if f.classFilter != "" then Some(f.classFilter) else None)
    ensures GetEntry(CasesQuery(f), "q") == (if f.searchQuery != "" then Some(f.searchQuery) else None)
    ensures GetEntry(CasesQuery(f), "sortBy") == (if f.sort.field.Some? then Some(FieldName(f.sort.field.value)) else None)
    ensures GetEntry(CasesQuery(f), "sortOrder") == (if f.sort.field.Some? then Some(DirectionName(f.sort.direction)) else None)
  {
    LookupParts(f, "status");
    LookupParts(f, "trademarkType");
    LookupParts(f, "classes");
    LookupParts(f, "q");
    LookupParts(f, "sortBy");
    LookupParts(f, "sortOrder");
  }
}

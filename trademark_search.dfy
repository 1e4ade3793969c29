/**
 * The trademark-search form: whether a search may start, the query string
 * its submit handler builds, and the updaters behind the class chips, the
 * detail toggles and the confirm button of the class dialog.
 */
module TrademarkSearch {
  import opened Text
  import opened UrlParams
  import opened ClassSelections
  import opened ConsultationRoute

  /** The two kinds of mark the form offers. */
  datatype MarkType = TextMark | LogoMark

  function MarkTypeName(t: MarkType): string {
    match t
    case TextMark => "文字商標"
    case LogoMark => "ロゴ・図形商標"
  }

  /** Whether a logo contains text. */
  datatype LogoText = WithText | WithoutText

  function LogoTextName(l: LogoText): string {
    match l
    case WithText => "あり"
    case WithoutText => "なし"
  }

  /**
   * `TrademarkSearchFormData`. An optional string that is undefined is held
   * as "" and undefined selections as []: the form only ever tests them for
   * truthiness or length, where the two agree.
   */
  datatype SearchForm = SearchForm(
    trademarkType: MarkType,
    trademarkText: string,
    trademarkReading: string,
    trademarkImage: string,
    logoHasText: Option<LogoText>,
    classCategory: string,
    classCategoryDetail: string,
    productService: string,
    classSelections: seq<ClassSelection>)

  /** `hasTrademarkInput`: text marks and logos with text need non-blank text, other logos an image. */
  predicate HasTrademarkInput(f: SearchForm) {
    if f.trademarkType == TextMark || f.logoHasText == Some(WithText) then !IsBlank(f.trademarkText)
    else f.trademarkImage != ""
  }

  /** `canSearch` */
  predicate CanSearch(f: SearchForm) {
    HasTrademarkInput(f) && |f.classSelections| > 0
  }

  // ---------------------------------------------------------------------
  // The query string of handleSubmit

  /** One `params.set` of the handler: the parameter name and the value, when the guard lets it through. */
  datatype Slot = Slot(name: string, value: Option<string>)

  /** The pairs the first k guarded `set` calls leave in a fresh object, when the names differ. */
  function Emit(slots: seq<Slot>, k: nat): (r: seq<Entry>)
    requires k <= |slots|
    ensures |r| <= k
    decreases k
  {
    if k == 0 then []
    else
      var last := slots[k - 1];
      var r := Emit(slots, k - 1);
      if last.value.Some? then r + [(last.name, last.value.value)] else r
  }

  predicate DistinctNames(slots: seq<Slot>) {
    forall i, j | 0 <= i < j < |slots| :: slots[i].name != slots[j].name
  }

  /** Every emitted pair is named after one of the slots it came from. */
  lemma {:induction false} EmitNames(slots: seq<Slot>, k: nat, i: nat)
    requires k <= |slots| && i < |Emit(slots, k)|
    ensures exists j | 0 <= j < k :: slots[j].name == Emit(slots, k)[i].0
    decreases k
  {
    if i < |Emit(slots, k - 1)| {
      EmitNames(slots, k - 1, i);
    } else {
      assert slots[k - 1].name == Emit(slots, k)[i].0;
    }
  }

  /** Before the call for slot k, no pair carries its name, so `set` appends. */
  lemma EmitFresh(slots: seq<Slot>, k: nat)
    requires DistinctNames(slots) && k < |slots|
    ensures forall i | 0 <= i < |Emit(slots, k)| :: Emit(slots, k)[i].0 != slots[k].name
  {
    forall i | 0 <= i < |Emit(slots, k)|
      ensures Emit(slots, k)[i].0 != slots[k].name
    {
      EmitNames(slots, k, i);
    }
  }

  /** `get` on the emitted pairs finds each slot's value. */
  lemma {:induction false} EmitLookup(slots: seq<Slot>, k: nat, i: nat)
    requires DistinctNames(slots) && i < k <= |slots|
    ensures GetEntry(Emit(slots, k), slots[i].name) == slots[i].value
    decreases k
  {
    var n := k - 1;
    var last := slots[n];
    var tail: seq<Entry> := if last.value.Some? then [(last.name, last.value.value)] else [];
    assert Emit(slots, k) == Emit(slots, n) + tail;
    GetEntryAppend(Emit(slots, n), tail, slots[i].name);
    if i == n {
      EmitFresh(slots, n);
      GetEntryNone(Emit(slots, n), last.name);
      if last.value.Some? {
        GetEntrySingle(last.name, last.value.value, slots[i].name);
      }
    } else {
      EmitLookup(slots, n, i);
      if last.value.Some? {
        GetEntrySingle(last.name, last.value.value, slots[i].name);
      }
    }
  }

  /** A name no slot uses is not in the emitted pairs. */
  lemma EmitAbsent(slots: seq<Slot>, k: nat, name: string)
    requires k <= |slots|
    requires forall i | 0 <= i < |slots| :: slots[i].name != name
    ensures GetEntry(Emit(slots, k), name) == None
  {
    forall i | 0 <= i < |Emit(slots, k)|
      ensures Emit(slots, k)[i].0 != name
    {
      EmitNames(slots, k, i);
    }
    GetEntryNone(Emit(slots, k), name);
  }

  lemma {:induction false} GetEntryNone(entries: seq<Entry>, name: string)
    requires forall i | 0 <= i < |entries| :: entries[i].0 != name
    ensures GetEntry(entries, name) == None
    decreases |entries|
  {
    if entries != [] {
      GetEntryNone(entries[1..], name);
    }
  }

  /** The value of a string field when it is truthy. */
  function Present(value: string): (r: Option<string>)
    ensures r.Some? <==> value != []
    ensures r.Some? ==> r.value == value
  {
    if value != "" then Some(value) else None
  }

  /** The class codes of the selections, in order. */
  function ClassCodes(selections: seq<ClassSelection>): (r: seq<string>)
    ensures |r| == |selections|
    ensures forall i | 0 <= i < |r| :: r[i] == selections[i].classCode
  {
    seq(|selections|, i requires 0 <= i < |selections| => selections[i].classCode)
  }

  /** `selected_simgroup_ids`: the class codes joined with commas. */
  function ClassIds(selections: seq<ClassSelection>): string {
    Join(ClassCodes(selections), ',')
  }

  const ParamNames: seq<string> := [
    "standard_character", "yomi", "type", "logo_has_text", "selected_simgroup_ids",
    "class_category", "class_category_detail", "product_service", "trademark_image",
    "consultation_route"]

  /** The ten guarded `set` calls of `handleSubmit`, in order. */
  function SearchSlots(f: SearchForm, route: UiConsultationRoute): (r: seq<Slot>)
    ensures |r| == 10 && forall i | 0 <= i < 10 :: r[i].name == ParamNames[i]
  {
    [ Slot("standard_character", Present(f.trademarkText)),
      Slot("yomi", Present(f.trademarkReading)),
      Slot("type", Present(MarkTypeName(f.trademarkType))),
      Slot("logo_has_text", if f.logoHasText.Some? then Some(LogoTextName(f.logoHasText.value)) else None),
      Slot("selected_simgroup_ids", if |f.classSelections| > 0 then Some(ClassIds(f.classSelections)) else None),
      Slot("class_category", Present(f.classCategory)),
      Slot("class_category_detail", Present(f.classCategoryDetail)),
      Slot("product_service", Present(f.productService)),
      Slot("trademark_image", if f.trademarkType == LogoMark && f.trademarkImage != "" then Some(f.trademarkImage) else None),
      Slot("consultation_route", if route == AttorneyConsultation then Some(RouteName(route)) else None) ]
  }

  lemma ParamNamesDistinct()
    ensures forall i, j | 0 <= i < j < |ParamNames| :: ParamNames[i] != ParamNames[j]
    ensures forall f, route :: DistinctNames(SearchSlots(f, route))
  {
  }

  /** The pairs of the query string the handler submits. */
  function SearchQuery(f: SearchForm, route: UiConsultationRoute): seq<Entry> {
    Emit(SearchSlots(f, route), 10)
  }

  /**
   * `handleSubmit`: the ten guarded `params.set` calls on a fresh
   * `URLSearchParams`, in the order of `SearchSlots`, whose entries carry
   * each call's guard and value.
   */
  method HandleSubmit(f: SearchForm, consultationRoute: UiConsultationRoute) returns (params: SearchParams)
    ensures fresh(params)
    ensures params.entries == SearchQuery(f, consultationRoute)
  {
    var slots := SearchSlots(f, consultationRoute);
    assert DistinctNames(slots) by {
      ParamNamesDistinct();
    }
    params := new SearchParams();
    SetMarkSlots(params, slots);
    SetDetailSlots(params, slots);
  }

  /** The mark's parameters: text, reading, type, logo answer and classes. */
  method SetMarkSlots(params: SearchParams, slots: seq<Slot>)
    requires DistinctNames(slots) && |slots| == 10
    requires params.entries == []
    modifies params
    ensures params.entries == Emit(slots, 5)
  {
    assert Emit(slots, 0) == [];
    SetSlot(params, slots, 0);  // standard_character
    SetSlot(params, slots, 1);  // yomi
    SetSlot(params, slots, 2);  // type
    SetSlot(params, slots, 3);  // logo_has_text
    SetSlot(params, slots, 4);  // selected_simgroup_ids
  }

  /** The remaining parameters: class details, product, image and route. */
  method SetDetailSlots(params: SearchParams, slots: seq<Slot>)
    requires DistinctNames(slots) && |slots| == 10
    requires params.entries == Emit(slots, 5)
    modifies params
    ensures params.entries == Emit(slots, 10)
  {
    SetSlot(params, slots, 5);  // class_category
    SetSlot(params, slots, 6);  // class_category_detail
    SetSlot(params, slots, 7);  // product_service
    SetSlot(params, slots, 8);  // trademark_image
    SetSlot(params, slots, 9);  // consultation_route
  }

  /** One guarded `params.set(name, value)`: the value is set when the guard holds. */
  method SetSlot(params: SearchParams, slots: seq<Slot>, k: nat)
    requires DistinctNames(slots) && k < |slots|
    requires params.entries == Emit(slots, k)
    modifies params
    ensures params.entries == Emit(slots, k + 1)
  {
    EmitFresh(slots, k);
    if slots[k].value.Some? {
      SetAppends(params.entries, slots[k].name, slots[k].value.value);
      params.Set(slots[k].name, slots[k].value.value);
    }
  }

  /**
   * Each parameter of the query is present exactly when its field is truthy
   * and then carries the field; the image only travels with a logo and the
   * route only when it is the attorney consultation.
   */
  lemma SearchQueryParams(f: SearchForm, route: UiConsultationRoute)
    ensures GetEntry(SearchQuery(f, route), "standard_character") == Present(f.trademarkText)
    ensures GetEntry(SearchQuery(f, route), "yomi") == Present(f.trademarkReading)
    ensures GetEntry(SearchQuery(f, route), "type") == Some(MarkTypeName(f.trademarkType))
    ensures GetEntry(SearchQuery(f, route), "logo_has_text") == if f.logoHasText.Some? then Some(LogoTextName(f.logoHasText.value)) else None
    ensures GetEntry(SearchQuery(f, route), "selected_simgroup_ids") == if |f.classSelections| > 0 then Some(ClassIds(f.classSelections)) else None
    ensures GetEntry(SearchQuery(f, route), "class_category") == Present(f.classCategory)
    ensures GetEntry(SearchQuery(f, route), "class_category_detail") == Present(f.classCategoryDetail)
    ensures GetEntry(SearchQuery(f, route), "product_service") == Present(f.productService)
    ensures GetEntry(SearchQuery(f, route), "trademark_image") == if f.trademarkType == LogoMark && f.trademarkImage != "" then Some(f.trademarkImage) else None
    ensures GetEntry(SearchQuery(f, route), "consultation_route") == if route == AttorneyConsultation then Some("attorney_consultation") else None
  {
    var slots := SearchSlots(f, route);
    ParamNamesDistinct();
    assert DistinctNames(slots);
    EmitLookup(slots, 10, 0);
    EmitLookup(slots, 10, 1);
    EmitLookup(slots, 10, 2);
    EmitLookup(slots, 10, 3);
    EmitLookup(slots, 10, 4);
    EmitLookup(slots, 10, 5);
    EmitLookup(slots, 10, 6);
    EmitLookup(slots, 10, 7);
    EmitLookup(slots, 10, 8);
    EmitLookup(slots, 10, 9);
  }

  /**
   * A form that may be searched submits its classes and its mark: the text
   * for a text mark or a logo with text, the image for any other logo.
   */
  lemma SearchableQueryCarriesMark(f: SearchForm, route: UiConsultationRoute)
    requires CanSearch(f)
    ensures GetEntry(SearchQuery(f, route), "selected_simgroup_ids") == Some(ClassIds(f.classSelections))
    ensures f.trademarkType == TextMark || f.logoHasText == Some(WithText) ==>
      GetEntry(SearchQuery(f, route), "standard_character") == Some(f.trademarkText)
    ensures !(f.trademarkType == TextMark || f.logoHasText == Some(WithText)) ==>
      GetEntry(SearchQuery(f, route), "trademark_image") == Some(f.trademarkImage)
  {
    SearchQueryParams(f, route);
    if f.trademarkType == TextMark || f.logoHasText == Some(WithText) {
      assert f.trademarkText != [] by {
        assert IsBlank([]);
      }
    }
  }

  /** The query has no parameter besides the ten the handler sets. */
  lemma SearchQueryOnlyKnownNames(f: SearchForm, route: UiConsultationRoute, name: string)
    requires name !in ParamNames
    ensures GetEntry(SearchQuery(f, route), name) == None
  {
    var slots := SearchSlots(f, route);
    assert forall i | 0 <= i < |slots| :: slots[i].name != name by {
      forall i | 0 <= i < |slots|
        ensures slots[i].name != name
      {
        assert ParamNames[i] in ParamNames;
      }
    }
    EmitAbsent(slots, 10, name);
  }

  // ---------------------------------------------------------------------
  // Class chips and the class dialog

  /** The chip's remove button: `selections.filter((s) => s.classCode !== classCode)`. */
  function RemoveClass(selections: seq<ClassSelection>, classCode: string): (r: seq<ClassSelection>)
    ensures |r| <= |selections|
    ensures forall i | 0 <= i < |r| :: r[i].classCode != classCode
    ensures forall s :: s in r <==> s in selections && s.classCode != classCode
    decreases |selections|
  {
    if selections == [] then []
    else
      var rest := RemoveClass(selections[1..], classCode);
      assert forall s :: s in selections <==> s == selections[0] || s in selections[1..];
      if selections[0].classCode == classCode then rest else [selections[0]] + rest
  }

  /** Removal keeps the order of the remaining selections: it distributes over concatenation. */
  lemma {:induction false} RemoveClassAppend(a: seq<ClassSelection>, b: seq<ClassSelection>, classCode: string)
    ensures RemoveClass(a + b, classCode) == RemoveClass(a, classCode) + RemoveClass(b, classCode)
    decreases |a|
  {
    if a == [] {
      assert a + b == b;
    } else {
      assert (a + b)[1..] == a[1..] + b;
      RemoveClassAppend(a[1..], b, classCode);
    }
  }

  /** Removing a class that is not selected changes nothing. */
  lemma {:induction false} RemoveAbsentClass(selections: seq<ClassSelection>, classCode: string)
    requires forall i | 0 <= i < |selections| :: selections[i].classCode != classCode
    ensures RemoveClass(selections, classCode) == selections
    decreases |selections|
  {
    if selections != [] {
      RemoveAbsentClass(selections[1..], classCode);
    }
  }

  /** Removing a class undoes confirming it: the other selections are as before. */
  lemma {:induction false} RemoveUndoesUpsert(selections: seq<ClassSelection>, classCode: string, details: seq<string>)
    ensures RemoveClass(UpsertClassSelection(selections, classCode, details), classCode) == RemoveClass(selections, classCode)
    decreases |selections|
  {
    if selections == [] {
      assert UpsertClassSelection(selections, classCode, details) == [ClassSelection(classCode, details)];
      assert [ClassSelection(classCode, details)][1..] == [];
    } else if selections[0].classCode == classCode {
      var up := UpsertClassSelection(selections, classCode, details);
      assert up[1..] == selections[1..];
    } else {
      var up := UpsertClassSelection(selections, classCode, details);
      var upRest := UpsertClassSelection(selections[1..], classCode, details);
      assert up == [selections[0]] + upRest by {
        UpsertShift(selections, classCode, details);
      }
      assert up[1..] == upRest;
      RemoveUndoesUpsert(selections[1..], classCode, details);
    }
  }

  /** Upserting past a first selection of another class upserts into the rest. */
  lemma UpsertShift(selections: seq<ClassSelection>, classCode: string, details: seq<string>)
    requires selections != [] && selections[0].classCode != classCode
    ensures UpsertClassSelection(selections, classCode, details)
      == [selections[0]] + UpsertClassSelection(selections[1..], classCode, details)
  {
    var k := FindIndex(selections[1..], classCode);
    assert FindIndex(selections, classCode) == if k == -1 then -1 else k + 1;
    if k == -1 {
      assert selections == [selections[0]] + selections[1..];
    } else {
      var item := ClassSelection(classCode, details);
      assert selections[k + 1 := item] == [selections[0]] + selections[1..][k := item];
    }
  }

  /** A detail button: remove every copy of the detail when it is picked, append it otherwise. */
  function ToggleDetail(picked: seq<string>, detail: string): (r: seq<string>)
    ensures detail in r <==> detail !in picked
    ensures forall x | x != detail :: x in r <==> x in picked
  {
    if detail in picked then WithoutDetail(picked, detail) else picked + [detail]
  }

  /** `picked.filter((item) => item !== detail)` */
  function WithoutDetail(picked: seq<string>, detail: string): (r: seq<string>)
    ensures |r| <= |picked|
    ensures forall x :: x in r <==> x in picked && x != detail
    decreases |picked|
  {
    if picked == [] then []
    else
      var rest := WithoutDetail(picked[1..], detail);
      assert forall x :: x in picked <==> x == picked[0] || x in picked[1..];
      if picked[0] == detail then rest else [picked[0]] + rest
  }

  lemma {:induction false} WithoutAbsentDetail(picked: seq<string>, detail: string)
    requires detail !in picked
    ensures WithoutDetail(picked, detail) == picked
    decreases |picked|
  {
    if picked != [] {
      WithoutAbsentDetail(picked[1..], detail);
    }
  }

  /** Toggling a detail that is not picked, then toggling it again, restores the picks. */
  lemma ToggleTwiceRestores(picked: seq<string>, detail: string)
    requires detail !in picked
    ensures ToggleDetail(ToggleDetail(picked, detail), detail) == picked
  {
    var once := picked + [detail];
    assert detail in once;
    WithoutAppend(picked, [detail], detail);
    WithoutAbsentDetail(picked, detail);
    assert WithoutDetail([detail], detail) == [];
  }

  lemma {:induction false} WithoutAppend(a: seq<string>, b: seq<string>, detail: string)
    ensures WithoutDetail(a + b, detail) == WithoutDetail(a, detail) + WithoutDetail(b, detail)
    decreases |a|
  {
    if a == [] {
      assert a + b == b;
    } else {
      assert (a + b)[1..] == a[1..] + b;
      WithoutAppend(a[1..], b, detail);
    }
  }

  /** The confirm button: without a current class nothing happens; otherwise the sanitised picks are upserted. */
  function ConfirmSelection(selections: seq<ClassSelection>, currentClassCode: string, picked: seq<string>): seq<ClassSelection> {
    if currentClassCode == "" then selections
    else UpsertClassSelection(selections, currentClassCode, SanitizeClassDetails(picked))
  }

  /**
   * After a confirm the current class is selected with exactly the non-blank
   * picks, every other class keeps its selection, and the codes stay distinct.
   */
  lemma ConfirmSelectionSpec(selections: seq<ClassSelection>, currentClassCode: string, picked: seq<string>)
    requires currentClassCode != ""
    requires DistinctCodes(selections)
    ensures var r := ConfirmSelection(selections, currentClassCode, picked);
      && ClassSelection(currentClassCode, SanitizeClassDetails(picked)) in r
      && (forall s | s in selections && s.classCode != currentClassCode :: s in r)
      && (forall i | 0 <= i < |r| && r[i].classCode == currentClassCode :: forall d | d in r[i].details :: d in picked && !IsBlank(d))
      && DistinctCodes(r)
  {
    var details := SanitizeClassDetails(picked);
    var r := UpsertClassSelection(selections, currentClassCode, details);
    UpsertHasEntry(selections, currentClassCode, details);
    UpsertKeepsDistinct(selections, currentClassCode, details);
    forall i | 0 <= i < |r| && r[i].classCode == currentClassCode
      ensures forall d | d in r[i].details :: d in picked && !IsBlank(d)
    {
      assert r[i] in r;
    }
  }

  /** Confirming without a current class leaves the selections alone. */
  lemma ConfirmWithoutClass(selections: seq<ClassSelection>, picked: seq<string>)
    ensures ConfirmSelection(selections, "", picked) == selections
  {
  }
}

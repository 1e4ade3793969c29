/**
 * The new-case page of the client area: it reads the search form's query
 * string back into a prefill, checks the applicant form, and builds the
 * request that stores the applicant, the intake record and the status the
 * chosen consultation route implies.
 */
module NewCasePage {
  import opened Text
  import opened UrlParams
  import opened ClassSelections
  import opened ConsultationRoute
  import opened TrademarkSearch
  import CaseStatus

  // ---------------------------------------------------------------------
  // Reading the query string

  /** `searchParams.get(name) ?? ''` */
  function ParamOrEmpty(entries: seq<Entry>, name: string): string {
    match GetEntry(entries, name)
    case Some(v) => v
    case None => ""
  }

  /** `readUnion`: the value when it is a string among the candidates, the fallback otherwise. */
  function ReadUnion(value: Option<string>, candidates: seq<string>, fallback: string): string {
    if value.Some? && value.value in candidates then value.value else fallback
  }

  /** The result is a candidate or the fallback, and reading it again gives it back. */
  lemma ReadUnionStable(value: Option<string>, candidates: seq<string>, fallback: string)
    requires fallback in candidates
    ensures ReadUnion(value, candidates, fallback) in candidates
    ensures ReadUnion(Some(ReadUnion(value, candidates, fallback)), candidates, fallback) == ReadUnion(value, candidates, fallback)
    ensures value.Some? && value.value in candidates ==> ReadUnion(value, candidates, fallback) == value.value
    ensures ReadUnion(value, candidates, fallback) != fallback ==> value == Some(ReadUnion(value, candidates, fallback))
  {
  }

  const TrademarkTypeOptions: seq<string> := ["文字商標", "ロゴ・図形商標"]
  const LogoTextOptions: seq<string> := ["あり", "なし"]

  /** `parts.map((v) => v.trim())` */
  function TrimAll(parts: seq<string>): (r: seq<string>)
    ensures |r| == |parts|
    ensures forall i | 0 <= i < |r| :: r[i] == Trim(parts[i])
  {
    seq(|parts|, i requires 0 <= i < |parts| => Trim(parts[i]))
  }

  /** `parts.filter((v) => v.length > 0)` */
  function NonEmptyOnly(parts: seq<string>): (r: seq<string>)
    ensures |r| <= |parts|
    ensures forall i | 0 <= i < |r| :: r[i] != []
    ensures forall x :: x in r <==> x in parts && x != []
    decreases |parts|
  {
    if parts == [] then []
    else
      var rest := NonEmptyOnly(parts[1..]);
      assert forall x :: x in parts <==> x == parts[0] || x in parts[1..];
      if parts[0] != [] then [parts[0]] + rest else rest
  }

  /** The class list of the prefill: split on commas, trimmed, empties dropped. */
  function DecodeClasses(param: string): (r: seq<string>)
    ensures forall i | 0 <= i < |r| :: r[i] != [] && ',' !in r[i]
  {
    var parts := Split(param, ',');
    var trimmed := TrimAll(parts);
    assert forall x | x in trimmed :: ',' !in x by {
      forall i | 0 <= i < |trimmed|
        ensures ',' !in trimmed[i]
      {
        TrimKeepsOut(parts[i], ',');
      }
    }
    var r := NonEmptyOnly(trimmed);
    assert forall i | 0 <= i < |r| :: r[i] in trimmed;
    r
  }

  /** Trimming adds no character. */
  lemma TrimKeepsOut(s: string, c: char)
    requires c !in s
    ensures c !in Trim(s)
  {
    var a := TrimStart(s);
    TrimStartSpec(s);
    TrimEndSpec(a);
    assert Trim(s) == TrimEnd(a);
  }

  /** `SearchPrefill` */
  datatype SearchPrefill = SearchPrefill(
    trademark: string,
    yomi: string,
    markType: string,
    classes: seq<string>,
    logoHasText: Option<string>,
    trademarkImage: Option<string>)

  /** The mark is there: a logo needs an image or text, a text mark needs text. */
  predicate HasTrademarkPayload(markType: string, trademark: string, trademarkImage: string) {
    if markType == "ロゴ・図形商標" then trademarkImage != "" || trademark != "" else trademark != ""
  }

  /** `searchData`: the prefill read from the query, or nothing when the mark is missing. */
  function SearchData(entries: seq<Entry>): Option<SearchPrefill> {
    var trademarkParam := ParamOrEmpty(entries, "standard_character");
    var trademarkImageParam := ParamOrEmpty(entries, "trademark_image");
    var classes := DecodeClasses(ParamOrEmpty(entries, "selected_simgroup_ids"));
    var markType := ReadUnion(GetEntry(entries, "type"), TrademarkTypeOptions, "文字商標");
    if !HasTrademarkPayload(markType, trademarkParam, trademarkImageParam) then None
    else
      var logoParam := GetEntry(entries, "logo_has_text");
      var logoHasText := if logoParam.Some? && logoParam.value in LogoTextOptions then logoParam else None;
      Some(SearchPrefill(trademarkParam, ParamOrEmpty(entries, "yomi"), markType, classes, logoHasText, Present(trademarkImageParam)))
  }

  /**
   * There is a prefill exactly when the mark is present; an unknown type
   * reads as a text mark, an unknown logo answer as none, and no class of
   * the prefill is empty.
   */
  lemma SearchDataSpec(entries: seq<Entry>)
    ensures var markType := if GetEntry(entries, "type") == Some("ロゴ・図形商標") then "ロゴ・図形商標" else "文字商標";
      SearchData(entries).Some? <==> HasTrademarkPayload(markType, ParamOrEmpty(entries, "standard_character"), ParamOrEmpty(entries, "trademark_image"))
    ensures SearchData(entries).Some? ==>
      var p := SearchData(entries).value;
      && p.markType in TrademarkTypeOptions
      && (p.markType == "ロゴ・図形商標" <==> GetEntry(entries, "type") == Some("ロゴ・図形商標"))
      && (p.logoHasText.Some? <==> GetEntry(entries, "logo_has_text") == Some("あり") || GetEntry(entries, "logo_has_text") == Some("なし"))
      && (p.logoHasText.Some? ==> p.logoHasText == GetEntry(entries, "logo_has_text"))
      && (forall i | 0 <= i < |p.classes| :: p.classes[i] != [])
  {
    var t := GetEntry(entries, "type");
    if t.Some? && t.value in TrademarkTypeOptions {
      assert t.value == "文字商標" || t.value == "ロゴ・図形商標";
    }
  }

  /** A class code that survives the trip through the query string unchanged. */
  predicate CleanCode(code: string) {
    code != [] && ',' !in code && !IsSpace(code[0]) && !IsSpace(code[|code| - 1])
  }

  /** Decoding the comma-joined codes gives the codes back when each is clean. */
  lemma DecodeJoinedClasses(codes: seq<string>)
    requires forall i | 0 <= i < |codes| :: CleanCode(codes[i])
    ensures DecodeClasses(Join(codes, ',')) == codes
  {
    if codes == [] {
      assert Split([], ',') == [[]];
      assert TrimAll([[]]) == [Trim([])];
      assert Trim([]) == [];
      assert NonEmptyOnly([[]]) == [];
    } else {
      SplitJoin(codes, ',');
      forall i | 0 <= i < |codes|
        ensures Trim(codes[i]) == codes[i]
      {
        TrimOfTrimmed(codes[i]);
      }
      assert TrimAll(codes) == codes;
      NonEmptyKeepsAll(codes);
    }
  }

  lemma {:induction false} NonEmptyKeepsAll(parts: seq<string>)
    requires forall i | 0 <= i < |parts| :: parts[i] != []
    ensures NonEmptyOnly(parts) == parts
    decreases |parts|
  {
    if parts != [] {
      NonEmptyKeepsAll(parts[1..]);
    }
  }

  /**
   * What the search form submits is what this page reads back: a form that
   * may search yields a prefill with its text, reading, type, classes and
   * logo answer; the image survives only for a logo, and only the attorney
   * route is carried.
   */
  lemma SearchRoundTrip(f: SearchForm, route: UiConsultationRoute)
    requires HasTrademarkInput(f)
    requires forall i | 0 <= i < |f.classSelections| :: CleanCode(f.classSelections[i].classCode)
    ensures SearchData(SearchQuery(f, route)) == Some(SearchPrefill(
      f.trademarkText,
      f.trademarkReading,
      MarkTypeName(f.trademarkType),
      ClassCodes(f.classSelections),
      if f.logoHasText.Some? then Some(LogoTextName(f.logoHasText.value)) else None,
      if f.trademarkType == LogoMark && f.trademarkImage != "" then Some(f.trademarkImage) else None))
  {
    SearchQueryParams(f, route);
    SearchDataOfForm(SearchQuery(f, route), f);
  }

  /** Only the attorney route is carried from the search form to this page. */
  lemma SearchRouteCarried(f: SearchForm, route: UiConsultationRoute)
    ensures NormalizeUiConsultationRoute(GetEntry(SearchQuery(f, route), "consultation_route"))
      == if route == AttorneyConsultation then Some(AttorneyConsultation) else None
  {
    SearchQueryParams(f, route);
  }

  /** Entries that carry the form's fields read back as the form's prefill. */
  lemma SearchDataOfForm(entries: seq<Entry>, f: SearchForm)
    requires HasTrademarkInput(f)
    requires forall i | 0 <= i < |f.classSelections| :: CleanCode(f.classSelections[i].classCode)
    requires GetEntry(entries, "standard_character") == Present(f.trademarkText)
    requires GetEntry(entries, "yomi") == Present(f.trademarkReading)
    requires GetEntry(entries, "type") == Some(MarkTypeName(f.trademarkType))
    requires GetEntry(entries, "logo_has_text") == if f.logoHasText.Some? then Some(LogoTextName(f.logoHasText.value)) else None
    requires GetEntry(entries, "selected_simgroup_ids") == if |f.classSelections| > 0 then Some(ClassIds(f.classSelections)) else None
    requires GetEntry(entries, "trademark_image") == if f.trademarkType == LogoMark && f.trademarkImage != "" then Some(f.trademarkImage) else None
    ensures SearchData(entries) == Some(SearchPrefill(
      f.trademarkText,
      f.trademarkReading,
      MarkTypeName(f.trademarkType),
      ClassCodes(f.classSelections),
      if f.logoHasText.Some? then Some(LogoTextName(f.logoHasText.value)) else None,
      if f.trademarkType == LogoMark && f.trademarkImage != "" then Some(f.trademarkImage) else None))
  {
    var codes := ClassCodes(f.classSelections);
    assert ParamOrEmpty(entries, "selected_simgroup_ids") == Join(codes, ',') by {
      if |f.classSelections| == 0 {
        assert codes == [];
      }
    }
    DecodeJoinedClasses(codes);
    if f.trademarkType == TextMark || f.logoHasText == Some(WithText) {
      assert f.trademarkText != [];
    }
    if f.logoHasText.Some? {
      assert LogoTextName(f.logoHasText.value) in LogoTextOptions;
    }
    assert MarkTypeName(f.trademarkType) in TrademarkTypeOptions;
  }

  // ---------------------------------------------------------------------
  // The applicant form

  /** `'法人' | '個人'` */
  datatype ApplicantType = Corporate | Individual

  /** The basic-information form. */
  datatype ApplicantForm = ApplicantForm(
    applicantType: ApplicantType,
    corporateName: string,
    representativeName: string,
    individualName: string,
    phone: string,
    postalCode: string,
    prefecture: string,
    city: string,
    streetAddress: string)

  /** `isFormValid`: the names the applicant type needs, then the four address fields, each non-blank. */
  function IsFormValid(f: ApplicantForm): bool {
    if f.applicantType == Corporate && (IsBlank(f.corporateName) || IsBlank(f.representativeName)) then false
    else if f.applicantType == Individual && IsBlank(f.individualName) then false
    else if IsBlank(f.postalCode) || IsBlank(f.prefecture) || IsBlank(f.city) || IsBlank(f.streetAddress) then false
    else true
  }

  /** The fields a valid form needs, and that the phone and the other applicant type's names never matter. */
  lemma IsFormValidSpec(f: ApplicantForm, phone: string, other: string)
    ensures IsFormValid(f) <==>
      && (f.applicantType == Corporate ==> !IsBlank(f.corporateName) && !IsBlank(f.representativeName))
      && (f.applicantType == Individual ==> !IsBlank(f.individualName))
      && !IsBlank(f.postalCode) && !IsBlank(f.prefecture) && !IsBlank(f.city) && !IsBlank(f.streetAddress)
    ensures IsFormValid(f.(phone := phone)) == IsFormValid(f)
    ensures f.applicantType == Corporate ==> IsFormValid(f.(individualName := other)) == IsFormValid(f)
    ensures f.applicantType == Individual ==>
      IsFormValid(f.(corporateName := other)) == IsFormValid(f) && IsFormValid(f.(representativeName := other)) == IsFormValid(f)
  {
  }

  /** The address line: `〒` and the postal code, then the non-empty address parts, joined with spaces. */
  function Address(f: ApplicantForm): string {
    Join(NonEmptyOnly(["〒" + f.postalCode, f.prefecture, f.city, f.streetAddress]), ' ')
  }

  /** On a valid form every address part is present. */
  lemma AddressOfValidForm(f: ApplicantForm)
    requires IsFormValid(f)
    ensures Address(f) == "〒" + f.postalCode + " " + f.prefecture + " " + f.city + " " + f.streetAddress
  {
    var parts := ["〒" + f.postalCode, f.prefecture, f.city, f.streetAddress];
    assert f.prefecture != [] && f.city != [] && f.streetAddress != [] by {
      assert Trim([]) == [];
    }
    NonEmptyKeepsAll(parts);
    assert parts[1..][1..][1..] == [f.streetAddress];
    assert Join(parts[1..][1..], ' ') == f.city + " " + f.streetAddress;
    assert Join(parts[1..], ' ') == f.prefecture + " " + f.city + " " + f.streetAddress;
  }

  /** `clientIntake` */
  datatype ClientIntake = ClientIntake(
    applicantType: string,
    corporateName: string,
    representativeName: string,
    individualName: string,
    phone: string,
    postalCode: string,
    prefecture: string,
    city: string,
    addressLine: string,
    address: string)

  function MakeClientIntake(f: ApplicantForm): ClientIntake {
    ClientIntake(
      if f.applicantType == Corporate then "CORPORATE" else "INDIVIDUAL",
      if f.applicantType == Corporate then f.corporateName else "",
      if f.applicantType == Corporate then f.representativeName else "",
      if f.applicantType == Individual then f.individualName else "",
      f.phone,
      f.postalCode,
      f.prefecture,
      f.city,
      f.streetAddress,
      Address(f))
  }

  /** An individual applicant sends blank company names; a corporate one a blank personal name. */
  lemma ClientIntakeNames(f: ApplicantForm)
    ensures var c := MakeClientIntake(f);
      && (f.applicantType == Individual ==> c.applicantType == "INDIVIDUAL" && c.corporateName == "" && c.representativeName == "" && c.individualName == f.individualName)
      && (f.applicantType == Corporate ==> c.applicantType == "CORPORATE" && c.individualName == "" && c.corporateName == f.corporateName && c.representativeName == f.representativeName)
      && c.addressLine == f.streetAddress && c.postalCode == f.postalCode && c.phone == f.phone
  {
  }

  // ---------------------------------------------------------------------
  // Saving the basic information

  /** The consultation route chosen at the bottom of the page. */
  datatype SelectedRoute = AiSelfServiceRoute | AttorneyConsultationRoute

  /** The status a saved case moves to. */
  function StatusFor(route: SelectedRoute): (s: CaseStatus.Status)
    ensures s == CaseStatus.PreliminaryResearchInProgress <==> route == AiSelfServiceRoute
    ensures s == CaseStatus.TrademarkRegistered <==> route == AttorneyConsultationRoute
  {
    match route
    case AiSelfServiceRoute => CaseStatus.PreliminaryResearchInProgress
    case AttorneyConsultationRoute => CaseStatus.TrademarkRegistered
  }

  /** What the save button does: an alert, or the update request for the case. */
  datatype SaveRequest =
    | Alert(message: string)
    | Patch(applicant: string, clientIntake: ClientIntake, consultationRoute: SelectedRoute, status: CaseStatus.Status)

  const RequiredFieldsMessage: string := "必須項目を入力してください"
  const ChooseRouteMessage: string := "相談ルートを選択してください"

  function SaveBasicInfo(f: ApplicantForm, selectedRoute: Option<SelectedRoute>): SaveRequest {
    if !IsFormValid(f) then Alert(RequiredFieldsMessage)
    else if selectedRoute.None? then Alert(ChooseRouteMessage)
    else
      var applicant := if f.applicantType == Corporate then f.corporateName else f.individualName;
      Patch(applicant, MakeClientIntake(f), selectedRoute.value, StatusFor(selectedRoute.value))
  }

  /**
   * A request is sent exactly when the form is valid and a route is chosen;
   * its applicant is the non-blank name the applicant type calls for.
   */
  lemma SaveBasicInfoSpec(f: ApplicantForm, selectedRoute: Option<SelectedRoute>)
    ensures SaveBasicInfo(f, selectedRoute).Patch? <==> IsFormValid(f) && selectedRoute.Some?
    ensures !IsFormValid(f) ==> SaveBasicInfo(f, selectedRoute) == Alert(RequiredFieldsMessage)
    ensures IsFormValid(f) && selectedRoute.None? ==> SaveBasicInfo(f, selectedRoute) == Alert(ChooseRouteMessage)
    ensures SaveBasicInfo(f, selectedRoute).Patch? ==>
      var p := SaveBasicInfo(f, selectedRoute);
      && !IsBlank(p.applicant)
      && p.applicant == (if f.applicantType == Corporate then f.corporateName else f.individualName)
      && p.status == StatusFor(selectedRoute.value)
      && p.clientIntake == MakeClientIntake(f)
  {
  }

  // ---------------------------------------------------------------------
  // Postal-code auto-fill

  /** `postalCode.replace(/[^0-9]/g, '')` */
  function DigitsOnly(s: string): (r: string)
    ensures |r| <= |s|
    ensures AllDigits(r)
    decreases |s|
  {
    if s == [] then []
    else if IsDigit(s[0]) then [s[0]] + DigitsOnly(s[1..])
    else DigitsOnly(s[1..])
  }

  /** The look-up starts only when exactly seven digits remain. */
  predicate AutoFillProceeds(postalCode: string) {
    |DigitsOnly(postalCode)| == 7
  }

  lemma {:induction false} DigitsOnlyAppend(a: string, b: string)
    ensures DigitsOnly(a + b) == DigitsOnly(a) + DigitsOnly(b)
    decreases |a|
  {
    if a == [] {
      assert a + b == b;
    } else {
      assert (a + b)[1..] == a[1..] + b;
      DigitsOnlyAppend(a[1..], b);
    }
  }

  lemma {:induction false} DigitsOnlyOfDigits(s: string)
    requires AllDigits(s)
    ensures DigitsOnly(s) == s
    decreases |s|
  {
    if s != [] {
      DigitsOnlyOfDigits(s[1..]);
    }
  }

  /** Stripping is idempotent. */
  lemma DigitsOnlyIdempotent(s: string)
    ensures DigitsOnly(DigitsOnly(s)) == DigitsOnly(s)
  {
    DigitsOnlyOfDigits(DigitsOnly(s));
  }

  /** The usual `123-4567` spelling reaches the look-up with its seven digits. */
  lemma HyphenatedPostalCode(head: string, tail: string)
    requires |head| == 3 && |tail| == 4 && AllDigits(head) && AllDigits(tail)
    ensures DigitsOnly(head + "-" + tail) == head + tail
    ensures AutoFillProceeds(head + "-" + tail)
  {
    DigitsOnlyAppend(head + "-", tail);
    DigitsOnlyAppend(head, "-");
    DigitsOnlyOfDigits(head);
    DigitsOnlyOfDigits(tail);
    assert DigitsOnly("-") == [];
  }

  /** A code with fewer than seven characters never reaches the look-up. */
  lemma ShortPostalCodeStops(postalCode: string)
    requires |postalCode| < 7
    ensures !AutoFillProceeds(postalCode)
  {
  }
}

/**
 * `POST /api/cases` (src/app/api/cases/route.ts): a client opens a new case.
 * The route checks the session, the caller's Client row and the body, issues
 * the case number, allocates the per-client sequence number (max + 1) and
 * inserts the row with its initial values.
 */
module CaseCreation {
  import opened Text
  import opened JsonValue
  import opened Numbering
  import opened Entities

  /**
   * `v.length` where it is a number: arrays count items, strings UTF-16 code
   * units, and an object reads its own `length` member, which counts only
   * when it holds a number. `None` stands for every other value (`undefined`
   * included), none of which is `=== 0`.
   */
  function JsLength(v: Option<Json>): Option<int> {
    match v
    case Some(JArray(items)) => Some(|items|)
    case Some(JString(s)) => Some(Utf16Length(s))
    case Some(JObject(_)) =>
      (match Field(v.value, "length")
       case Some(JNumber(n)) => Some(n)
       case _ => None)
    case _ => None
  }

  /** The items of an array whose items are all strings. */
  function StringItems(v: Option<Json>): (r: Option<seq<string>>)
    ensures r.Some? ==> v.Some? && v.value.JArray? && |r.value| == |v.value.items|
  {
    if v.Some? && v.value.JArray? && forall i | 0 <= i < |v.value.items| :: v.value.items[i].JString? then
      Some(seq(|v.value.items|, i requires 0 <= i < |v.value.items| && v.value.items[i].JString? => v.value.items[i].s))
    else None
  }

  /**
   * `v || null` written to a text column: a falsy value is stored as null, a
   * string as itself; anything else the database refuses (outer `None`).
   */
  function OrNull(v: Option<Json>): Option<Option<string>> {
    if !Truthy(v) then Some(None)
    else if IsString(v) then Some(Some(Str(v)))
    else None
  }

  /**
   * `v ? JSON.parse(JSON.stringify(v)) : null` for a JSON column: the copy of
   * a parsed value is the value itself, and a falsy value is stored as null.
   */
  function JsonOrNull(v: Option<Json>): (r: Option<Json>)
    ensures r.Some? <==> Truthy(v)
    ensures r.Some? ==> r == v
  {
    if Truthy(v) then v else None
  }

  /**
   * The values the database accepts for the case columns the route writes.
   * Text columns take any string, whatever the payload type declares, and
   * refuse anything else; the class list must be an array of strings.
   */
  predicate Storable(p: Json) {
    && IsString(Field(p, "title"))
    && IsString(Field(p, "trademarkType"))
    && IsString(Field(p, "applicant"))
    && StringItems(Field(p, "classes")).Some?
    && OrNull(Field(p, "classCategory")).Some?
    && OrNull(Field(p, "productService")).Some?
    && OrNull(Field(p, "consultationRoute")).Some?
  }

  /** The status of case creation, in the order the route checks. */
  function CreateStatus(db: Db, session: Option<UserId>, body: Option<Json>): int {
    if session.None? then 401
    else if FindClient(db.clients, session.value).None? then 404
    else if body.None? then 400
    else if body.value == JNull then 500          // `payload.title` on null throws
    else
      var p := body.value;
      if !Truthy(Field(p, "title")) || !Truthy(Field(p, "trademarkType")) || !Truthy(Field(p, "applicant")) then 400
      else if !Truthy(Field(p, "classes")) || JsLength(Field(p, "classes")) == Some(0) then 400
      else if !Storable(p) then 500
      else 201
  }

  /** The row the route inserts for the caller. */
  function NewCase(db: Db, userId: UserId, p: Json, newCaseId: string): CaseRecord
    requires FindClient(db.clients, userId).Some? && Storable(p)
  {
    var sequenceNumber := NextCaseSequence(SequenceNumbersOf(db.cases, userId));
    CaseRecord(
      newCaseId,
      CaseNumberFor(FindClient(db.clients, userId).value, sequenceNumber),
      sequenceNumber,
      Str(Field(p, "title")),
      Str(Field(p, "trademarkType")),
      Str(Field(p, "applicant")),
      StringItems(Field(p, "classes")).value,
      "DRAFT",
      userId,
      None,
      None,
      false,
      false,
      OrNull(Field(p, "classCategory")).value,
      OrNull(Field(p, "productService")).value,
      OrNull(Field(p, "consultationRoute")).value,
      Field(p, "trademarkDetails"),
      JsonOrNull(Field(p, "classSelections")))
  }

  /** The store after case creation: the new row appended, nothing else changed. */
  function CreateDb(db: Db, session: Option<UserId>, body: Option<Json>, newCaseId: string): Db {
    if CreateStatus(db, session, body) != 201 then db
    else db.(cases := db.cases + [NewCase(db, session.value, body.value, newCaseId)])
  }

  /** `POST /api/cases`. `newCaseId` is the id the database gives the row. */
  method CreateCase(store: Store, session: Option<UserId>, body: Option<Json>, newCaseId: string)
    returns (status: int, caseNumber: Option<string>)
    modifies store
    ensures status == CreateStatus(old(store.Snapshot()), session, body)
    ensures store.Snapshot() == CreateDb(old(store.Snapshot()), session, body, newCaseId)
    ensures status == 201 <==> caseNumber.Some?
    ensures status == 201 ==> caseNumber.value == store.cases[|store.cases| - 1].caseNumber
  {
    caseNumber := None;
    if session.None? {
      return 401, None;
    }
    var userId := session.value;
    var client := FindClient(store.clients, userId);
    if client.None? {
      return 404, None;
    }
    if body.None? {
      return 400, None;
    }
    var payload := body.value;
    if payload == JNull {
      return 500, None;
    }
    if !Truthy(Field(payload, "title")) || !Truthy(Field(payload, "trademarkType")) || !Truthy(Field(payload, "applicant")) {
      return 400, None;
    }
    if !Truthy(Field(payload, "classes")) || JsLength(Field(payload, "classes")) == Some(0) {
      return 400, None;
    }
    var generated := store.GenerateCaseNumber(userId);
    var existing := SequenceNumbersOf(store.cases, userId);
    var sequenceNumber := if |existing| > 0 then NextCaseSequence(existing) else 1;
    if !Storable(payload) {
      return 500, None;
    }
    var record := CaseRecord(
      newCaseId, generated.value, sequenceNumber,
      Str(Field(payload, "title")), Str(Field(payload, "trademarkType")), Str(Field(payload, "applicant")),
      StringItems(Field(payload, "classes")).value,
      "DRAFT", userId, None, None, false, false,
      OrNull(Field(payload, "classCategory")).value,
      OrNull(Field(payload, "productService")).value,
      OrNull(Field(payload, "consultationRoute")).value,
      Field(payload, "trademarkDetails"),
      JsonOrNull(Field(payload, "classSelections")));
    assert record == NewCase(store.Snapshot(), userId, payload, newCaseId);
    store.cases := store.cases + [record];
    return 201, Some(record.caseNumber);
  }

  /** The caller is signed in and has a Client row. */
  predicate CreateAuthorized(db: Db, session: Option<UserId>) {
    session.Some? && FindClient(db.clients, session.value).Some?
  }

  /** Title, trademark type and applicant are all given. */
  predicate RequiredFieldsGiven(p: Json) {
    Truthy(Field(p, "title")) && Truthy(Field(p, "trademarkType")) && Truthy(Field(p, "applicant"))
  }

  /** `classes` is given and is not empty. */
  predicate ClassesGiven(p: Json) {
    Truthy(Field(p, "classes")) && JsLength(Field(p, "classes")) != Some(0)
  }

  /**
   * The checks come in the route's order: each status is returned when every
   * earlier check passed and its own failed, and 201 exactly when all passed.
   */
  lemma CreateRejectionOrder(db: Db, session: Option<UserId>, body: Option<Json>)
    ensures CreateStatus(db, session, body) == 401 <==> session.None?
    ensures CreateStatus(db, session, body) == 404 <==> session.Some? && FindClient(db.clients, session.value).None?
    ensures CreateAuthorized(db, session) && body.None? ==> CreateStatus(db, session, body) == 400
    ensures CreateAuthorized(db, session) && body == Some(JNull) ==> CreateStatus(db, session, body) == 500
    ensures CreateAuthorized(db, session) && body.Some? && body.value != JNull && !RequiredFieldsGiven(body.value)
      ==> CreateStatus(db, session, body) == 400
    ensures CreateAuthorized(db, session) && body.Some? && body.value != JNull && RequiredFieldsGiven(body.value)
      && !ClassesGiven(body.value)
      ==> CreateStatus(db, session, body) == 400
    ensures CreateAuthorized(db, session) && body.Some? && body.value != JNull && RequiredFieldsGiven(body.value)
      && Field(body.value, "classes").Some? && Field(body.value, "classes").value.JObject?
      && Field(Field(body.value, "classes").value, "length") == Some(JNumber(0))
      ==> CreateStatus(db, session, body) == 400
    ensures CreateAuthorized(db, session) && body.Some? && body.value != JNull && RequiredFieldsGiven(body.value)
      && ClassesGiven(body.value) && !Storable(body.value)
      ==> CreateStatus(db, session, body) == 500
    ensures CreateStatus(db, session, body) == 201 <==>
      && CreateAuthorized(db, session) && body.Some? && body.value != JNull
      && RequiredFieldsGiven(body.value) && ClassesGiven(body.value) && Storable(body.value)
    ensures CreateStatus(db, session, body) == 201 ==>
      StringItems(Field(body.value, "classes")).Some? && StringItems(Field(body.value, "classes")).value != []
  {
  }

  /**
   * A new case is a non-deleted DRAFT of the caller with no consultation
   * started and no assignee; an empty optional field is stored as null, the
   * trademark details as sent and the class selections as sent or null.
   */
  lemma NewCaseInitialValues(db: Db, session: Option<UserId>, body: Option<Json>, newCaseId: string)
    requires CreateStatus(db, session, body) == 201
    ensures var c := NewCase(db, session.value, body.value, newCaseId);
      && c.status == "DRAFT" && !c.consultationStarted && !c.deleted
      && c.userId == session.value
      && c.assignedAttorneyId.None? && c.assignedInternalStaffId.None?
      && c.classes != []
      && (c.classCategory.None? <==> !Truthy(Field(body.value, "classCategory")))
      && (c.productService.None? <==> !Truthy(Field(body.value, "productService")))
      && (c.consultationRoute.None? <==> !Truthy(Field(body.value, "consultationRoute")))
      && c.trademarkDetails == Field(body.value, "trademarkDetails")
      && (c.classSelections.None? <==> !Truthy(Field(body.value, "classSelections")))
      && (c.classSelections.Some? ==> c.classSelections == Field(body.value, "classSelections"))
  {
    var p := body.value;
    OrNullIsNull(Field(p, "classCategory"));
    OrNullIsNull(Field(p, "productService"));
    OrNullIsNull(Field(p, "consultationRoute"));
    assert JsLength(Field(p, "classes")) != Some(0);
  }

  /** A stored `v || null` is null exactly when `v` is falsy. */
  lemma OrNullIsNull(v: Option<Json>)
    requires OrNull(v).Some?
    ensures OrNull(v).value.None? <==> !Truthy(v)
  {
  }

  /** The sequence number of a new case exceeds every sequence number the caller has, deleted cases included, and is 1 for a first case. */
  lemma NewCaseSequence(db: Db, userId: UserId, p: Json, newCaseId: string)
    requires FindClient(db.clients, userId).Some? && Storable(p)
    ensures var s := NewCase(db, userId, p, newCaseId).sequenceNumber;
      && (forall c | c in db.cases && c.userId == userId :: c.sequenceNumber < s)
      && ((forall c | c in db.cases :: c.userId != userId) ==> s == 1)
  {
    var seqs := SequenceNumbersOf(db.cases, userId);
    if seqs != [] {
      assert seqs[0] in seqs;
    }
  }

  /** For a customer number MJdddd and a sequence below 10000, the case number is the customer number followed by the stored sequence number in four digits. */
  lemma CaseNumberCarriesSequence(db: Db, userId: UserId, p: Json, newCaseId: string)
    requires FindClient(db.clients, userId).Some? && Storable(p)
    requires WellFormedCustomerNumber(FindClient(db.clients, userId).value)
    requires 0 <= NewCase(db, userId, p, newCaseId).sequenceNumber < 10000
    ensures var c := NewCase(db, userId, p, newCaseId);
      && c.caseNumber[..6] == FindClient(db.clients, userId).value
      && |c.caseNumber| == 10
      && AllDigits(c.caseNumber[6..])
      && DecimalValue(c.caseNumber[6..]) == c.sequenceNumber
  {
    var c := NewCase(db, userId, p, newCaseId);
    CaseNumberDecodes(FindClient(db.clients, userId).value, c.sequenceNumber);
  }

  /** The sequence numbers of a user after one more row. */
  lemma {:induction false} SequenceNumbersAppend(cases: seq<CaseRecord>, c: CaseRecord, userId: UserId)
    ensures SequenceNumbersOf(cases + [c], userId) == SequenceNumbersOf(cases, userId) + (if c.userId == userId then [c.sequenceNumber] else [])
  {
    if cases != [] {
      assert (cases + [c])[1..] == cases[1..] + [c];
      assert (cases + [c])[0] == cases[0];
      SequenceNumbersAppend(cases[1..], c, userId);
    } else {
      assert [c][1..] == [];
    }
  }

  predicate Distinct(xs: seq<int>) {
    forall i, j | 0 <= i < j < |xs| :: xs[i] != xs[j]
  }

  /** Without concurrent requests, a client's sequence numbers stay pairwise distinct. */
  lemma CreateKeepsSequencesDistinct(db: Db, session: Option<UserId>, body: Option<Json>, newCaseId: string)
    requires session.Some?
    requires Distinct(SequenceNumbersOf(db.cases, session.value))
    ensures Distinct(SequenceNumbersOf(CreateDb(db, session, body, newCaseId).cases, session.value))
  {
    if CreateStatus(db, session, body) == 201 {
      var u := session.value;
      var c := NewCase(db, u, body.value, newCaseId);
      var before := SequenceNumbersOf(db.cases, u);
      SequenceNumbersAppend(db.cases, c, u);
      var after := before + [c.sequenceNumber];
      assert SequenceNumbersOf(CreateDb(db, session, body, newCaseId).cases, u) == after;
      forall i, j | 0 <= i < j < |after| ensures after[i] != after[j] {
        if j == |before| {
          assert after[i] == before[i];
          assert before[i] in before;
        }
      }
    }
  }
}

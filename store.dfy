/**
 * The data the handlers read and write: users with roles, the Attorney,
 * InternalStaff and Client profile rows keyed by user id, cases and messages.
 * The database and its client library are replaced by a `Store` object whose
 * fields the handlers update in place.
 */
module Entities {
  import opened Text
  import opened Numbering
  import opened JsonValue

  type UserId = string
  type ProfileId = string

  datatype Role = ClientRole | InternalStaffRole | AttorneyRole | AdminRole

  /** The stored enum value of a role. */
  function RoleKey(r: Role): string {
    match r
    case ClientRole => "CLIENT"
    case InternalStaffRole => "INTERNAL_STAFF"
    case AttorneyRole => "ATTORNEY"
    case AdminRole => "ADMIN"
  }

  /** `validRoles.includes(role)`: the role a string names, if it names one. */
  function ParseRole(s: string): (r: Option<Role>)
    ensures r.Some? <==> s in {"CLIENT", "INTERNAL_STAFF", "ATTORNEY", "ADMIN"}
    ensures r.Some? ==> RoleKey(r.value) == s
  {
    if s == "CLIENT" then Some(ClientRole)
    else if s == "INTERNAL_STAFF" then Some(InternalStaffRole)
    else if s == "ATTORNEY" then Some(AttorneyRole)
    else if s == "ADMIN" then Some(AdminRole)
    else None
  }

  lemma ParseRoleKey(r: Role)
    ensures ParseRole(RoleKey(r)) == Some(r)
  {
  }

  datatype User = User(name: string, email: string, role: Role)

  datatype CaseRecord = CaseRecord(
    id: string,
    caseNumber: string,
    sequenceNumber: int,
    title: string,
    trademarkType: string,
    applicant: string,
    classes: seq<string>,
    status: string,
    userId: UserId,
    assignedAttorneyId: Option<ProfileId>,
    assignedInternalStaffId: Option<ProfileId>,
    deleted: bool,                  // deletedAt is not null
    consultationStarted: bool,
    classCategory: Option<string>,
    productService: Option<string>,
    consultationRoute: Option<string>,
    trademarkDetails: Option<Json>,       // a JSON column; None when the payload has none
    classSelections: Option<Json>)        // a JSON column; None is null

  datatype Message = Message(
    id: string,
    caseId: string,
    senderId: UserId,
    isFlagged: bool,
    createdAt: int,
    readers: set<UserId>)           // the users with a read row for the message

  /** The sequence numbers of all cases of a user, soft-deleted ones included. */
  function SequenceNumbersOf(cases: seq<CaseRecord>, userId: UserId): (r: seq<int>)
    ensures forall s | s in r :: exists c | c in cases :: c.userId == userId && c.sequenceNumber == s
    ensures forall c | c in cases && c.userId == userId :: c.sequenceNumber in r
  {
    if cases == [] then []
    else (if cases[0].userId == userId then [cases[0].sequenceNumber] else []) + SequenceNumbersOf(cases[1..], userId)
  }

  /** A row of the Client table: the user it belongs to and the customer number issued to it. */
  datatype ClientRow = ClientRow(userId: UserId, customerNumber: string)

  /** The customer numbers of all Client rows, in table order. */
  function CustomerNumbers(rows: seq<ClientRow>): (r: seq<string>)
    ensures |r| == |rows|
    ensures forall i | 0 <= i < |rows| :: r[i] == rows[i].customerNumber
  {
    if rows == [] then [] else [rows[0].customerNumber] + CustomerNumbers(rows[1..])
  }

  /** `client.findUnique({ where: { userId } })`: the customer number of the user's Client row. */
  function FindClient(rows: seq<ClientRow>, userId: UserId): (r: Option<string>)
    ensures r.None? <==> forall i | 0 <= i < |rows| :: rows[i].userId != userId
    ensures r.Some? ==> ClientRow(userId, r.value) in rows
  {
    if rows == [] then None
    else if rows[0].userId == userId then Some(rows[0].customerNumber)
    else FindClient(rows[1..], userId)
  }

  /** The whole store as a value. */
  datatype Db = Db(
    users: map<UserId, User>,
    attorneys: map<UserId, ProfileId>,
    internalStaff: map<UserId, ProfileId>,
    clients: seq<ClientRow>,
    cases: seq<CaseRecord>,
    messages: seq<Message>)

  /** The foreign keys and unique keys the database enforces: every profile row belongs to an existing user, at most one Client row per user. */
  predicate Valid(db: Db) {
    && db.attorneys.Keys <= db.users.Keys
    && db.internalStaff.Keys <= db.users.Keys
    && (forall i | 0 <= i < |db.clients| :: db.clients[i].userId in db.users)
    && (forall i, j | 0 <= i < j < |db.clients| :: db.clients[i].userId != db.clients[j].userId)
  }

  class Store {
    var users: map<UserId, User>
    var attorneys: map<UserId, ProfileId>
    var internalStaff: map<UserId, ProfileId>
    var clients: seq<ClientRow>
    var cases: seq<CaseRecord>
    var messages: seq<Message>

    constructor (users: map<UserId, User>, attorneys: map<UserId, ProfileId>, internalStaff: map<UserId, ProfileId>,
                 clients: seq<ClientRow>, cases: seq<CaseRecord>, messages: seq<Message>)
      ensures this.users == users && this.attorneys == attorneys && this.internalStaff == internalStaff
      ensures this.clients == clients && this.cases == cases && this.messages == messages
    {
      this.users := users;
      this.attorneys := attorneys;
      this.internalStaff := internalStaff;
      this.clients := clients;
      this.cases := cases;
      this.messages := messages;
    }

    function Snapshot(): Db
      reads this
    {
      Db(users, attorneys, internalStaff, clients, cases, messages)
    }

    /** `generateCustomerNumber`: the sequence starts at 1 and becomes the parsed digits of the greatest "MJ" number plus one. */
    method GenerateCustomerNumber() returns (r: string)
      ensures r == CustomerNumberFor(CustomerNumbers(clients))
    {
      var existing := MjNumbers(CustomerNumbers(clients));
      var sequence := 1;
      if |existing| > 0 {
        var lastCustomerNumber := MaxLex(existing);
        var numberPart := ReplaceFirst(lastCustomerNumber, Prefix, "");
        var lastSequence := ParseInt(numberPart);
        if lastSequence.Some? {
          sequence := lastSequence.value + 1;
        }
      }
      r := Prefix + Pad4(sequence);
    }

    /** `generateCaseNumber`: fails without a Client row; otherwise the customer's digits and the next case sequence. */
    method GenerateCaseNumber(userId: UserId) returns (r: Option<string>)
      ensures FindClient(clients, userId).None? ==> r.None?
      ensures FindClient(clients, userId).Some? ==>
        r == Some(CaseNumberFor(FindClient(clients, userId).value, NextCaseSequence(SequenceNumbersOf(cases, userId))))
    {
      var client := FindClient(clients, userId);
      if client.None? {
        return None;
      }
      var customerNumber := client.value;
      var existing := SequenceNumbersOf(cases, userId);
      var sequence := 1;
      if |existing| > 0 {
        sequence := NextCaseSequence(existing);
      }
      var customerNumberPart := ReplaceFirst(customerNumber, Prefix, "");
      r := Some(Prefix + customerNumberPart + Pad4(sequence));
    }
  }
}

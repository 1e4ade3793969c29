/**
 * `GET /api/messages` (src/app/api/messages/route.ts): the caller's inbox.
 * The route picks the cases the caller may see by role, summarises each
 * case's messages (unread count, flag, latest message, total), sorts the
 * summaries so that cases with more unread messages and flagged cases come
 * first, and adds up the unread counts.
 */
module Inbox {
  import opened Text
  import opened Entities

  /** Which cases a caller sees, as the role branches of the route decide it. */
  datatype Scope =
    | NoCases
    | OwnCases(owner: UserId)
    | AssignedToAttorney(attorney: ProfileId)
    | AssignedToStaff(staff: ProfileId)
    | AllCases

  /**
   * A client sees its own cases; an attorney the cases assigned to its
   * Attorney profile; internal staff the cases assigned to its InternalStaff
   * profile; an admin every case. A missing profile means no cases, except
   * for an admin.
   */
  function ScopeOf(db: Db, userId: UserId): Scope
    requires userId in db.users
  {
    var role := db.users[userId].role;
    if role == ClientRole then OwnCases(userId)
    else if role == AttorneyRole then
      if userId !in db.attorneys then NoCases else AssignedToAttorney(db.attorneys[userId])
    else
      // INTERNAL_STAFF or ADMIN
      if userId !in db.internalStaff && role != AdminRole then NoCases
      else if role == InternalStaffRole then AssignedToStaff(db.internalStaff[userId])
      else AllCases
  }

  /** A soft-deleted case is never visible. */
  predicate InScope(scope: Scope, c: CaseRecord) {
    && !c.deleted
    && match scope
       case NoCases => false
       case OwnCases(owner) => c.userId == owner
       case AssignedToAttorney(p) => c.assignedAttorneyId == Some(p)
       case AssignedToStaff(p) => c.assignedInternalStaffId == Some(p)
       case AllCases => true
  }

  /** `case.findMany` with the scope's filter, in table order. */
  function CasesIn(cases: seq<CaseRecord>, scope: Scope): (r: seq<CaseRecord>)
    ensures forall c :: c in r <==> c in cases && InScope(scope, c)
    ensures scope.NoCases? ==> r == []
    ensures |r| <= |cases|
  {
    if cases == [] then []
    else (if InScope(scope, cases[0]) then [cases[0]] else []) + CasesIn(cases[1..], scope)
  }

  function AccessibleCases(db: Db, userId: UserId): seq<CaseRecord>
    requires userId in db.users
  {
    CasesIn(db.cases, ScopeOf(db, userId))
  }

  /** What each role sees, stated per role. */
  lemma AccessibleCasesByRole(db: Db, userId: UserId)
    requires userId in db.users
    ensures var role := db.users[userId].role; var r := AccessibleCases(db, userId);
      && (role == ClientRole ==> forall c :: c in r <==> c in db.cases && !c.deleted && c.userId == userId)
      && (role == AttorneyRole && userId !in db.attorneys ==> r == [])
      && (role == AttorneyRole && userId in db.attorneys ==>
            forall c :: c in r <==> c in db.cases && !c.deleted && c.assignedAttorneyId == Some(db.attorneys[userId]))
      && (role == InternalStaffRole && userId !in db.internalStaff ==> r == [])
      && (role == InternalStaffRole && userId in db.internalStaff ==>
            forall c :: c in r <==> c in db.cases && !c.deleted && c.assignedInternalStaffId == Some(db.internalStaff[userId]))
      && (role == AdminRole ==> forall c :: c in r <==> c in db.cases && !c.deleted)
  {
  }

  /** No caller ever sees a soft-deleted case, and an admin sees every case anyone else sees. */
  lemma AdminSeesEverything(db: Db, admin: UserId, other: UserId)
    requires admin in db.users && other in db.users
    requires db.users[admin].role == AdminRole
    ensures forall c | c in AccessibleCases(db, other) :: !c.deleted && c in AccessibleCases(db, admin)
  {
  }

  /** The messages of one case, keeping the query's order. */
  function CaseMessages(msgs: seq<Message>, caseId: string): (r: seq<Message>)
    ensures forall m :: m in r <==> m in msgs && m.caseId == caseId
    ensures |r| <= |msgs|
  {
    if msgs == [] then []
    else (if msgs[0].caseId == caseId then [msgs[0]] else []) + CaseMessages(msgs[1..], caseId)
  }

  /** The query orders messages by `createdAt`, newest first. */
  predicate NewestFirst(msgs: seq<Message>) {
    forall i, j | 0 <= i < j < |msgs| :: msgs[i].createdAt >= msgs[j].createdAt
  }

  lemma {:induction false} CaseMessagesNewestFirst(msgs: seq<Message>, caseId: string)
    requires NewestFirst(msgs)
    ensures NewestFirst(CaseMessages(msgs, caseId))
  {
    if msgs != [] {
      var rest := CaseMessages(msgs[1..], caseId);
      assert NewestFirst(msgs[1..]);
      CaseMessagesNewestFirst(msgs[1..], caseId);
      forall m | m in rest ensures msgs[0].createdAt >= m.createdAt {
        var k :| 0 <= k < |msgs[1..]| && msgs[1..][k] == m;
        assert msgs[k + 1] == m;
      }
    }
  }

  /** A message counts as unread unless the caller sent it or has a read row for it. */
  predicate Unread(m: Message, userId: UserId) {
    m.senderId != userId && userId !in m.readers
  }

  function CountUnread(msgs: seq<Message>, userId: UserId): (r: nat)
    ensures r <= |msgs|
  {
    if msgs == [] then 0
    else (if Unread(msgs[0], userId) then 1 else 0) + CountUnread(msgs[1..], userId)
  }

  /** The count is zero exactly when every message is the caller's own or read, and full exactly when none is. */
  lemma {:induction false} CountUnreadSpec(msgs: seq<Message>, userId: UserId)
    ensures CountUnread(msgs, userId) == 0 <==> forall i | 0 <= i < |msgs| :: !Unread(msgs[i], userId)
    ensures CountUnread(msgs, userId) == |msgs| <==> forall i | 0 <= i < |msgs| :: Unread(msgs[i], userId)
  {
    if msgs != [] {
      CountUnreadSpec(msgs[1..], userId);
      assert forall i | 1 <= i < |msgs| :: msgs[i] == msgs[1..][i - 1];
    }
  }

  /** `caseMessages.some(m => m.isFlagged)` */
  predicate AnyFlagged(msgs: seq<Message>) {
    exists i | 0 <= i < |msgs| :: msgs[i].isFlagged
  }

  datatype LatestMessage = LatestMessage(id: string, isFlagged: bool, createdAt: int, isRead: bool)

  datatype Communication = Communication(
    caseId: string,
    caseNumber: string,
    title: string,
    unreadCount: nat,
    hasFlaggedMessages: bool,
    latestMessage: Option<LatestMessage>,
    totalMessages: nat)

  /** The inbox entry of one case. */
  function Summarize(c: CaseRecord, msgs: seq<Message>, userId: UserId): Communication {
    var ms := CaseMessages(msgs, c.id);
    Communication(
      c.id, c.caseNumber, c.title,
      CountUnread(ms, userId),
      AnyFlagged(ms),
      if ms == [] then None
      else Some(LatestMessage(ms[0].id, ms[0].isFlagged, ms[0].createdAt, ms[0].senderId == userId || userId in ms[0].readers)),
      |ms|)
  }

  /**
   * An entry counts at most as many unread messages as the case has; it has a
   * latest message iff the case has messages, and that one is the newest and
   * is read iff the caller sent it or has read it.
   */
  lemma SummarizeSpec(c: CaseRecord, msgs: seq<Message>, userId: UserId)
    requires NewestFirst(msgs)
    ensures var e := Summarize(c, msgs, userId);
      && e.caseId == c.id
      && e.unreadCount <= e.totalMessages
      && (e.hasFlaggedMessages <==> exists m | m in msgs :: m.caseId == c.id && m.isFlagged)
      && (e.latestMessage.None? <==> forall m | m in msgs :: m.caseId != c.id)
      && (e.latestMessage.Some? ==>
            && (exists m | m in msgs && m.caseId == c.id :: m.id == e.latestMessage.value.id
                  && m.createdAt == e.latestMessage.value.createdAt
                  && (e.latestMessage.value.isRead <==> m.senderId == userId || userId in m.readers))
            && forall m | m in msgs && m.caseId == c.id :: m.createdAt <= e.latestMessage.value.createdAt)
  {
    var ms := CaseMessages(msgs, c.id);
    CaseMessagesNewestFirst(msgs, c.id);
    if ms != [] {
      assert ms[0] in ms;
      forall m | m in msgs && m.caseId == c.id ensures m.createdAt <= ms[0].createdAt {
        var k :| 0 <= k < |ms| && ms[k] == m;
      }
    }
    if AnyFlagged(ms) {
      var i :| 0 <= i < |ms| && ms[i].isFlagged;
      assert ms[i] in ms;
    }
  }

  /** `accessibleCases.map(...)` */
  function Communications(cases: seq<CaseRecord>, msgs: seq<Message>, userId: UserId): (r: seq<Communication>)
    ensures |r| == |cases|
    ensures forall i | 0 <= i < |cases| :: r[i] == Summarize(cases[i], msgs, userId)
  {
    if cases == [] then [] else [Summarize(cases[0], msgs, userId)] + Communications(cases[1..], msgs, userId)
  }

  /**
   * The comparator as one number: more unread messages first, and among equal
   * unread counts a flagged entry first.
   */
  function Rank(e: Communication): nat {
    2 * e.unreadCount + (if e.hasFlaggedMessages then 1 else 0)
  }

  /** Ordering by rank is the route's comparator on unread count and flag. */
  lemma RankOrder(x: Communication, y: Communication)
    ensures Rank(x) >= Rank(y) <==>
      x.unreadCount > y.unreadCount || (x.unreadCount == y.unreadCount && (x.hasFlaggedMessages || !y.hasFlaggedMessages))
  {
  }

  predicate Ranked(s: seq<Communication>) {
    forall i, j | 0 <= i < j < |s| :: Rank(s[i]) >= Rank(s[j])
  }

  /** A ranked list never has more unread messages after fewer, and among equal counts never a flagged entry after an unflagged one. */
  lemma RankedOrder(s: seq<Communication>, i: int, j: int)
    requires Ranked(s) && 0 <= i < j < |s|
    ensures s[i].unreadCount >= s[j].unreadCount
    ensures s[i].unreadCount == s[j].unreadCount && s[j].hasFlaggedMessages ==> s[i].hasFlaggedMessages
  {
    RankOrder(s[i], s[j]);
  }

  /** `communicationList.sort(...)`, in place, by the comparator's unread and flag keys. */
  method SortCommunications(a: array<Communication>)
    modifies a
    ensures Ranked(a[..])
    ensures multiset(a[..]) == multiset(old(a[..]))
  {
    var i := 0;
    while i < a.Length
      invariant 0 <= i <= a.Length
      invariant Ranked(a[..i])
      invariant multiset(a[..]) == multiset(old(a[..]))
    {
      Insert(a, i);
      i := i + 1;
    }
  }

  /** Moves `a[i]` down into the ranked prefix `a[..i]`. */
  method Insert(a: array<Communication>, i: int)
    requires 0 <= i < a.Length && Ranked(a[..i])
    modifies a
    ensures Ranked(a[..i + 1])
    ensures multiset(a[..]) == multiset(old(a[..]))
  {
    var j := i;
    while j > 0 && Rank(a[j - 1]) < Rank(a[j])
      invariant 0 <= j <= i
      invariant forall k, l | 0 <= k < l <= i && l != j :: Rank(a[k]) >= Rank(a[l])
      invariant multiset(a[..]) == multiset(old(a[..]))
    {
      Swap(a, j);
      j := j - 1;
    }
  }

  method Swap(a: array<Communication>, j: int)
    requires 0 < j < a.Length
    modifies a
    ensures a[..] == old(a[..])[j - 1 := old(a[j])][j := old(a[j - 1])]
    ensures multiset(a[..]) == multiset(old(a[..]))
  {
    a[j - 1], a[j] := a[j], a[j - 1];
  }

  /** `reduce((sum, item) => sum + item.unreadCount, 0)` */
  function SumUnread(s: seq<Communication>): nat {
    if s == [] then 0 else s[0].unreadCount + SumUnread(s[1..])
  }

  lemma {:induction false} SumUnreadConcat(x: seq<Communication>, y: seq<Communication>)
    ensures SumUnread(x + y) == SumUnread(x) + SumUnread(y)
  {
    if x != [] {
      assert (x + y)[1..] == x[1..] + y;
      SumUnreadConcat(x[1..], y);
    } else {
      assert x + y == y;
    }
  }

  /** The total does not depend on the order of the entries. */
  lemma {:induction false} SumUnreadPermutation(x: seq<Communication>, y: seq<Communication>)
    requires multiset(x) == multiset(y)
    ensures SumUnread(x) == SumUnread(y)
  {
    if x != [] {
      assert x[0] in multiset(y);
      var k :| 0 <= k < |y| && y[k] == x[0];
      var rest := y[..k] + y[k + 1..];
      SumUnreadRemove(y, k);
      MultisetCons(x);
      SumUnreadPermutation(x[1..], rest);
    } else {
      assert |y| == |multiset(y)|;
    }
  }

  lemma {:induction false} MultisetCons(x: seq<Communication>)
    requires x != []
    ensures multiset(x[1..]) == multiset(x) - multiset{x[0]}
  {
    assert x == [x[0]] + x[1..];
  }

  /** Taking one entry out of a list takes its count out of the total. */
  lemma {:induction false} SumUnreadRemove(y: seq<Communication>, k: nat)
    requires k < |y|
    ensures multiset(y[..k] + y[k + 1..]) == multiset(y) - multiset{y[k]}
    ensures SumUnread(y) == y[k].unreadCount + SumUnread(y[..k] + y[k + 1..])
  {
    assert y == y[..k] + [y[k]] + y[k + 1..];
    assert multiset(y) == multiset(y[..k]) + multiset{y[k]} + multiset(y[k + 1..]);
    SumUnreadConcat(y[..k] + [y[k]], y[k + 1..]);
    SumUnreadConcat(y[..k], [y[k]]);
    SumUnreadConcat(y[..k], y[k + 1..]);
    assert SumUnread([y[k]]) == y[k].unreadCount;
  }

  /** `GET /api/messages`. `queried` is the store's messages in the order the database returns them, newest first. */
  method ListCommunications(store: Store, session: Option<UserId>, queried: seq<Message>)
    returns (status: int, communications: seq<Communication>, totalUnread: nat)
    requires NewestFirst(queried) && multiset(queried) == multiset(store.messages)
    ensures status == 401 <==> session.None?
    ensures status == 404 <==> session.Some? && session.value !in store.users
    ensures status != 200 ==> communications == [] && totalUnread == 0
    ensures status == 200 ==>
      var unsorted := Communications(AccessibleCases(store.Snapshot(), session.value), queried, session.value);
      && multiset(communications) == multiset(unsorted)
      && Ranked(communications)
      && totalUnread == SumUnread(unsorted)
  {
    if session.None? {
      return 401, [], 0;
    }
    var userId := session.value;
    if userId !in store.users {
      return 404, [], 0;
    }
    var accessibleCases := AccessibleCases(store.Snapshot(), userId);
    var list := Communications(accessibleCases, queried, userId);
    var a := new Communication[|list|](i requires 0 <= i < |list| => list[i]);
    assert a[..] == list;
    SortCommunications(a);
    communications := a[..];
    totalUnread := SumUnread(communications);
    SumUnreadPermutation(communications, list);
    status := 200;
  }
}

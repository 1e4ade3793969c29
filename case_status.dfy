/**
 * The 17 case statuses, their display labels and the status filter options
 * of the client case list (src/app/client/cases/page.tsx).
 */
module CaseStatus {
  import opened Text

  datatype Status =
    | Draft
    | TrademarkRegistered
    | PreliminaryResearchInProgress
    | ResearchResultShared
    | PreparingApplication
    | ApplicationConfirmed
    | ApplicationSubmitted
    | UnderExamination
    | OaReceived
    | RespondingToOa
    | FinalResultReceived
    | PayingRegistrationFee
    | RegistrationCompleted
    | AwaitingRenewal
    | InDispute
    | Rejected
    | Abandoned

  /** The stored (and transmitted) key of a status. */
  function Key(st: Status): string {
    match st
    case Draft => "DRAFT"
    case TrademarkRegistered => "TRADEMARK_REGISTERED"
    case PreliminaryResearchInProgress => "PRELIMINARY_RESEARCH_IN_PROGRESS"
    case ResearchResultShared => "RESEARCH_RESULT_SHARED"
    case PreparingApplication => "PREPARING_APPLICATION"
    case ApplicationConfirmed => "APPLICATION_CONFIRMED"
    case ApplicationSubmitted => "APPLICATION_SUBMITTED"
    case UnderExamination => "UNDER_EXAMINATION"
    case OaReceived => "OA_RECEIVED"
    case RespondingToOa => "RESPONDING_TO_OA"
    case FinalResultReceived => "FINAL_RESULT_RECEIVED"
    case PayingRegistrationFee => "PAYING_REGISTRATION_FEE"
    case RegistrationCompleted => "REGISTRATION_COMPLETED"
    case AwaitingRenewal => "AWAITING_RENEWAL"
    case InDispute => "IN_DISPUTE"
    case Rejected => "REJECTED"
    case Abandoned => "ABANDONED"
  }

  /** The label of the `statusMap` in `getStatusLabel`. */
  function StatusLabel(st: Status): string {
    match st
    case Draft => "下書き"
    case TrademarkRegistered => "新規商標済"
    case PreliminaryResearchInProgress => "事前調査中"
    case ResearchResultShared => "調査結果共有"
    case PreparingApplication => "出願準備中"
    case ApplicationConfirmed => "願書確定"
    case ApplicationSubmitted => "出願受付済"
    case UnderExamination => "審査中"
    case OaReceived => "OA受領"
    case RespondingToOa => "中間対応中"
    case FinalResultReceived => "最終結果受領"
    case PayingRegistrationFee => "登録料納付中"
    case RegistrationCompleted => "登録完了"
    case AwaitingRenewal => "更新待ち"
    case InDispute => "係争中"
    case Rejected => "拒絶確定"
    case Abandoned => "放棄"
  }

  /** The statuses in the order the status map and the filter options list them. */
  const AllStatuses: seq<Status> := [
    Draft, TrademarkRegistered, PreliminaryResearchInProgress, ResearchResultShared,
    PreparingApplication, ApplicationConfirmed, ApplicationSubmitted, UnderExamination,
    OaReceived, RespondingToOa, FinalResultReceived, PayingRegistrationFee,
    RegistrationCompleted, AwaitingRenewal, InDispute, Rejected, Abandoned
  ]

  /** The position of a status in `AllStatuses`. */
  function Index(st: Status): (i: nat)
    ensures i < |AllStatuses| && AllStatuses[i] == st
  {
    match st
    case Draft => 0
    case TrademarkRegistered => 1
    case PreliminaryResearchInProgress => 2
    case ResearchResultShared => 3
    case PreparingApplication => 4
    case ApplicationConfirmed => 5
    case ApplicationSubmitted => 6
    case UnderExamination => 7
    case OaReceived => 8
    case RespondingToOa => 9
    case FinalResultReceived => 10
    case PayingRegistrationFee => 11
    case RegistrationCompleted => 12
    case AwaitingRenewal => 13
    case InDispute => 14
    case Rejected => 15
    case Abandoned => 16
  }

  /** Every status is listed exactly once and the 17 keys are pairwise distinct. */
  lemma StatusKeysDistinct()
    ensures |AllStatuses| == 17
    ensures forall st: Status :: st in AllStatuses
    ensures forall i, j | 0 <= i < j < |AllStatuses| :: Key(AllStatuses[i]) != Key(AllStatuses[j])
  {
    forall st: Status ensures st in AllStatuses {
      assert AllStatuses[Index(st)] == st;
    }
    forall i, j | 0 <= i < j < |AllStatuses|
      ensures Key(AllStatuses[i]) != Key(AllStatuses[j])
    {
      KeysDistinctAt(i, j);
    }
  }

  lemma KeysDistinctAt(i: nat, j: nat)
    requires i < j < |AllStatuses|
    ensures Key(AllStatuses[i]) != Key(AllStatuses[j])
  {
    KeyInjective(AllStatuses[i], AllStatuses[j]);
    IndexAt(i);
    IndexAt(j);
  }

  /** The position of the `i`-th status is `i`. */
  lemma IndexAt(i: nat)
    requires i < |AllStatuses|
    ensures Index(AllStatuses[i]) == i
  {
  }

  /** Two statuses with the same key are the same status. */
  lemma KeyInjective(a: Status, b: Status)
    ensures Key(a) == Key(b) ==> a == b
  {
    if Key(a) == Key(b) {
      assert Key(a)[..2] == Key(b)[..2] && Key(a)[|Key(a)| - 2..] == Key(b)[|Key(b)| - 2..];
    }
  }

  /** The status a stored key names, if any. */
  function ParseStatus(key: string): (r: Option<Status>)
    ensures r.Some? ==> Key(r.value) == key
    ensures r.None? ==> forall st: Status :: Key(st) != key
  {
    if key == "DRAFT" then Some(Draft)
    else if key == "TRADEMARK_REGISTERED" then Some(TrademarkRegistered)
    else if key == "PRELIMINARY_RESEARCH_IN_PROGRESS" then Some(PreliminaryResearchInProgress)
    else if key == "RESEARCH_RESULT_SHARED" then Some(ResearchResultShared)
    else if key == "PREPARING_APPLICATION" then Some(PreparingApplication)
    else if key == "APPLICATION_CONFIRMED" then Some(ApplicationConfirmed)
    else if key == "APPLICATION_SUBMITTED" then Some(ApplicationSubmitted)
    else if key == "UNDER_EXAMINATION" then Some(UnderExamination)
    else if key == "OA_RECEIVED" then Some(OaReceived)
    else if key == "RESPONDING_TO_OA" then Some(RespondingToOa)
    else if key == "FINAL_RESULT_RECEIVED" then Some(FinalResultReceived)
    else if key == "PAYING_REGISTRATION_FEE" then Some(PayingRegistrationFee)
    else if key == "REGISTRATION_COMPLETED" then Some(RegistrationCompleted)
    else if key == "AWAITING_RENEWAL" then Some(AwaitingRenewal)
    else if key == "IN_DISPUTE" then Some(InDispute)
    else if key == "REJECTED" then Some(Rejected)
    else if key == "ABANDONED" then Some(Abandoned)
    else None
  }

  lemma ParseKey(st: Status)
    ensures ParseStatus(Key(st)) == Some(st)
  {
    KeyInjective(ParseStatus(Key(st)).value, st);
  }

  /** `getStatusLabel`: the fixed label of a known key, the key itself otherwise. */
  function GetStatusLabel(status: string): string {
    match ParseStatus(status)
    case Some(st) => StatusLabel(st)
    case None => status
  }

  /** `getStatusLabel` maps each status key to its fixed label and returns any other string unchanged. */
  lemma GetStatusLabelSpec(status: string)
    ensures forall st: Status :: status == Key(st) ==> GetStatusLabel(status) == StatusLabel(st)
    ensures (forall st: Status :: status != Key(st)) ==> GetStatusLabel(status) == status
  {
    forall st: Status | status == Key(st) ensures GetStatusLabel(status) == StatusLabel(st) {
      ParseKey(st);
    }
  }

  /** No label is empty, so `statusMap[status] || status` never falls through for a known key. */
  lemma LabelsNonEmpty(st: Status)
    ensures StatusLabel(st) != []
  {
  }

  /** `STATUS_OPTIONS`: the filter's value and label pairs, written out as the page writes them. */
  const StatusOptions: seq<(string, string)> := [
    ("all", "すべて"),
    ("DRAFT", "下書き"),
    ("TRADEMARK_REGISTERED", "新規商標済"),
    ("PRELIMINARY_RESEARCH_IN_PROGRESS", "事前調査中"),
    ("RESEARCH_RESULT_SHARED", "調査結果共有"),
    ("PREPARING_APPLICATION", "出願準備中"),
    ("APPLICATION_CONFIRMED", "願書確定"),
    ("APPLICATION_SUBMITTED", "出願受付済"),
    ("UNDER_EXAMINATION", "審査中"),
    ("OA_RECEIVED", "OA受領"),
    ("RESPONDING_TO_OA", "中間対応中"),
    ("FINAL_RESULT_RECEIVED", "最終結果受領"),
    ("PAYING_REGISTRATION_FEE", "登録料納付中"),
    ("REGISTRATION_COMPLETED", "登録完了"),
    ("AWAITING_RENEWAL", "更新待ち"),
    ("IN_DISPUTE", "係争中"),
    ("REJECTED", "拒絶確定"),
    ("ABANDONED", "放棄")
  ]

  /** Entry `i + 1` of the filter options is the key and label of the `i`-th status. */
  lemma StatusOptionAt(i: nat)
    requires i < |AllStatuses|
    ensures StatusOptions[i + 1] == (Key(AllStatuses[i]), StatusLabel(AllStatuses[i]))
  {
  }

  /** The label of an option is what `getStatusLabel` shows for its key. */
  lemma OptionLabelAgrees(st: Status)
    ensures GetStatusLabel(Key(st)) == StatusLabel(st)
  {
    ParseKey(st);
  }

  /** The filter options are "all" followed by the 17 statuses, each labelled as `getStatusLabel` labels it. */
  lemma StatusOptionsMatchLabels()
    ensures |StatusOptions| == 18 && StatusOptions[0] == ("all", "すべて")
    ensures forall i | 1 <= i < 18 :: StatusOptions[i].0 == Key(AllStatuses[i - 1])
    ensures forall i | 1 <= i < 18 :: StatusOptions[i].1 == GetStatusLabel(StatusOptions[i].0)
  {
    forall i | 1 <= i < 18
      ensures StatusOptions[i].0 == Key(AllStatuses[i - 1])
      ensures StatusOptions[i].1 == GetStatusLabel(StatusOptions[i].0)
    {
      StatusOptionAt(i - 1);
      OptionLabelAgrees(AllStatuses[i - 1]);
    }
  }

  /** Every status is offered with its key and label. */
  lemma EveryStatusOffered()
    ensures forall st: Status :: (Key(st), StatusLabel(st)) in StatusOptions[1..]
  {
    forall st: Status ensures (Key(st), StatusLabel(st)) in StatusOptions[1..] {
      var k := Index(st);
      StatusOptionAt(k);
      assert StatusOptions[1..][k] == StatusOptions[k + 1];
    }
  }

  /** `getTrademarkTypeLabel` */
  function TrademarkTypeLabel(t: string): (r: string)
    ensures t == "TEXT" ==> r == "文字"
    ensures t == "LOGO" ==> r == "図形"
    ensures t != "TEXT" && t != "LOGO" ==> r == t
  {
    if t == "TEXT" then "文字" else if t == "LOGO" then "図形" else t
  }
}

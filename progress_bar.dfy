/**
 * The six-stage progress bar of a case (src/components/case/progress-bar.tsx):
 * `getProgressSteps` builds six pending steps and then marks them according
 * to the current status string.
 */
module ProgressBar {
  import opened Text
  import opened CaseStatus

  datatype StepState = Completed | Current | Pending

  datatype StepLabel = Plain(text: string) | Stacked(top: string, bottom: string)

  datatype Step = Step(id: nat, caption: StepLabel, state: StepState)

  const StepCount: nat := 6

  /** The fixed labels of the six steps. */
  function StepLabelAt(i: nat): StepLabel
    requires i < StepCount
  {
    if i == 0 then Plain("下書き")
    else if i == 1 then Stacked("新規商標作成", "事前調査")
    else if i == 2 then Stacked("出願準備", "出願受付")
    else if i == 3 then Plain("審査中")
    else if i == 4 then Plain("中間対応中")
    else Stacked("登録準備", "登録完了")
  }

  /**
   * The stage a status reaches: 1..6 names the current step, 7 means every
   * step is completed and 0 means no step has started.
   */
  function StageOf(st: Status): (k: nat)
    ensures k <= 7
  {
    match st
    case Draft => 1
    case TrademarkRegistered => 2
    case PreliminaryResearchInProgress => 2
    case ResearchResultShared => 2
    case PreparingApplication => 3
    case ApplicationConfirmed => 3
    case ApplicationSubmitted => 3
    case UnderExamination => 4
    case OaReceived => 5
    case RespondingToOa => 5
    case FinalResultReceived => 6
    case PayingRegistrationFee => 6
    case RegistrationCompleted => 7
    case AwaitingRenewal => 7
    case InDispute => 0
    case Rejected => 0
    case Abandoned => 0
  }

  /** The stage of a status string; a string that is no status key has stage 0. */
  function Stage(currentStatus: string): (k: nat)
    ensures k <= 7
  {
    match ParseStatus(currentStatus)
    case Some(st) => StageOf(st)
    case None => 0
  }

  /** The state of step `id` (1-based) at stage `k`. */
  function StateAt(k: nat, id: nat): StepState {
    if k == 0 then Pending
    else if id < k then Completed
    else if id == k then Current
    else Pending
  }

  /** The steps `getProgressSteps` returns for a status string. */
  function ProgressSteps(currentStatus: string): seq<Step> {
    seq(StepCount, i requires 0 <= i < StepCount => Step(i + 1, StepLabelAt(i), StateAt(Stage(currentStatus), i + 1)))
  }

  function States(steps: seq<Step>): (r: seq<StepState>)
    ensures |r| == |steps|
    ensures forall i | 0 <= i < |steps| :: r[i] == steps[i].state
  {
    seq(|steps|, i requires 0 <= i < |steps| => steps[i].state)
  }

  /**
   * `getProgressSteps`: six pending steps, then the branch of the status marks
   * some of them. The array holds the `status` field of each step; the ids and
   * labels are the fixed ones of `ProgressSteps` and never change.
   */
  method GetProgressSteps(currentStatus: string) returns (steps: array<StepState>)
    ensures fresh(steps)
    ensures steps[..] == Marks(StageFromKey(currentStatus))
  {
    ghost var k: nat := 0;
    steps := new StepState[StepCount](_ => Pending);
    if currentStatus == "DRAFT" {
      k := 1;
      steps[0] := Current;
    } else if currentStatus == "TRADEMARK_REGISTERED" {
      k := 2;
      steps[0] := Completed;
      steps[1] := Current;
    } else if currentStatus == "PRELIMINARY_RESEARCH_IN_PROGRESS" || currentStatus == "RESEARCH_RESULT_SHARED" {
      k := 2;
      steps[0] := Completed;
      steps[1] := Current;
    } else if currentStatus == "PREPARING_APPLICATION" || currentStatus == "APPLICATION_CONFIRMED" {
      k := 3;
      steps[0] := Completed;
      steps[1] := Completed;
      steps[2] := Current;
    } else if currentStatus == "APPLICATION_SUBMITTED" {
      k := 3;
      steps[0] := Completed;
      steps[1] := Completed;
      steps[2] := Current;
    } else if currentStatus == "UNDER_EXAMINATION" {
      k := 4;
      steps[0] := Completed;
      steps[1] := Completed;
      steps[2] := Completed;
      steps[3] := Current;
    } else if currentStatus == "OA_RECEIVED" || currentStatus == "RESPONDING_TO_OA" {
      k := 5;
      steps[0] := Completed;
      steps[1] := Completed;
      steps[2] := Completed;
      steps[3] := Completed;
      steps[4] := Current;
    } else if currentStatus == "FINAL_RESULT_RECEIVED" || currentStatus == "PAYING_REGISTRATION_FEE" {
      k := 6;
      steps[0] := Completed;
      steps[1] := Completed;
      steps[2] := Completed;
      steps[3] := Completed;
      steps[4] := Completed;
      steps[5] := Current;
    } else if currentStatus == "REGISTRATION_COMPLETED" || currentStatus == "AWAITING_RENEWAL" {
      k := 7;
      // every step is completed once registration is done
      CompleteAll(steps);
    }
    assert k == StageFromKey(currentStatus);
    forall j | 0 <= j < StepCount
      ensures steps[j] == StateAt(k, j + 1)
    {
    }
    assert steps[..] == Marks(k);
  }

  /** `steps.forEach((step) => { step.status = 'completed'; })` */
  method CompleteAll(steps: array<StepState>)
    modifies steps
    ensures forall j | 0 <= j < steps.Length :: steps[j] == Completed
  {
    for i := 0 to steps.Length
      invariant forall j | 0 <= j < i :: steps[j] == Completed
    {
      steps[i] := Completed;
    }
  }

  /** The step states at stage `k`. */
  function Marks(k: nat): (r: seq<StepState>)
    ensures |r| == StepCount && forall i | 0 <= i < StepCount :: r[i] == StateAt(k, i + 1)
  {
    seq(StepCount, i requires 0 <= i < StepCount => StateAt(k, i + 1))
  }

  /** The states `GetProgressSteps` returns are those of `ProgressSteps`. */
  lemma MarksOfStage(currentStatus: string)
    ensures Marks(StageFromKey(currentStatus)) == States(ProgressSteps(currentStatus))
  {
    StageFromKeyAgrees(currentStatus);
  }

  /** The branch chain of `getProgressSteps` gives each status key the stage of its status, and every other string stage 0. */
  lemma StageFromKeyAgrees(s: string)
    ensures StageFromKey(s) == Stage(s)
  {
  }

  /** The stage read off the branches of `getProgressSteps`, key by key. */
  function StageFromKey(s: string): nat {
    if s == "DRAFT" then 1
    else if s == "TRADEMARK_REGISTERED" || s == "PRELIMINARY_RESEARCH_IN_PROGRESS" || s == "RESEARCH_RESULT_SHARED" then 2
    else if s == "PREPARING_APPLICATION" || s == "APPLICATION_CONFIRMED" || s == "APPLICATION_SUBMITTED" then 3
    else if s == "UNDER_EXAMINATION" then 4
    else if s == "OA_RECEIVED" || s == "RESPONDING_TO_OA" then 5
    else if s == "FINAL_RESULT_RECEIVED" || s == "PAYING_REGISTRATION_FEE" then 6
    else if s == "REGISTRATION_COMPLETED" || s == "AWAITING_RENEWAL" then 7
    else 0
  }

  /** Exactly six steps, with ids 1..6 in order and their fixed labels. */
  lemma ProgressStepsShape(currentStatus: string)
    ensures |ProgressSteps(currentStatus)| == 6
    ensures forall i | 0 <= i < 6 :: ProgressSteps(currentStatus)[i].id == i + 1
    ensures forall i | 0 <= i < 6 :: ProgressSteps(currentStatus)[i].caption == StepLabelAt(i)
  {
  }

  /** DRAFT: step 1 current, steps 2..6 pending. */
  lemma DraftProgress()
    ensures States(ProgressSteps("DRAFT")) == [Current, Pending, Pending, Pending, Pending, Pending]
  {
    ParseKey(Draft);
  }

  /** The state of step `i + 1` is the one its stage gives it. */
  lemma StateOfStep(currentStatus: string, i: nat)
    requires i < StepCount
    ensures ProgressSteps(currentStatus)[i].state == StateAt(Stage(currentStatus), i + 1)
  {
  }

  /** For a status in stages 1..6 the step with that id is current and exactly the earlier ones are completed. */
  lemma CurrentStepOfStatus(st: Status)
    requires 1 <= StageOf(st) <= 6
    ensures ProgressSteps(Key(st))[StageOf(st) - 1].state == Current
    ensures forall i | 0 <= i < 6 :: ProgressSteps(Key(st))[i].state == Completed <==> i + 1 < StageOf(st)
    ensures forall i | 0 <= i < 6 :: ProgressSteps(Key(st))[i].state == Pending <==> i + 1 > StageOf(st)
  {
    var s := Key(st);
    ParseKey(st);
    assert Stage(s) == StageOf(st);
    forall i | 0 <= i < 6
      ensures ProgressSteps(s)[i].state == StateAt(StageOf(st), i + 1)
    {
      StateOfStep(s, i);
    }
  }

  /** REGISTRATION_COMPLETED and AWAITING_RENEWAL: all six steps completed. */
  lemma RegisteredAllCompleted(st: Status)
    requires st == RegistrationCompleted || st == AwaitingRenewal
    ensures forall i | 0 <= i < 6 :: ProgressSteps(Key(st))[i].state == Completed
  {
    var s := Key(st);
    ParseKey(st);
    assert Stage(s) == 7;
    forall i | 0 <= i < 6
      ensures ProgressSteps(s)[i].state == Completed
    {
      StateOfStep(s, i);
    }
  }

  /** IN_DISPUTE, REJECTED, ABANDONED and every string that is no status key: all six pending. */
  lemma OtherStatusAllPending(currentStatus: string)
    requires ParseStatus(currentStatus).None? || ParseStatus(currentStatus).value in {InDispute, Rejected, Abandoned}
    ensures forall i | 0 <= i < 6 :: ProgressSteps(currentStatus)[i].state == Pending
  {
    assert Stage(currentStatus) == 0;
    forall i | 0 <= i < 6
      ensures ProgressSteps(currentStatus)[i].state == Pending
    {
      StateOfStep(currentStatus, i);
    }
  }

  function Rank(s: StepState): nat {
    match s
    case Completed => 0
    case Current => 1
    case Pending => 2
  }

  /** A run of completed steps, then at most one current step, then only pending steps. */
  predicate WellShaped(states: seq<StepState>) {
    (forall i, j | 0 <= i < j < |states| :: Rank(states[i]) <= Rank(states[j]))
    && (forall i, j | 0 <= i < j < |states| :: !(states[i] == Current && states[j] == Current))
  }

  lemma ProgressWellShaped(currentStatus: string)
    ensures WellShaped(States(ProgressSteps(currentStatus)))
  {
    var ss := States(ProgressSteps(currentStatus));
    var k := Stage(currentStatus);
    forall i, j | 0 <= i < j < |ss|
      ensures Rank(ss[i]) <= Rank(ss[j]) && !(ss[i] == Current && ss[j] == Current)
    {
      assert ss[i] == StateAt(k, i + 1) && ss[j] == StateAt(k, j + 1);
    }
  }

  function CountState(states: seq<StepState>, x: StepState): (n: nat)
    ensures n <= |states|
  {
    if states == [] then 0
    else CountState(states[..|states| - 1], x) + (if states[|states| - 1] == x then 1 else 0)
  }

  /** In a well-shaped sequence, a current entry at position k has exactly k completed entries before it and none after. */
  lemma {:induction false} CompletedBeforeCurrent(states: seq<StepState>, k: nat)
    requires WellShaped(states)
    requires k < |states| && states[k] == Current
    ensures CountState(states, Completed) == k
  {
    var n := |states| - 1;
    if n == k {
      AllCompletedCount(states[..n]);
    } else {
      assert states[n] != Completed by {
        assert Rank(states[k]) <= Rank(states[n]);
      }
      var init := states[..n];
      assert init[k] == Current;
      assert WellShaped(init) by {
        forall i, j | 0 <= i < j < |init| ensures Rank(init[i]) <= Rank(init[j]) {
          assert init[i] == states[i] && init[j] == states[j];
        }
        forall i, j | 0 <= i < j < |init| ensures !(init[i] == Current && init[j] == Current) {
          assert init[i] == states[i] && init[j] == states[j];
        }
      }
      CompletedBeforeCurrent(init, k);
    }
  }

  lemma {:induction false} AllCompletedCount(states: seq<StepState>)
    requires forall i | 0 <= i < |states| :: states[i] == Completed
    ensures CountState(states, Completed) == |states|
  {
    if states != [] {
      AllCompletedCount(states[..|states| - 1]);
    }
  }

  /** When step k is current, exactly k - 1 steps are completed. */
  lemma CurrentStepCompletedCount(currentStatus: string, k: nat)
    requires 1 <= k <= 6 && ProgressSteps(currentStatus)[k - 1].state == Current
    ensures CountState(States(ProgressSteps(currentStatus)), Completed) == k - 1
  {
    var ss := States(ProgressSteps(currentStatus));
    ProgressWellShaped(currentStatus);
    CompletedBeforeCurrent(ss, k - 1);
  }
}

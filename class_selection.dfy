/**
 * The class-selection list kept by the trademark-search form: a selection
 * per Nice class with the goods and services picked in it, the sanitising of
 * those picks and the upsert that records a confirmed selection.
 */
module ClassSelections {
  import opened Text

  /** `AiClassSelection`: a Nice class code with the goods/services chosen in it. */
  datatype ClassSelection = ClassSelection(classCode: string, details: seq<string>)

  /** `details.filter((d) => d.trim().length > 0)` */
  function SanitizeClassDetails(details: seq<string>): (r: seq<string>)
    ensures |r| <= |details|
    ensures forall i | 0 <= i < |r| :: !IsBlank(r[i])
    ensures forall x :: x in r <==> x in details && !IsBlank(x)
    decreases |details|
  {
    if details == [] then []
    else
      var rest := SanitizeClassDetails(details[1..]);
      assert forall x :: x in details <==> x == details[0] || x in details[1..];
      if IsBlank(details[0]) then rest else [details[0]] + rest
  }

  /** The filter keeps the original order: it distributes over concatenation. */
  lemma {:induction false} SanitizeAppend(a: seq<string>, b: seq<string>)
    ensures SanitizeClassDetails(a + b) == SanitizeClassDetails(a) + SanitizeClassDetails(b)
    decreases |a|
  {
    if a == [] {
      assert a + b == b;
    } else {
      assert (a + b)[1..] == a[1..] + b;
      SanitizeAppend(a[1..], b);
    }
  }

  /** A list without blank entries is left as it is. */
  lemma {:induction false} SanitizeKeepsClean(details: seq<string>)
    requires forall i | 0 <= i < |details| :: !IsBlank(details[i])
    ensures SanitizeClassDetails(details) == details
    decreases |details|
  {
    if details != [] {
      SanitizeKeepsClean(details[1..]);
    }
  }

  /** Sanitising twice is sanitising once. */
  lemma SanitizeIdempotent(details: seq<string>)
    ensures SanitizeClassDetails(SanitizeClassDetails(details)) == SanitizeClassDetails(details)
  {
    SanitizeKeepsClean(SanitizeClassDetails(details));
  }

  // ---------------------------------------------------------------------
  // upsertClassSelection

  /** `selections.findIndex((s) => s.classCode === classCode)` */
  function FindIndex(selections: seq<ClassSelection>, classCode: string): (r: int)
    ensures -1 <= r < |selections|
    ensures r == -1 <==> forall i | 0 <= i < |selections| :: selections[i].classCode != classCode
    ensures r >= 0 ==> selections[r].classCode == classCode
    ensures r >= 0 ==> forall j | 0 <= j < r :: selections[j].classCode != classCode
    decreases |selections|
  {
    if selections == [] then -1
    else if selections[0].classCode == classCode then 0
    else
      var k := FindIndex(selections[1..], classCode);
      if k == -1 then -1 else k + 1
  }

  /** `upsertClassSelection`: replace the first selection of the class, or append a new one. */
  function UpsertClassSelection(selections: seq<ClassSelection>, classCode: string, details: seq<string>): seq<ClassSelection> {
    var existingIndex := FindIndex(selections, classCode);
    if existingIndex >= 0 then selections[existingIndex := ClassSelection(classCode, details)]
    else selections + [ClassSelection(classCode, details)]
  }

  /** When the class is already selected, its first selection is replaced and nothing else moves. */
  lemma UpsertPresent(selections: seq<ClassSelection>, classCode: string, details: seq<string>, k: nat)
    requires k < |selections| && selections[k].classCode == classCode
    requires forall j | 0 <= j < k :: selections[j].classCode != classCode
    ensures var r := UpsertClassSelection(selections, classCode, details);
      && |r| == |selections|
      && r[k] == ClassSelection(classCode, details)
      && forall j | 0 <= j < |selections| && j != k :: r[j] == selections[j]
  {
  }

  /** When the class is not selected yet, the new selection is appended. */
  lemma UpsertAbsent(selections: seq<ClassSelection>, classCode: string, details: seq<string>)
    requires forall i | 0 <= i < |selections| :: selections[i].classCode != classCode
    ensures UpsertClassSelection(selections, classCode, details) == selections + [ClassSelection(classCode, details)]
  {
  }

  /** After an upsert the class holds exactly the given details; selections of other classes survive. */
  lemma UpsertHasEntry(selections: seq<ClassSelection>, classCode: string, details: seq<string>)
    ensures ClassSelection(classCode, details) in UpsertClassSelection(selections, classCode, details)
    ensures forall s | s in selections && s.classCode != classCode :: s in UpsertClassSelection(selections, classCode, details)
    ensures forall s | s in UpsertClassSelection(selections, classCode, details) :: s in selections || s == ClassSelection(classCode, details)
  {
    var r := UpsertClassSelection(selections, classCode, details);
    var i := FindIndex(selections, classCode);
    if i >= 0 {
      assert r[i] == ClassSelection(classCode, details);
      forall s | s in selections && s.classCode != classCode
        ensures s in r
      {
        var j :| 0 <= j < |selections| && selections[j] == s;
        assert r[j] == s;
      }
      forall s | s in r
        ensures s in selections || s == ClassSelection(classCode, details)
      {
        var j :| 0 <= j < |r| && r[j] == s;
        if j != i {
          assert selections[j] == s;
        }
      }
    }
  }

  /** Upserting the same class and details twice is the same as once. */
  lemma UpsertIdempotent(selections: seq<ClassSelection>, classCode: string, details: seq<string>)
    ensures var once := UpsertClassSelection(selections, classCode, details);
      UpsertClassSelection(once, classCode, details) == once
  {
    var once := UpsertClassSelection(selections, classCode, details);
    var i := FindIndex(selections, classCode);
    if i >= 0 {
      UpsertPresent(selections, classCode, details, i);
      assert FindIndex(once, classCode) == i by {
        var m := FindIndex(once, classCode);
        assert m <= i;
      }
    } else {
      assert FindIndex(once, classCode) == |selections| by {
        assert once[|selections|].classCode == classCode;
        assert forall j | 0 <= j < |selections| :: once[j] == selections[j];
      }
    }
  }

  /** No class code occurs twice in the list. */
  predicate DistinctCodes(selections: seq<ClassSelection>) {
    forall i, j | 0 <= i < j < |selections| :: selections[i].classCode != selections[j].classCode
  }

  /** Upserting keeps the class codes distinct, so the list is a map from class to details. */
  lemma UpsertKeepsDistinct(selections: seq<ClassSelection>, classCode: string, details: seq<string>)
    requires DistinctCodes(selections)
    ensures DistinctCodes(UpsertClassSelection(selections, classCode, details))
  {
    var r := UpsertClassSelection(selections, classCode, details);
    var i := FindIndex(selections, classCode);
    if i >= 0 {
      assert forall j | 0 <= j < |r| :: r[j].classCode == selections[j].classCode;
    } else {
      assert forall j | 0 <= j < |selections| :: r[j] == selections[j];
    }
  }
}

/**
 * Customer and case numbers (src/lib/number-generator.ts).
 *
 * A customer number is "MJ" and a sequence padded to four digits; a case
 * number is "MJ", the customer's digits and the per-client case sequence
 * padded to four digits. The store queries become functions of the values
 * they read: the customer numbers of all clients, and the sequence numbers
 * of one user's cases.
 */
module Numbering {
  import opened Text

  const Prefix: string := "MJ"

  /** The numbers the `startsWith: "MJ"` filter keeps, in their order. */
  function MjNumbers(xs: seq<string>): (r: seq<string>)
    ensures forall x | x in r :: x in xs && StartsWith(x, Prefix)
    ensures forall x | x in xs && StartsWith(x, Prefix) :: x in r
  {
    if xs == [] then []
    else (if StartsWith(xs[0], Prefix) then [xs[0]] else []) + MjNumbers(xs[1..])
  }

  /** The first element of a descending code-point sort: the greatest string. */
  function MaxLex(xs: seq<string>): (r: string)
    requires xs != []
    ensures r in xs
  {
    if |xs| == 1 then xs[0]
    else
      var m := MaxLex(xs[1..]);
      if LexLess(m, xs[0]) then xs[0] else m
  }

  /** No string of the list is greater than `MaxLex`. */
  lemma {:induction false} MaxLexIsGreatest(xs: seq<string>)
    requires xs != []
    ensures forall x | x in xs :: !LexLess(MaxLex(xs), x)
  {
    if |xs| == 1 {
      LexLessIrreflexive(xs[0]);
    } else {
      var m := MaxLex(xs[1..]);
      MaxLexIsGreatest(xs[1..]);
      forall x | x in xs ensures !LexLess(MaxLex(xs), x) {
        if LexLess(m, xs[0]) {
          if x == xs[0] {
            LexLessIrreflexive(x);
          } else if LexLess(xs[0], x) {
            assert x in xs[1..];
            LexLessTransitive(m, xs[0], x);
          }
        } else if x == xs[0] {
        } else {
          assert x in xs[1..];
        }
      }
    }
  }

  /** The sequence `generateCustomerNumber` issues: the parsed digits of the greatest "MJ" number plus one, else 1. */
  function NextCustomerSequence(customerNumbers: seq<string>): int {
    var mj := MjNumbers(customerNumbers);
    if mj == [] then 1
    else
      match ParseInt(ReplaceFirst(MaxLex(mj), Prefix, ""))
      case None => 1
      case Some(last) => last + 1
  }

  /** `generateCustomerNumber` */
  function CustomerNumberFor(customerNumbers: seq<string>): string {
    Prefix + Pad4(NextCustomerSequence(customerNumbers))
  }

  /** With no "MJ" number in the store the first customer number is MJ0001. */
  lemma FirstCustomerNumber(customerNumbers: seq<string>)
    requires forall x | x in customerNumbers :: !StartsWith(x, Prefix)
    ensures CustomerNumberFor(customerNumbers) == "MJ0001"
  {
    MjNumbersNone(customerNumbers);
    assert Pad4(1) == "0001";
  }

  lemma {:induction false} MjNumbersNone(xs: seq<string>)
    requires forall x | x in xs :: !StartsWith(x, Prefix)
    ensures MjNumbers(xs) == []
  {
    if xs != [] {
      assert xs[0] in xs;
      MjNumbersNone(xs[1..]);
    }
  }

  /** A well-formed customer number: "MJ" and exactly four decimal digits. */
  predicate WellFormedCustomerNumber(x: string) {
    |x| == 6 && StartsWith(x, Prefix) && AllDigits(x[2..])
  }

  function CustomerDigitsValue(x: string): nat
    requires WellFormedCustomerNumber(x)
  {
    DecimalValue(x[2..])
  }

  /** Strings with a common prefix compare as their remainders do. */
  lemma {:induction false} LexLessCommonPrefix(p: string, a: string, b: string)
    ensures LexLess(p + a, p + b) <==> LexLess(a, b)
  {
    if p != [] {
      assert (p + a)[1..] == p[1..] + a;
      assert (p + b)[1..] == p[1..] + b;
      LexLessCommonPrefix(p[1..], a, b);
    } else {
      assert p + a == a && p + b == b;
    }
  }

  /** For sequences 1..9999 the customer number is "MJ" and four digits whose value is the sequence. */
  lemma CustomerNumberDigits(n: int)
    requires 0 <= n < 10000
    ensures WellFormedCustomerNumber(Prefix + Pad4(n)) && CustomerDigitsValue(Prefix + Pad4(n)) == n
  {
    Pad4Digits(n);
    var r := Prefix + Pad4(n);
    assert r[2..] == Pad4(n);
    assert r[..2] == Prefix;
  }

  /** When every "MJ" number is well formed, the next one has sequence max + 1. */
  lemma NextCustomerSequenceOfWellFormed(customerNumbers: seq<string>)
    requires MjNumbers(customerNumbers) != []
    requires forall x | x in customerNumbers && StartsWith(x, Prefix) :: WellFormedCustomerNumber(x)
    ensures NextCustomerSequence(customerNumbers) == CustomerDigitsValue(MaxLex(MjNumbers(customerNumbers))) + 1
  {
    var m := MaxLex(MjNumbers(customerNumbers));
    ReplaceFirstPrefix(m, Prefix);
    assert m[|Prefix|..] == m[2..];
  }

  /** One step of the comparison: an existing number below the maximum is below the maximum's successor. */
  lemma BelowNext(m: string, x: string, r: string)
    requires WellFormedCustomerNumber(m) && WellFormedCustomerNumber(x) && WellFormedCustomerNumber(r)
    requires !LexLess(m, x)
    requires CustomerDigitsValue(r) == CustomerDigitsValue(m) + 1
    ensures LexLess(x, r)
  {
    assert x == Prefix + x[2..] && m == Prefix + m[2..] && r == Prefix + r[2..];
    SameLengthDigitsOrder(m[2..], x[2..]);
    LexLessCommonPrefix(Prefix, m[2..], x[2..]);
    SameLengthDigitsOrder(x[2..], r[2..]);
    LexLessCommonPrefix(Prefix, x[2..], r[2..]);
  }

  /**
   * With well-formed numbers whose greatest sequence is below 9999, the new
   * customer number is greater than every existing one in the store's order,
   * so it is new, and descending order keeps finding the latest one.
   */
  lemma NewCustomerNumberIsGreatest(customerNumbers: seq<string>)
    requires forall x | x in customerNumbers && StartsWith(x, Prefix) :: WellFormedCustomerNumber(x)
    requires forall x | x in customerNumbers && StartsWith(x, Prefix) :: CustomerDigitsValue(x) < 9999
    ensures WellFormedCustomerNumber(CustomerNumberFor(customerNumbers))
    ensures forall x | x in customerNumbers :: x != CustomerNumberFor(customerNumbers)
    ensures forall x | x in customerNumbers && StartsWith(x, Prefix) :: LexLess(x, CustomerNumberFor(customerNumbers))
  {
    var mj := MjNumbers(customerNumbers);
    var r := CustomerNumberFor(customerNumbers);
    if mj == [] {
      NoMjMeansFirst(customerNumbers);
      CustomerNumberDigits(1);
    } else {
      var m := MaxLex(mj);
      var n := CustomerDigitsValue(m);
      NextCustomerSequenceOfWellFormed(customerNumbers);
      assert r == Prefix + Pad4(n + 1);
      AboveAll(customerNumbers, m, r);
    }
  }

  lemma NoMjMeansFirst(customerNumbers: seq<string>)
    requires MjNumbers(customerNumbers) == []
    ensures CustomerNumberFor(customerNumbers) == Prefix + Pad4(1)
    ensures forall x | x in customerNumbers :: !StartsWith(x, Prefix)
  {
  }

  /** The successor of the greatest well-formed number is above every well-formed number. */
  lemma AboveAll(customerNumbers: seq<string>, m: string, r: string)
    requires forall x | x in customerNumbers && StartsWith(x, Prefix) :: WellFormedCustomerNumber(x)
    requires forall x | x in customerNumbers && StartsWith(x, Prefix) :: CustomerDigitsValue(x) < 9999
    requires MjNumbers(customerNumbers) != [] && m == MaxLex(MjNumbers(customerNumbers))
    requires r == Prefix + Pad4(CustomerDigitsValue(m) + 1)
    ensures WellFormedCustomerNumber(r)
    ensures forall x | x in customerNumbers :: x != r
    ensures forall x | x in customerNumbers && StartsWith(x, Prefix) :: LexLess(x, r)
  {
    var mj := MjNumbers(customerNumbers);
    CustomerNumberDigits(CustomerDigitsValue(m) + 1);
    MaxLexIsGreatest(mj);
    forall x | x in customerNumbers && StartsWith(x, Prefix) ensures LexLess(x, r) {
      assert x in mj;
      BelowNext(m, x, r);
    }
    forall x | x in customerNumbers ensures x != r {
      if StartsWith(x, Prefix) {
        LexLessIrreflexive(x);
      }
    }
  }

  /** `padStart` does not truncate: from 10000 on the digit part is the full decimal form. */
  lemma CustomerNumberBeyond9999(n: int)
    requires n >= 10000
    ensures Prefix + Pad4(n) == Prefix + NatToDecimal(n)
    ensures |Pad4(n)| >= 5
  {
    var d := NatToDecimal(n);
    DecimalRoundTrip(n);
    DecimalBound(d);
    if |d| < 5 {
      Pow10Monotone(|d|, 4);
    }
  }

  lemma {:induction false} Pow10Monotone(i: nat, j: nat)
    requires i <= j
    ensures Pow10(i) <= Pow10(j)
  {
    if i < j {
      Pow10Monotone(i, j - 1);
    }
  }

  /** The case sequence: the largest existing sequence number of the user plus one, or 1. */
  function NextCaseSequence(sequenceNumbers: seq<int>): (r: int)
    ensures sequenceNumbers == [] ==> r == 1
    ensures forall s | s in sequenceNumbers :: s < r
    ensures sequenceNumbers != [] ==> r - 1 in sequenceNumbers
  {
    if sequenceNumbers == [] then 1
    else
      assert sequenceNumbers == [sequenceNumbers[0]] + sequenceNumbers[1..];
      var rest := NextCaseSequence(sequenceNumbers[1..]);
      if sequenceNumbers[1..] == [] || sequenceNumbers[0] + 1 > rest then sequenceNumbers[0] + 1 else rest
  }

  /** The case number of a customer and a sequence. */
  function CaseNumberFor(customerNumber: string, sequence: int): string {
    Prefix + ReplaceFirst(customerNumber, Prefix, "") + Pad4(sequence)
  }

  /** For a customer number starting with "MJ" the case number begins with the customer number. */
  lemma CaseNumberExtendsCustomerNumber(customerNumber: string, sequence: int)
    requires StartsWith(customerNumber, Prefix)
    ensures CaseNumberFor(customerNumber, sequence) == customerNumber + Pad4(sequence)
  {
    ReplaceFirstPrefix(customerNumber, Prefix);
    assert customerNumber == Prefix + customerNumber[2..];
  }

  /** For a well-formed customer number and sequences 0..9999, distinct sequences give distinct case numbers, and the sequence can be read back. */
  lemma CaseNumberDecodes(customerNumber: string, sequence: int)
    requires WellFormedCustomerNumber(customerNumber)
    requires 0 <= sequence < 10000
    ensures |CaseNumberFor(customerNumber, sequence)| == 10
    ensures CaseNumberFor(customerNumber, sequence)[..6] == customerNumber
    ensures AllDigits(CaseNumberFor(customerNumber, sequence)[6..])
    ensures DecimalValue(CaseNumberFor(customerNumber, sequence)[6..]) == sequence
  {
    CaseNumberExtendsCustomerNumber(customerNumber, sequence);
    Pad4Digits(sequence);
    var r := CaseNumberFor(customerNumber, sequence);
    assert r[6..] == Pad4(sequence);
  }

  lemma CaseNumberInjective(customerNumber: string, s1: int, s2: int)
    requires WellFormedCustomerNumber(customerNumber)
    requires 0 <= s1 < 10000 && 0 <= s2 < 10000
    requires CaseNumberFor(customerNumber, s1) == CaseNumberFor(customerNumber, s2)
    ensures s1 == s2
  {
    CaseNumberDecodes(customerNumber, s1);
    CaseNumberDecodes(customerNumber, s2);
  }
}

/**
 * Roll-number ranking and the roster sorts built on it: the report
 * comparator shared by the summary and marking pages, and the comparator
 * the migration uses before it stores the roster.
 */
module Rolls {
  import opened Wrappers
  import opened Text
  import opened Types

  /** `Number.MAX_SAFE_INTEGER`, the rank the report pages give a label without digits. */
  const MaxSafeInteger: nat := 9007199254740991

  predicate HasDigit(s: string) {
    exists i :: 0 <= i < |s| && IsDigit(s[i])
  }

  /** Index of the first digit of `s`, or `|s|` when there is none. */
  function FirstDigitIndex(s: string): (k: nat)
    ensures k <= |s|
    ensures forall i :: 0 <= i < k ==> !IsDigit(s[i])
    ensures k < |s| ==> IsDigit(s[k])
  {
    if s == [] || IsDigit(s[0]) then 0 else 1 + FirstDigitIndex(s[1..])
  }

  /** Length of the run of digits that starts `s`. */
  function DigitRunLength(s: string): (n: nat)
    ensures n <= |s|
    ensures forall i :: 0 <= i < n ==> IsDigit(s[i])
    ensures n < |s| ==> !IsDigit(s[n])
  {
    if s != [] && IsDigit(s[0]) then 1 + DigitRunLength(s[1..]) else 0
  }

  /** What `roll.match(/\d+/)?.[0]` finds: the first maximal run of digits, or "" when there is none. */
  function FirstDigitRun(roll: string): (run: string)
    ensures AllDigits(run)
  {
    var k := FirstDigitIndex(roll);
    roll[k..k + DigitRunLength(roll[k..])]
  }

  /** `roll[i..j]` is the first maximal run of digits in `roll`. */
  ghost predicate IsFirstDigitRun(roll: string, i: int, j: int) {
    && 0 <= i < j <= |roll|
    && (forall k :: 0 <= k < i ==> !IsDigit(roll[k]))
    && AllDigits(roll[i..j])
    && (j == |roll| || !IsDigit(roll[j]))
  }

  /** A label has at most one first maximal digit run. */
  lemma FirstDigitRunUnique(roll: string, i: int, j: int, i': int, j': int)
    requires IsFirstDigitRun(roll, i, j) && IsFirstDigitRun(roll, i', j')
    ensures i == i' && j == j'
  {
    assert IsDigit(roll[i..j][0]) && IsDigit(roll[i'..j'][0]);
    forall k | i' <= k < j' ensures IsDigit(roll[k]) {
      assert roll[k] == roll[i'..j'][k - i'];
    }
    forall k | i <= k < j ensures IsDigit(roll[k]) {
      assert roll[k] == roll[i..j][k - i];
    }
  }

  /** The report pages' `parseRoll`: the value of the first digit run, or the sentinel when the label has no digit. */
  function ParseRoll(roll: string): nat {
    var run := FirstDigitRun(roll);
    if run == [] then MaxSafeInteger else DigitsValue(run)
  }

  /** The number the migration's comparator reads from a label; `None` stands for `NaN`. */
  function MigrationNumber(roll: string): Option<nat> {
    var run := FirstDigitRun(roll);
    if run == [] then None else Some(DigitsValue(run))
  }

  /** `FirstDigitRun` is empty exactly when the label has no digit, and is otherwise the first maximal run. */
  lemma FirstDigitRunSpec(roll: string)
    ensures FirstDigitRun(roll) == [] <==> !HasDigit(roll)
    ensures HasDigit(roll) ==>
      var i := FirstDigitIndex(roll);
      IsFirstDigitRun(roll, i, i + |FirstDigitRun(roll)|) && FirstDigitRun(roll) == roll[i..i + |FirstDigitRun(roll)|]
  {
    var k := FirstDigitIndex(roll);
    var n := DigitRunLength(roll[k..]);
    if HasDigit(roll) {
      var w :| 0 <= w < |roll| && IsDigit(roll[w]);
      assert k <= w;
      assert roll[k..][0] == roll[k];
      if k + n < |roll| {
        assert roll[k + n] == roll[k..][n];
      }
      assert roll[k..k + n] == roll[k..][..n];
    }
  }

  /** `parseRoll` reads the first maximal digit run, or falls back to the sentinel. */
  lemma ParseRollSpec(roll: string)
    ensures !HasDigit(roll) ==> ParseRoll(roll) == MaxSafeInteger
    ensures HasDigit(roll) ==> exists i, j :: IsFirstDigitRun(roll, i, j) && ParseRoll(roll) == DigitsValue(roll[i..j])
    ensures MigrationNumber(roll) == if HasDigit(roll) then Some(ParseRoll(roll)) else None
  {
    FirstDigitRunSpec(roll);
    if HasDigit(roll) {
      var i := FirstDigitIndex(roll);
      var j := i + |FirstDigitRun(roll)|;
      assert IsFirstDigitRun(roll, i, j) && ParseRoll(roll) == DigitsValue(roll[i..j]);
    }
  }

  /** Which comparator a sort uses. */
  datatype RollOrder =
    | ReportOrder     // summary and marking pages: (parseRoll, raw label)
    | MigrationOrder  // migration: numeric when both labels have digits, else raw label

  /** The comparator returns a negative number for `a`, `b`: `a` goes strictly before `b`. */
  predicate Precedes(order: RollOrder, a: Student, b: Student) {
    match order
    case ReportOrder =>
      var pa, pb := ParseRoll(a.rollNumber), ParseRoll(b.rollNumber);
      pa < pb || (pa == pb && StrLess(a.rollNumber, b.rollNumber))
    case MigrationOrder =>
      var na, nb := MigrationNumber(a.rollNumber), MigrationNumber(b.rollNumber);
      if na.Some? && nb.Some? then na.value < nb.value else StrLess(a.rollNumber, b.rollNumber)
  }

  /**
   * The elements on which the comparator is a strict order: every label for
   * the report order, labels with a digit for the migration order.
   */
  predicate Comparable(order: RollOrder, s: Student) {
    order == ReportOrder || HasDigit(s.rollNumber)
  }

  lemma PrecedesIrreflexive(order: RollOrder, a: Student)
    ensures !Precedes(order, a, a)
  {
    StrLessIrreflexive(a.rollNumber);
  }

  lemma PrecedesTransitive(order: RollOrder, a: Student, b: Student, c: Student)
    requires Comparable(order, a) && Comparable(order, b) && Comparable(order, c)
    requires Precedes(order, a, b) && Precedes(order, b, c)
    ensures Precedes(order, a, c)
  {
    FirstDigitRunSpec(a.rollNumber);
    FirstDigitRunSpec(b.rollNumber);
    FirstDigitRunSpec(c.rollNumber);
    if order == ReportOrder {
      var pa, pb, pc := ParseRoll(a.rollNumber), ParseRoll(b.rollNumber), ParseRoll(c.rollNumber);
      if pa == pb == pc {
        StrLessTransitive(a.rollNumber, b.rollNumber, c.rollNumber);
      }
    }
  }

  /** Stable insertion of `x`: it goes after every element it does not strictly precede. */
  function Insert(order: RollOrder, x: Student, sorted: seq<Student>): (r: seq<Student>)
    ensures multiset(r) == multiset(sorted) + multiset{x}
  {
    if sorted == [] || Precedes(order, x, sorted[0]) then [x] + sorted
    else
      assert sorted == [sorted[0]] + sorted[1..];
      [sorted[0]] + Insert(order, x, sorted[1..])
  }

  /** `[...students].sort(comparator)`: a stable sort of a copy. */
  function SortBy(order: RollOrder, s: seq<Student>): (r: seq<Student>)
    ensures multiset(r) == multiset(s)
  {
    if s == [] then []
    else
      assert s == s[..|s| - 1] + [s[|s| - 1]];
      Insert(order, s[|s| - 1], SortBy(order, s[..|s| - 1]))
  }

  /** No element is strictly preceded by a later one. */
  ghost predicate Ordered(order: RollOrder, r: seq<Student>) {
    forall i, j :: 0 <= i < j < |r| ==> !Precedes(order, r[j], r[i])
  }

  lemma {:induction false} InsertOrdered(order: RollOrder, x: Student, sorted: seq<Student>)
    requires Ordered(order, sorted)
    requires Comparable(order, x) && forall y :: y in sorted ==> Comparable(order, y)
    ensures Ordered(order, Insert(order, x, sorted))
  {
    var r := Insert(order, x, sorted);
    if sorted == [] {
    } else if Precedes(order, x, sorted[0]) {
      forall i, j | 0 <= i < j < |r| ensures !Precedes(order, r[j], r[i]) {
        if i == 0 {
          if Precedes(order, r[j], x) {
            if j == 1 {
              PrecedesTransitive(order, x, sorted[0], x);
              PrecedesIrreflexive(order, x);
            } else {
              PrecedesTransitive(order, r[j], x, sorted[0]);
            }
          }
        }
      }
    } else {
      var tail := Insert(order, x, sorted[1..]);
      InsertOrdered(order, x, sorted[1..]);
      forall i, j | 0 <= i < j < |r| ensures !Precedes(order, r[j], r[i]) {
        if i == 0 {
          assert r[j] == tail[j - 1];
          assert r[j] in multiset(tail);
          if r[j] != x {
            assert r[j] in sorted[1..];
            var k :| 1 <= k < |sorted| && sorted[k] == r[j];
          }
        }
      }
    }
  }

  /** Sorting with a comparator that is a strict order on the elements yields an ordered roster. */
  lemma {:induction false} SortByOrdered(order: RollOrder, s: seq<Student>)
    requires forall y :: y in s ==> Comparable(order, y)
    ensures Ordered(order, SortBy(order, s))
  {
    if s != [] {
      var init := s[..|s| - 1];
      SortByOrdered(order, init);
      forall y | y in SortBy(order, init) ensures Comparable(order, y) {
        assert y in multiset(SortBy(order, init));
      }
      InsertOrdered(order, s[|s| - 1], SortBy(order, init));
    }
  }

  /** The report pages' `sortedStudents`. */
  function SortByRoll(students: seq<Student>): seq<Student> {
    SortBy(ReportOrder, students)
  }

  /**
   * `sortedStudents` is a permutation of the roster, ordered by `(parseRoll, raw label)`,
   * and a label with no digit never precedes one whose value is below the sentinel.
   */
  lemma SortByRollSpec(students: seq<Student>)
    ensures multiset(SortByRoll(students)) == multiset(students)
    ensures var r := SortByRoll(students);
      forall i, j :: 0 <= i < j < |r| ==>
        && ParseRoll(r[i].rollNumber) <= ParseRoll(r[j].rollNumber)
        && (ParseRoll(r[i].rollNumber) == ParseRoll(r[j].rollNumber) ==>
              r[i].rollNumber == r[j].rollNumber || StrLess(r[i].rollNumber, r[j].rollNumber))
    ensures var r := SortByRoll(students);
      forall i, j :: 0 <= i < j < |r| && !HasDigit(r[i].rollNumber) && ParseRoll(r[j].rollNumber) < MaxSafeInteger ==> false
  {
    var r := SortByRoll(students);
    SortByOrdered(ReportOrder, students);
    forall i, j | 0 <= i < j < |r|
      ensures ParseRoll(r[i].rollNumber) == ParseRoll(r[j].rollNumber) ==>
                r[i].rollNumber == r[j].rollNumber || StrLess(r[i].rollNumber, r[j].rollNumber)
    {
      StrLessTotal(r[i].rollNumber, r[j].rollNumber);
    }
    forall i, j | 0 <= i < j < |r| && !HasDigit(r[i].rollNumber)
      ensures ParseRoll(r[j].rollNumber) >= MaxSafeInteger
    {
      ParseRollSpec(r[i].rollNumber);
    }
  }

  /** Every label has a number, and the numbers do not decrease along the roster. */
  ghost predicate NumericallyOrdered(r: seq<Student>) {
    (forall k :: 0 <= k < |r| ==> MigrationNumber(r[k].rollNumber).Some?) &&
    forall i, j :: 0 <= i < j < |r| ==>
      MigrationNumber(r[i].rollNumber).value <= MigrationNumber(r[j].rollNumber).value
  }

  /** When every label has a digit, the migration's sort orders the roster by nondecreasing number. */
  lemma MigrationSortSpec(students: seq<Student>)
    requires forall s :: s in students ==> HasDigit(s.rollNumber)
    ensures multiset(SortBy(MigrationOrder, students)) == multiset(students)
    ensures NumericallyOrdered(SortBy(MigrationOrder, students))
  {
    var r := SortBy(MigrationOrder, students);
    SortByOrdered(MigrationOrder, students);
    forall k | 0 <= k < |r| ensures MigrationNumber(r[k].rollNumber).Some? {
      assert r[k] in multiset(students);
      ParseRollSpec(r[k].rollNumber);
    }
  }
}

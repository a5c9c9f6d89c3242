/** Id allocation shared by both services. The "next id" is computed as
    `ids.sort().reverse()[0]`, then `last ? last + 1 : 1`. A `sort()` without a
    comparator orders the numbers by their decimal strings, so the "last" id
    is the lexicographically largest one, not the numeric maximum. */
module IdAllocation {

  /** The character of a decimal digit. */
  function DigitChar(d: nat): (c: char)
    requires d < 10
    ensures '0' <= c <= '9'
    ensures c as int - '0' as int == d
  {
    ('0' as int + d) as char
  }

  /** The numeric value of a digit character. */
  function DigitValue(c: char): (d: nat)
    requires '0' <= c <= '9'
    ensures d < 10 && DigitChar(d) == c
  {
    c as int - '0' as int
  }

  predicate IsDigits(s: string)
  {
    forall i :: 0 <= i < |s| ==> '0' <= s[i] <= '9'
  }

  /** `String(n)` for a non-negative integer: its decimal digits, no leading zero. */
  function Decimal(n: nat): (s: string)
    ensures |s| >= 1 && IsDigits(s)
    ensures (s[0] == '0') <==> (n == 0)
    ensures (|s| == 1) <==> (n < 10)
  {
    if n < 10 then [DigitChar(n)] else Decimal(n / 10) + [DigitChar(n % 10)]
  }

  /** Reads a string of decimal digits back as a number. */
  function Value(s: string): (n: nat)
    requires IsDigits(s)
  {
    if |s| == 0 then 0 else 10 * Value(s[..|s| - 1]) + DigitValue(s[|s| - 1])
  }

  /** `Value` undoes `Decimal`, so distinct ids have distinct strings. */
  lemma {:induction false} ValueOfDecimal(n: nat)
    ensures Value(Decimal(n)) == n
  {
    var s := Decimal(n);
    if n < 10 {
      assert s[..|s| - 1] == [];
    } else {
      assert s[..|s| - 1] == Decimal(n / 10);
      ValueOfDecimal(n / 10);
    }
  }

  lemma DecimalInjective(a: nat, b: nat)
    requires Decimal(a) == Decimal(b)
    ensures a == b
  {
    ValueOfDecimal(a);
    ValueOfDecimal(b);
  }

  /** The order JavaScript's default `sort()` uses on strings: code unit by code
      unit, a proper prefix coming first. */
  predicate LexLess(a: string, b: string)
    ensures a == b ==> !LexLess(a, b)
    ensures |a| < |b| && a == b[..|a|] ==> LexLess(a, b)
  {
    if |a| == 0 then |b| > 0
    else if |b| == 0 then false
    else a[0] < b[0] || (a[0] == b[0] && LexLess(a[1..], b[1..]))
  }

  lemma {:induction false} LexLessIrreflexive(a: string)
    ensures !LexLess(a, a)
  {
    if |a| > 0 {
      LexLessIrreflexive(a[1..]);
    }
  }

  lemma {:induction false} LexLessTransitive(a: string, b: string, c: string)
    requires LexLess(a, b) && LexLess(b, c)
    ensures LexLess(a, c)
  {
    if |a| > 0 && a[0] == b[0] && b[0] == c[0] {
      LexLessTransitive(a[1..], b[1..], c[1..]);
    }
  }

  lemma {:induction false} LexLessTotal(a: string, b: string)
    requires a != b
    ensures LexLess(a, b) || LexLess(b, a)
  {
    if |a| > 0 && |b| > 0 && a[0] == b[0] {
      LexLessTotal(a[1..], b[1..]);
    }
  }

  /** The order in which `sort()` places two ids. */
  predicate SortsBefore(x: nat, y: nat)
  {
    LexLess(Decimal(x), Decimal(y))
  }

  /** `ids.sort().reverse()[0]` on a non-empty array: the id that sorts last. */
  function LexMax(ids: seq<nat>): (m: nat)
    requires |ids| > 0
    ensures m in ids
  {
    if |ids| == 1 then ids[0]
    else
      var m := LexMax(ids[..|ids| - 1]);
      if SortsBefore(m, ids[|ids| - 1]) then ids[|ids| - 1] else m
  }

  /** No id sorts after LexMax. */
  lemma {:induction false} LexMaxIsGreatest(ids: seq<nat>)
    requires |ids| > 0
    ensures forall i :: 0 <= i < |ids| ==> !SortsBefore(LexMax(ids), ids[i])
  {
    if |ids| == 1 {
      LexLessIrreflexive(Decimal(ids[0]));
    } else {
      var front, last := ids[..|ids| - 1], ids[|ids| - 1];
      var m := LexMax(front);
      LexMaxIsGreatest(front);
      LexLessIrreflexive(Decimal(last));
      if SortsBefore(m, last) {
        forall i | 0 <= i < |ids| - 1 ensures !SortsBefore(last, ids[i]) {
          assert ids[i] == front[i];
          if SortsBefore(last, ids[i]) {
            LexLessTransitive(Decimal(m), Decimal(last), Decimal(ids[i]));
          }
        }
      } else {
        forall i | 0 <= i < |ids| - 1 ensures !SortsBefore(m, ids[i]) {
          assert ids[i] == front[i];
        }
      }
    }
  }

  /** The id that sorts last is determined: any id of the array that nothing
      sorts after is LexMax, so the sort's tie-breaking does not matter. */
  lemma LexMaxUnique(ids: seq<nat>, m: nat)
    requires m in ids
    requires forall i :: 0 <= i < |ids| ==> !SortsBefore(m, ids[i])
    ensures LexMax(ids) == m
  {
    var l := LexMax(ids);
    LexMaxIsGreatest(ids);
    var k :| 0 <= k < |ids| && ids[k] == l;
    var j :| 0 <= j < |ids| && ids[j] == m;
    assert !SortsBefore(m, ids[k]) && !SortsBefore(l, ids[j]);
    if Decimal(l) != Decimal(m) {
      LexLessTotal(Decimal(l), Decimal(m));
    }
    DecimalInjective(l, m);
  }

  /** `last ? last + 1 : 1`: an empty array (or a last id 0, which is falsy) gives 1. */
  function NextId(ids: seq<nat>): (r: nat)
    ensures r >= 1
  {
    if |ids| == 0 then 1
    else
      var last := LexMax(ids);
      if last == 0 then 1 else last + 1
  }

  /** The hypothesis under which allocation is sound: the id that sorts last is
      also the numerically largest. */
  predicate SortAgreesWithMax(ids: seq<nat>)
  {
    |ids| == 0 || forall i :: 0 <= i < |ids| ==> ids[i] <= LexMax(ids)
  }

  /** While the sort agrees with the numeric order, the next id exceeds every
      existing id, so it is fresh. */
  lemma NextIdFresh(ids: seq<nat>)
    requires SortAgreesWithMax(ids)
    ensures forall i :: 0 <= i < |ids| ==> ids[i] < NextId(ids)
    ensures NextId(ids) !in ids
  {
  }

  lemma SingleDigitOrder(x: nat, y: nat)
    requires x < 10 && y < 10
    ensures SortsBefore(x, y) <==> x < y
  {
    assert Decimal(x) == [DigitChar(x)] && Decimal(y) == [DigitChar(y)];
    assert Decimal(x)[1..] == [] == Decimal(y)[1..];
    assert !LexLess([], []);
    assert (DigitChar(x) < DigitChar(y)) <==> x < y;
  }

  /** Ids below 10 are single digits, whose string order is the numeric order. */
  lemma SingleDigitIdsAgree(ids: seq<nat>)
    requires forall i :: 0 <= i < |ids| ==> ids[i] < 10
    ensures SortAgreesWithMax(ids)
  {
    if |ids| > 0 {
      var m := LexMax(ids);
      LexMaxIsGreatest(ids);
      forall i | 0 <= i < |ids| ensures ids[i] <= m {
        SingleDigitOrder(m, ids[i]);
      }
    }
  }

  /** Ids between 10 and 89 start with a digit below '9', so they sort before 9. */
  lemma SortsBeforeNine(x: nat)
    requires 1 <= x <= 89 && x != 9
    ensures SortsBefore(x, 9)
  {
    assert Decimal(9) == ['9'];
    if x >= 10 {
      assert Decimal(x)[0] == Decimal(x / 10)[0];
      assert Decimal(x / 10) == [DigitChar(x / 10)];
    }
  }

  /** Once ids 9 and 10 exist (and none reaches 90), every further id is 10
      again: "9" sorts after "10", "11", ..., "89". */
  lemma NextIdStuckAtTen(ids: seq<nat>)
    requires 9 in ids
    requires forall i :: 0 <= i < |ids| ==> 1 <= ids[i] <= 89
    ensures NextId(ids) == 10
  {
    forall i | 0 <= i < |ids| ensures !SortsBefore(9, ids[i]) {
      if ids[i] == 9 {
        LexLessIrreflexive(Decimal(9));
      } else {
        SortsBeforeNine(ids[i]);
        if SortsBefore(9, ids[i]) {
          LexLessTransitive(Decimal(9), Decimal(ids[i]), Decimal(9));
        }
      }
    }
    LexMaxUnique(ids, 9);
  }

  /** The ids 1..10 get 10 as their next id: a repeat. */
  lemma NextIdRepeatsAfterTen()
    ensures NextId([1, 2, 3, 4, 5, 6, 7, 8, 9, 10]) == 10
    ensures !SortAgreesWithMax([1, 2, 3, 4, 5, 6, 7, 8, 9, 10])
  {
    var ids: seq<nat> := [1, 2, 3, 4, 5, 6, 7, 8, 9, 10];
    assert ids[8] == 9;
    NextIdStuckAtTen(ids);
    assert ids[9] == 10;
  }
}

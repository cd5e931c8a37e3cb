/**
 * `getcenturyfordates`: a year bound turned into the list of 1-indexed
 * century numbers it is attributed to. Century N is the years
 * (N-1)*100 .. N*100-1, so a year y lies in century y / 100 + 1 (floor
 * division, which Dafny's `/` by a positive number is too).
 *
 * This module is the value the source computes; the side effect of the
 * source function (recording the person as problematic when `Coarse`
 * holds) is the method `KnowledgeBase.KB.CenturyForDates`.
 */
module Centuries {

  /** The century number of a year. */
  function CenturyOf(year: int): int { year / 100 + 1 }

  /** `from, from+1, ..., to`. */
  function Consecutive(from: int, to: int): (r: seq<int>)
    requires from <= to + 1
    ensures |r| == to - from + 1
    ensures forall i :: 0 <= i < |r| ==> r[i] == from + i
  {
    seq(to - from + 1, i => from + i)
  }

  /**
   * More than three centuries between the two bounds: the evidence is too
   * coarse, the source records the person in `kb["problematic"]`.
   */
  predicate Coarse(taq: int, tpq: int): (r: bool)
    ensures r <==> CenturyOf(tpq) - CenturyOf(taq) >= 4
  {
    tpq / 100 - taq / 100 > 3
  }

  /**
   * The centuries a bound is attributed to. The source's float test
   * `ratio < 0.2` with `ratio = yearsInFirst / yearsInSecond` is written
   * `5 * yearsInFirst < yearsInSecond` and `ratio > 5` is written
   * `yearsInFirst > 5 * yearsInSecond`; both are exact because that
   * branch has `yearsInSecond > 0` (see `AdjacentShares`).
   */
  function Classify(taq: int, tpq: int): (r: seq<int>)
    ensures |r| <= 4
    ensures r != [] <==> taq / 100 <= tpq / 100
  {
    var firstc := taq / 100;
    var secondc := tpq / 100;
    var diff := secondc - firstc;
    if diff == 0 then [firstc + 1]
    else if 1 < diff < 4 then Consecutive(firstc + 1, secondc + 1)
    else if diff > 3 then [secondc]
    else if diff == 1 then
      var yearsInFirst := 100 * secondc - taq;
      var yearsInSecond := tpq - 100 * secondc;
      if yearsInSecond == 0 then [firstc + 1]
      else if 5 * yearsInFirst < yearsInSecond then [secondc + 1]
      else if yearsInFirst > 5 * yearsInSecond then [firstc + 1]
      else [secondc + 1, firstc + 1]
    else []
  }

  // ---- The branches ----

  lemma SameCentury(taq: int, tpq: int)
    requires taq / 100 == tpq / 100
    ensures Classify(taq, tpq) == [CenturyOf(taq)] && !Coarse(taq, tpq)
  {
  }

  /** Two or three centuries apart: every century from the first to the last, ascending. */
  lemma SeveralCenturies(taq: int, tpq: int)
    requires 2 <= tpq / 100 - taq / 100 <= 3
    ensures var r := Classify(taq, tpq);
            && |r| == tpq / 100 - taq / 100 + 1
            && r[0] == CenturyOf(taq) && r[|r| - 1] == CenturyOf(tpq)
            && (forall i :: 0 < i < |r| ==> r[i] == r[i - 1] + 1)
            && !Coarse(taq, tpq)
  {
  }

  /** More than three centuries apart: one century, `secondc` and not `secondc + 1`. */
  lemma CoarseFallback(taq: int, tpq: int)
    requires Coarse(taq, tpq)
    ensures Classify(taq, tpq) == [tpq / 100]
    ensures Classify(taq, tpq) == [CenturyOf(tpq) - 1]
  {
  }

  /** An upper century before the lower century: nothing. */
  lemma ReversedBound(taq: int, tpq: int)
    requires tpq / 100 < taq / 100
    ensures Classify(taq, tpq) == [] && !Coarse(taq, tpq)
  {
  }

  /**
   * In the adjacent-centuries branch the two shares are small positive
   * year counts, which is why the ratio can be compared exactly with
   * integers: the first share is 1..100 years, the second 0..99.
   */
  lemma AdjacentShares(taq: int, tpq: int)
    requires tpq / 100 - taq / 100 == 1
    ensures var secondc := tpq / 100;
            1 <= 100 * secondc - taq <= 100 && 0 <= tpq - 100 * secondc <= 99
  {
  }

  /**
   * Adjacent centuries: the proportional tie-break. A bound ending exactly
   * on the century boundary counts as the first century; otherwise the
   * side with more than five times the other's years wins, and a genuine
   * split gives the later century first, then the earlier.
   */
  lemma AdjacentCenturies(taq: int, tpq: int)
    requires tpq / 100 - taq / 100 == 1
    ensures var secondc := tpq / 100;
            var yearsInFirst := 100 * secondc - taq;
            var yearsInSecond := tpq - 100 * secondc;
            && (yearsInSecond == 0 ==> Classify(taq, tpq) == [CenturyOf(taq)])
            && (yearsInSecond > 0 && 5 * yearsInFirst < yearsInSecond ==> Classify(taq, tpq) == [CenturyOf(tpq)])
            && (yearsInSecond > 0 && yearsInFirst > 5 * yearsInSecond ==> Classify(taq, tpq) == [CenturyOf(taq)])
            && (yearsInSecond > 0 && yearsInSecond <= 5 * yearsInFirst && yearsInFirst <= 5 * yearsInSecond ==>
                  Classify(taq, tpq) == [CenturyOf(tpq), CenturyOf(taq)])
            && !Coarse(taq, tpq)
  {
  }

  /**
   * For an ordered bound, every century returned contains a year of the
   * bound, so the classifier never invents a century outside the
   * evidence, the coarse fallback included. (A bound whose lower year is
   * after its upper year but in the same century still gets that century.)
   */
  lemma ClassifyWithinBound(taq: int, tpq: int, c: int)
    requires taq <= tpq && c in Classify(taq, tpq)
    ensures exists y :: taq <= y <= tpq && CenturyOf(y) == c
  {
    var firstc, secondc := taq / 100, tpq / 100;
    var diff := secondc - firstc;
    if diff == 0 {
      assert CenturyOf(taq) == c;
    } else if 1 < diff < 4 {
      var r := Classify(taq, tpq);
      var i :| 0 <= i < |r| && r[i] == c;
      var y := if i == 0 then taq else 100 * (firstc + i);
      assert taq <= y <= tpq && CenturyOf(y) == c;
    } else if diff > 3 {
      var y := 100 * (secondc - 1);
      assert taq <= y <= tpq && CenturyOf(y) == c;
    } else {
      if c == firstc + 1 {
        assert CenturyOf(taq) == c;
      } else {
        assert CenturyOf(tpq) == c;
      }
    }
  }

  /** No century is returned twice. */
  lemma ClassifyDistinct(taq: int, tpq: int)
    ensures var r := Classify(taq, tpq);
            forall i, j :: 0 <= i < j < |r| ==> r[i] != r[j]
  {
  }

  /** The values of the eight calls in the source's `testgetc`, which only prints them. */
  lemma TestGetcCases()
    ensures Classify(1550, 1590) == [16]
    ensures Classify(1550, 1600) == [16]
    ensures Classify(1550, 1603) == [16]
    ensures Classify(1550, 1650) == [17, 16]
    ensures Classify(1250, 1650) == [16] && Coarse(1250, 1650)
    ensures Classify(1500, 1599) == [16]
    ensures Classify(1700, 1899) == [19, 18]
    ensures Classify(1990, 1990) == [20]
  {
  }
}

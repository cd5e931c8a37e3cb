/**
 * `getsimpledates`: a person's events merged into one bound. Every
 * `eventWhen` string is parsed; a lower bound that reads as an integer can
 * lower the running minimum, an upper bound that reads as an integer can
 * raise the running maximum, and strings that do not read as integers are
 * skipped (the source only logs them). The running pair starts at the
 * sentinel (9999, 0).
 */
module PersonDates {
  import opened Options
  import opened Text
  import opened EventWhen

  /** The earliest and the latest year of a person's evidence. */
  datatype DateBound = DateBound(lo: int, hi: int)

  /** The starting pair, and the result when no event gives a usable year. */
  const NoEvidence := DateBound(9999, 0)

  /** The years one event contributes: each bound that reads as an integer. */
  datatype Years = Years(lower: Option<int>, upper: Option<int>)

  function ParseBound(s: Option<string>): Option<int>
  {
    match s
    case None => None
    case Some(v) => ParseInt(v)
  }

  /** `eventWhenToYears` followed by `int()` on each bound it returns. */
  function YearsOf(ew: string): Years
  {
    var y := EventWhenToYears(ew);
    Years(ParseBound(y.notBefore), ParseBound(y.notAfter))
  }

  function LowerYear(ew: string): Option<int> { YearsOf(ew).lower }

  function UpperYear(ew: string): Option<int> { YearsOf(ew).upper }

  function Min(a: int, b: int): int { if a <= b then a else b }

  function Max(a: int, b: int): int { if a >= b then a else b }

  /** One event's years folded into the running bound. */
  function Merge(b: DateBound, y: Years): (r: DateBound)
    ensures r.lo <= b.lo && r.hi >= b.hi
    ensures y.lower.Some? ==> r.lo <= y.lower.value
    ensures y.upper.Some? ==> r.hi >= y.upper.value
    ensures r.lo == b.lo || y.lower == Some(r.lo)
    ensures r.hi == b.hi || y.upper == Some(r.hi)
  {
    DateBound(
      match y.lower case None => b.lo case Some(v) => Min(b.lo, v),
      match y.upper case None => b.hi case Some(v) => Max(b.hi, v))
  }

  /** The running bound after a list of contributions, from the sentinel on. */
  function MergeAll(ys: seq<Years>): DateBound
  {
    if ys == [] then NoEvidence
    else Merge(MergeAll(ys[..|ys| - 1]), ys[|ys| - 1])
  }

  /** The contributions of a list of `eventWhen` strings, in order. */
  function YearsList(events: seq<string>): (ys: seq<Years>)
    ensures |ys| == |events|
    ensures forall i :: 0 <= i < |events| ==> ys[i] == YearsOf(events[i])
  {
    seq(|events|, i requires 0 <= i < |events| => YearsOf(events[i]))
  }

  /**
   * The bound `getsimpledates` computes from a person's `eventWhen`
   * strings: no lower year above the sentinel 9999 or above any usable
   * lower year, no upper year below 0 or below any usable upper year
   * (`MergeDatesExtremes` adds that both are attained).
   */
  function MergeDates(events: seq<string>): (b: DateBound)
    ensures b.lo <= 9999 && b.hi >= 0
    ensures forall i :: 0 <= i < |events| && LowerYear(events[i]).Some? ==> b.lo <= LowerYear(events[i]).value
    ensures forall i :: 0 <= i < |events| && UpperYear(events[i]).Some? ==> UpperYear(events[i]).value <= b.hi
  {
    MergeAllExtremes(YearsList(events));
    MergeAll(YearsList(events))
  }

  /**
   * The merged bound is the least usable lower year (or 9999 when there
   * is none below it) and the greatest usable upper year (or 0).
   */
  lemma {:induction false} MergeAllExtremes(ys: seq<Years>)
    ensures var b := MergeAll(ys);
            && b.lo <= 9999 && b.hi >= 0
            && (forall i :: 0 <= i < |ys| && ys[i].lower.Some? ==> b.lo <= ys[i].lower.value)
            && (forall i :: 0 <= i < |ys| && ys[i].upper.Some? ==> ys[i].upper.value <= b.hi)
            && (b.lo == 9999 || exists i :: 0 <= i < |ys| && ys[i].lower == Some(b.lo))
            && (b.hi == 0 || exists i :: 0 <= i < |ys| && ys[i].upper == Some(b.hi))
  {
    if ys != [] {
      var n := |ys| - 1;
      var pre := ys[..n];
      MergeAllExtremes(pre);
      assert forall i :: 0 <= i < n ==> pre[i] == ys[i];
      var prev := MergeAll(pre);
      var b := MergeAll(ys);
      assert b == Merge(prev, ys[n]);
      if ys[n].lower.Some? && ys[n].lower.value < prev.lo {
        assert b.lo == ys[n].lower.value;
      } else if prev.lo != 9999 {
        var j :| 0 <= j < n && pre[j].lower == Some(prev.lo);
        assert ys[j].lower == Some(b.lo);
      }
      if ys[n].upper.Some? && ys[n].upper.value > prev.hi {
        assert b.hi == ys[n].upper.value;
      } else if prev.hi != 0 {
        var j :| 0 <= j < n && pre[j].upper == Some(prev.hi);
        assert ys[j].upper == Some(b.hi);
      }
    }
  }

  /** The same, for the `eventWhen` strings themselves. */
  lemma MergeDatesExtremes(events: seq<string>)
    ensures var b := MergeDates(events);
            && b.lo <= 9999 && b.hi >= 0
            && (forall i :: 0 <= i < |events| && LowerYear(events[i]).Some? ==> b.lo <= LowerYear(events[i]).value)
            && (forall i :: 0 <= i < |events| && UpperYear(events[i]).Some? ==> UpperYear(events[i]).value <= b.hi)
            && (b.lo == 9999 || exists i :: 0 <= i < |events| && LowerYear(events[i]) == Some(b.lo))
            && (b.hi == 0 || exists i :: 0 <= i < |events| && UpperYear(events[i]) == Some(b.hi))
  {
    var ys := YearsList(events);
    MergeAllExtremes(ys);
    var b := MergeAll(ys);
    if b.lo != 9999 {
      var j :| 0 <= j < |ys| && ys[j].lower == Some(b.lo);
      assert LowerYear(events[j]) == Some(b.lo);
    }
    if b.hi != 0 {
      var j :| 0 <= j < |ys| && ys[j].upper == Some(b.hi);
      assert UpperYear(events[j]) == Some(b.hi);
    }
  }

  /** One more event merges one more contribution into the running bound. */
  lemma YearsListStep(events: seq<string>, i: nat)
    requires i < |events|
    ensures MergeAll(YearsList(events[..i + 1])) == Merge(MergeAll(YearsList(events[..i])), YearsOf(events[i]))
  {
    var ys := YearsList(events[..i + 1]);
    assert ys[..i] == YearsList(events[..i]);
  }

  /** The loop of `getsimpledates`, over the `eventWhen` values of all events. */
  method SimpleDates(events: seq<string>) returns (b: DateBound)
    ensures b == MergeDates(events)
  {
    var gnb, gna := 9999, 0;
    for i := 0 to |events|
      invariant DateBound(gnb, gna) == MergeAll(YearsList(events[..i]))
    {
      var years := EventWhenToYears(events[i]);
      if years.notBefore.Some? {
        var v := ParseInt(years.notBefore.value);
        if v.Some? {
          gnb := Min(gnb, v.value);
        }
      }
      if years.notAfter.Some? {
        var v := ParseInt(years.notAfter.value);
        if v.Some? {
          gna := Max(gna, v.value);
        }
      }
      YearsListStep(events, i);
    }
    assert events[..|events|] == events;
    b := DateBound(gnb, gna);
  }

  /** Without a single usable year the result is exactly the sentinel. */
  lemma NoUsableYear(events: seq<string>)
    requires forall i :: 0 <= i < |events| ==> LowerYear(events[i]).None? && UpperYear(events[i]).None?
    ensures MergeDates(events) == NoEvidence
  {
    MergeDatesExtremes(events);
  }

  /** Two consecutive events can be merged in either order. */
  lemma {:induction false} MergeCommutes(b: DateBound, e1: Years, e2: Years)
    ensures Merge(Merge(b, e1), e2) == Merge(Merge(b, e2), e1)
  {
  }

  /**
   * Neither the order of the events nor repeated events matter: two lists
   * of `eventWhen` strings with the same members give the same bound. The
   * graph's triples come in no fixed order, so this is what makes the
   * result well defined.
   */
  lemma MergeDatesOrderIrrelevant(e1: seq<string>, e2: seq<string>)
    requires forall e :: e in e1 <==> e in e2
    ensures MergeDates(e1) == MergeDates(e2)
  {
    MergeDatesCovers(e1, e2);
    MergeDatesCovers(e2, e1);
  }

  /** More events can only widen the bound. */
  lemma MergeDatesCovers(e1: seq<string>, e2: seq<string>)
    requires forall e :: e in e2 ==> e in e1
    ensures MergeDates(e1).lo <= MergeDates(e2).lo && MergeDates(e1).hi >= MergeDates(e2).hi
  {
    MergeDatesExtremes(e2);
    var b1, b2 := MergeDates(e1), MergeDates(e2);
    if b2.lo != 9999 {
      var j :| 0 <= j < |e2| && LowerYear(e2[j]) == Some(b2.lo);
      assert e2[j] in e1;
      var i :| 0 <= i < |e1| && e1[i] == e2[j];
      assert b1.lo <= LowerYear(e1[i]).value;
    }
    if b2.hi != 0 {
      var j :| 0 <= j < |e2| && UpperYear(e2[j]) == Some(b2.hi);
      assert e2[j] in e1;
      var i :| 0 <= i < |e1| && e1[i] == e2[j];
      assert b1.hi >= UpperYear(e1[i]).value;
    }
  }

  /** A two-digit century "dd" stands for the years dd00 to dd99. */
  lemma CenturyShorthandYears(raw: string)
    requires |StripMarkers(raw)| == 2 && AllDigits(StripMarkers(raw))
    ensures var c := DigitsValue(StripMarkers(raw));
            LowerYear(raw) == Some(100 * c) && UpperYear(raw) == Some(100 * c + 99)
  {
    var t := StripMarkers(raw);
    CenturyShorthand(raw);
    var lo, hi := t + "00", t + "99";
    assert lo[..3][..2] == t && hi[..3][..2] == t;
    assert AllDigits(lo) && AllDigits(hi);
    assert DigitsValue(lo) == 10 * DigitsValue(lo[..3]);
    assert DigitsValue(hi) == 10 * DigitsValue(hi[..3]) + 9;
  }

  /**
   * A non-empty pattern of digits and placeholders reads as two integers,
   * the X-as-0 reading no larger than the X-as-9 reading.
   */
  lemma PatternYears(t: string)
    requires |t| > 0 && IsPattern(t)
    ensures ParseInt(Low(t)).Some? && ParseInt(High(t)).Some?
    ensures ParseInt(Low(t)).value <= ParseInt(High(t)).value
  {
    PlaceholderBounds(t);
    assert ParseInt(Low(t)) == Some(DigitsValue(Low(t)));
    assert ParseInt(High(t)) == Some(DigitsValue(High(t)));
  }

  /**
   * A short token of digits and placeholders (a year such as "1550" or a
   * partial year such as "155X") gives two usable years, the lower no
   * later than the upper.
   */
  lemma ShortTokenOrdered(raw: string)
    requires var t := StripMarkers(raw); 0 < |t| < 6 && |t| != 2 && IsPattern(t)
    ensures LowerYear(raw).Some? && UpperYear(raw).Some?
    ensures LowerYear(raw).value <= UpperYear(raw).value
  {
    var t := StripMarkers(raw);
    ShortToken(raw);
    PatternYears(t);
    if 'X' !in t {
      assert Low(t) == t && High(t) == t;
    }
  }

  /**
   * An interval with one side blank ("/1650" or "1550/") keeps its slash in the string it
   * returns, so neither of its bounds reads as an integer and the event
   * contributes no year at all.
   */
  lemma OpenRangeUnusable(raw: string)
    requires var t := StripMarkers(raw);
             |t| != 2 && |t| > 0 && (t[0] == '/' || t[|t| - 1] == '/')
    ensures LowerYear(raw).None? && UpperYear(raw).None?
  {
    var t := StripMarkers(raw);
    if t[0] == '/' {
      OpenStart(raw);
      if ParseInt(High(t)).Some? {
        ParsedCharacters(High(t));
      }
    } else {
      OpenEnd(raw);
      if ParseInt(Low(t)).Some? {
        ParsedCharacters(Low(t));
      }
    }
  }
}

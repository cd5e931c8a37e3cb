/**
 * `eventWhenToYears`: an EDTF-like fuzzy date string turned into a pair of
 * optional strings, the earliest ("not before") and the latest ("not
 * after") year it allows. The strings are not checked here; the caller
 * reads them as integers and drops the ones that are not.
 */
module EventWhen {
  import opened Options
  import opened Text

  datatype YearStrings = YearStrings(notBefore: Option<string>, notAfter: Option<string>)

  /** No uncertainty (`?`), approximation (`~`) or `%` marker left. */
  predicate Unmarked(s: string) {
    '?' !in s && '%' !in s && '~' !in s
  }

  /** The three markers removed, everything else kept in order. */
  function StripMarkers(ew: string): (r: string)
    ensures Unmarked(r)
    ensures forall d :: d in r <==> d in ew && d != '?' && d != '%' && d != '~'
  {
    Remove(Remove(Remove(ew, '?'), '%'), '~')
  }

  /** Exactly the markers go; every other character keeps its count. */
  lemma StripMarkersCounts(ew: string)
    ensures multiset(StripMarkers(ew)) == multiset(ew)['?' := 0]['%' := 0]['~' := 0]
  {
    RemoveCounts(ew, '?');
    RemoveCounts(Remove(ew, '?'), '%');
    RemoveCounts(Remove(Remove(ew, '?'), '%'), '~');
  }

  /**
   * Stripping works piece by piece, and a single character is dropped
   * exactly when it is a marker: so the kept characters stay in order.
   */
  lemma StripMarkersAppend(a: string, b: string)
    ensures StripMarkers(a + b) == StripMarkers(a) + StripMarkers(b)
  {
    RemoveAppend(a, b, '?');
    RemoveAppend(Remove(a, '?'), Remove(b, '?'), '%');
    RemoveAppend(Remove(Remove(a, '?'), '%'), Remove(Remove(b, '?'), '%'), '~');
  }

  lemma StripMarkersChar(d: char)
    ensures StripMarkers([d]) == if d in "?%~" then [] else [d]
  {
    RemoveChar(d, '?');
    RemoveChar(d, '%');
    RemoveChar(d, '~');
  }

  /** The placeholder digit `X` read as its smallest value. */
  function Low(s: string): string { Replace(s, 'X', '0') }

  /** The placeholder digit `X` read as its largest value. */
  function High(s: string): string { Replace(s, 'X', '9') }

  function EventWhenToYears(raw: string): (r: YearStrings)
    ensures r.notBefore.Some? ==> Unmarked(r.notBefore.value)
    ensures r.notAfter.Some? ==> Unmarked(r.notAfter.value)
  {
    var ew := StripMarkers(raw);
    if |ew| == 2 then
      // the century shorthand "15"
      YearStrings(Some(ew + "00"), Some(ew + "99"))
    else if |ew| < 6 && '/' !in ew then
      if 'X' in ew then YearStrings(Some(Low(ew)), Some(High(ew)))
      else YearStrings(Some(ew), Some(ew))
    else if ew[0] == '/' then
      YearStrings(None, Some(High(ew)))
    else if ew[|ew| - 1] == '/' then
      YearStrings(Some(Low(ew)), None)
    else if '/' in ew then
      var pieces := Split(ew, '/');
      YearStrings(Some(Low(pieces[0])), Some(High(pieces[1])))
    else if ew[0] == '[' || ew[0] == '{' then
      var inner := ew[1..|ew| - 1];
      assert forall d :: d in inner ==> d in ew;
      var pieces := Split(inner, ',');
      YearStrings(Some(Low(pieces[0])), Some(High(pieces[|pieces| - 1])))
    else
      YearStrings(None, None)
  }

  // ---- The rules, one lemma per branch, in the order the source tests them ----

  lemma CenturyShorthand(raw: string)
    requires |StripMarkers(raw)| == 2
    ensures var t := StripMarkers(raw);
            EventWhenToYears(raw) == YearStrings(Some(t + "00"), Some(t + "99"))
  {
  }

  lemma ShortToken(raw: string)
    requires var t := StripMarkers(raw); |t| != 2 && |t| < 6 && '/' !in t
    ensures var t := StripMarkers(raw);
            EventWhenToYears(raw) ==
              if 'X' in t then YearStrings(Some(Low(t)), Some(High(t)))
              else YearStrings(Some(t), Some(t))
  {
  }

  lemma OpenStart(raw: string)
    requires var t := StripMarkers(raw); |t| != 2 && |t| > 0 && t[0] == '/'
    ensures EventWhenToYears(raw) == YearStrings(None, Some(High(StripMarkers(raw))))
  {
  }

  lemma OpenEnd(raw: string)
    requires var t := StripMarkers(raw); |t| != 2 && |t| > 0 && t[0] != '/' && t[|t| - 1] == '/'
    ensures EventWhenToYears(raw) == YearStrings(Some(Low(StripMarkers(raw))), None)
  {
  }

  lemma ClosedRange(raw: string)
    requires var t := StripMarkers(raw);
             |t| != 2 && |t| > 0 && t[0] != '/' && t[|t| - 1] != '/' && '/' in t
    ensures var pieces := Split(StripMarkers(raw), '/');
            |pieces| >= 2 &&
            EventWhenToYears(raw) == YearStrings(Some(Low(pieces[0])), Some(High(pieces[1])))
  {
  }

  lemma CandidateList(raw: string)
    requires var t := StripMarkers(raw); |t| >= 6 && '/' !in t && (t[0] == '[' || t[0] == '{')
    ensures var t := StripMarkers(raw);
            var pieces := Split(t[1..|t| - 1], ',');
            EventWhenToYears(raw) == YearStrings(Some(Low(pieces[0])), Some(High(pieces[|pieces| - 1])))
  {
  }

  lemma Unrecognised(raw: string)
    requires var t := StripMarkers(raw); |t| >= 6 && '/' !in t && t[0] != '[' && t[0] != '{'
    ensures EventWhenToYears(raw) == YearStrings(None, None)
  {
  }

  /** Digits and placeholders only. */
  predicate IsPattern(s: string) {
    forall i :: 0 <= i < |s| ==> IsDigit(s[i]) || s[i] == 'X'
  }

  /**
   * Reading every placeholder as 0 gives a number no larger than reading
   * every placeholder as 9, and both readings are plain digit strings.
   */
  lemma {:induction false} PlaceholderBounds(s: string)
    requires IsPattern(s)
    ensures AllDigits(Low(s)) && AllDigits(High(s))
    ensures DigitsValue(Low(s)) <= DigitsValue(High(s))
  {
    if s != [] {
      var n := |s| - 1;
      PlaceholderBounds(s[..n]);
      assert Low(s)[..n] == Low(s[..n]);
      assert High(s)[..n] == High(s[..n]);
    }
  }
}

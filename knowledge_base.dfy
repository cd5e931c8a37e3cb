/**
 * The knowledge base `kb` of createcache.py and the passes over it: the
 * record each person gets (`cacheforPfile`), the classification of the
 * dated persons with its histogram (`main`), and the propagation to the
 * persons that only have links (`addmissing`).
 *
 * In the source `kb` is one dictionary holding the person entries beside
 * the two keys "percentury" and "problematic"; here those are three fields.
 * A Python dictionary iterates in insertion order, so the person entries
 * are a map together with the sequence of their keys in that order.
 */
module KnowledgeBase {
  import opened Options
  import opened PersonDates
  import opened Centuries
  import opened Propagation
  import opened Histogram

  /** (target person, relation), as `getlinks` returns them. */
  type Link = (string, string)

  /** A person entry: `{"dates": [lo, hi]}` or `{"links": [...]}`. */
  datatype Record = Dates(bound: DateBound) | Links(links: seq<Link>)

  /**
   * The rule of `cacheforPfile`: a lower year still at the sentinel 9999
   * means the person has no dates and is stored with its links; anything
   * else is stored as dates, whatever the upper year is.
   */
  function RecordFor(b: DateBound, links: seq<Link>): (r: Record)
    ensures r.Dates? <==> b.lo != 9999
    ensures r.Dates? ==> r.bound == b
    ensures r.Links? ==> r.links == links
  {
    if b.lo == 9999 then Links(links) else Dates(b)
  }

  /**
   * A person is stored with dates exactly when one of its events gives a
   * usable lower year below 9999; an upper year alone is not enough.
   */
  lemma RecordRule(events: seq<string>, links: seq<Link>)
    ensures var r := RecordFor(MergeDates(events), links);
            && (r.Dates? <==> exists i :: 0 <= i < |events| && LowerYear(events[i]).Some? && LowerYear(events[i]).value < 9999)
            && (r.Dates? ==> r.bound == MergeDates(events))
            && (r.Links? ==> r.links == links)
  {
    MergeDatesExtremes(events);
  }

  /** The person keys: the entries whose name starts with "P". */
  predicate IsPersonKey(p: string) {
    |p| > 0 && p[0] == 'P'
  }

  predicate IsDated(t: map<string, Record>, p: string) {
    IsPersonKey(p) && p in t && t[p].Dates?
  }

  predicate IsLinksOnly(t: map<string, Record>, p: string) {
    IsPersonKey(p) && p in t && t[p].Links?
  }

  // ---- What the loop of `main` over the dated persons computes ----

  function DirectOf(t: map<string, Record>, p: string): seq<int>
  {
    if IsDated(t, p) then Classify(t[p].bound.lo, t[p].bound.hi) else []
  }

  /** The centuries of all dated persons, in key order. */
  function DirectCenturies(t: map<string, Record>, names: seq<string>): seq<int>
  {
    if names == [] then []
    else DirectCenturies(t, names[..|names| - 1]) + DirectOf(t, names[|names| - 1])
  }

  function DirectFlagOf(t: map<string, Record>, p: string): seq<string>
  {
    if IsDated(t, p) && Coarse(t[p].bound.lo, t[p].bound.hi) then [p] else []
  }

  /** The dated persons recorded as problematic, in key order. */
  function DirectFlags(t: map<string, Record>, names: seq<string>): seq<string>
  {
    if names == [] then []
    else DirectFlags(t, names[..|names| - 1]) + DirectFlagOf(t, names[|names| - 1])
  }

  function DatedCount(t: map<string, Record>, names: seq<string>): nat
  {
    if names == [] then 0
    else DatedCount(t, names[..|names| - 1]) + (if IsDated(t, names[|names| - 1]) then 1 else 0)
  }

  lemma DirectStep(t: map<string, Record>, names: seq<string>, i: nat)
    requires i < |names|
    ensures DirectCenturies(t, names[..i + 1]) == DirectCenturies(t, names[..i]) + DirectOf(t, names[i])
    ensures DirectFlags(t, names[..i + 1]) == DirectFlags(t, names[..i]) + DirectFlagOf(t, names[i])
    ensures DatedCount(t, names[..i + 1]) == DatedCount(t, names[..i]) + (if IsDated(t, names[i]) then 1 else 0)
  {
    assert names[..i + 1][..i] == names[..i];
  }

  // ---- What `addmissing` computes ----

  /** The bounds borrowed through the links whose target is dated, in link order. */
  function Borrowed(t: map<string, Record>, links: seq<Link>): seq<DateBound>
  {
    if links == [] then []
    else
      var l := links[|links| - 1];
      Borrowed(t, links[..|links| - 1]) +
      (if l.0 in t && t[l.0].Dates? then [Borrow(l.1, t[l.0].bound)] else [])
  }

  /** The centuries of a list of bounds, one list after the other. */
  function ClassifyAll(bs: seq<DateBound>): seq<int>
  {
    if bs == [] then []
    else ClassifyAll(bs[..|bs| - 1]) + Classify(bs[|bs| - 1].lo, bs[|bs| - 1].hi)
  }

  /** `p` once for every coarse bound of the list. */
  function Flags(p: string, bs: seq<DateBound>): seq<string>
  {
    if bs == [] then []
    else Flags(p, bs[..|bs| - 1]) + (if Coarse(bs[|bs| - 1].lo, bs[|bs| - 1].hi) then [p] else [])
  }

  function LinksOf(t: map<string, Record>, p: string): seq<Link>
  {
    if IsLinksOnly(t, p) then t[p].links else []
  }

  function PropagatedCenturies(t: map<string, Record>, names: seq<string>): seq<int>
  {
    if names == [] then []
    else
      var p := names[|names| - 1];
      PropagatedCenturies(t, names[..|names| - 1]) + ClassifyAll(Borrowed(t, LinksOf(t, p)))
  }

  function PropagatedFlags(t: map<string, Record>, names: seq<string>): seq<string>
  {
    if names == [] then []
    else
      var p := names[|names| - 1];
      PropagatedFlags(t, names[..|names| - 1]) + Flags(p, Borrowed(t, LinksOf(t, p)))
  }

  /** The links-only persons with at least one dated target. */
  function InferredCount(t: map<string, Record>, names: seq<string>): nat
  {
    if names == [] then 0
    else
      var p := names[|names| - 1];
      InferredCount(t, names[..|names| - 1]) + (if |Borrowed(t, LinksOf(t, p))| > 0 then 1 else 0)
  }

  function LinksOnlyCount(t: map<string, Record>, names: seq<string>): nat
  {
    if names == [] then 0
    else LinksOnlyCount(t, names[..|names| - 1]) + (if IsLinksOnly(t, names[|names| - 1]) then 1 else 0)
  }

  lemma BorrowedStep(t: map<string, Record>, links: seq<Link>, j: nat)
    requires j < |links|
    ensures Borrowed(t, links[..j + 1]) ==
            Borrowed(t, links[..j]) +
            (if links[j].0 in t && t[links[j].0].Dates? then [Borrow(links[j].1, t[links[j].0].bound)] else [])
  {
    assert links[..j + 1][..j] == links[..j];
  }

  lemma ClassifyAllSnoc(p: string, bs: seq<DateBound>, b: DateBound)
    ensures ClassifyAll(bs + [b]) == ClassifyAll(bs) + Classify(b.lo, b.hi)
    ensures Flags(p, bs + [b]) == Flags(p, bs) + (if Coarse(b.lo, b.hi) then [p] else [])
  {
    assert (bs + [b])[..|bs|] == bs;
  }

  lemma PropagatedStep(t: map<string, Record>, names: seq<string>, i: nat)
    requires i < |names|
    ensures PropagatedCenturies(t, names[..i + 1]) ==
            PropagatedCenturies(t, names[..i]) + ClassifyAll(Borrowed(t, LinksOf(t, names[i])))
    ensures PropagatedFlags(t, names[..i + 1]) ==
            PropagatedFlags(t, names[..i]) + Flags(names[i], Borrowed(t, LinksOf(t, names[i])))
    ensures InferredCount(t, names[..i + 1]) ==
            InferredCount(t, names[..i]) + (if |Borrowed(t, LinksOf(t, names[i]))| > 0 then 1 else 0)
  {
    assert names[..i + 1][..i] == names[..i];
  }

  /** A link contributes exactly when its target is present and dated. */
  lemma {:induction false} BorrowedNonEmpty(t: map<string, Record>, links: seq<Link>)
    ensures |Borrowed(t, links)| <= |links|
    ensures |Borrowed(t, links)| > 0 <==> exists i :: 0 <= i < |links| && links[i].0 in t && t[links[i].0].Dates?
  {
    if links != [] {
      var n := |links| - 1;
      BorrowedNonEmpty(t, links[..n]);
      assert forall i :: 0 <= i < n ==> links[..n][i] == links[i];
    }
  }

  /** Only links-only persons can be inferred. */
  lemma {:induction false} InferredAtMostLinksOnly(t: map<string, Record>, names: seq<string>)
    ensures InferredCount(t, names) <= LinksOnlyCount(t, names)
  {
    if names != [] {
      InferredAtMostLinksOnly(t, names[..|names| - 1]);
    }
  }

  /**
   * A person whose only link is "hasFather" to a person dated
   * (1500, 1550) is classified as a person dated (1480, 1530) would be.
   */
  lemma FatherPropagation()
    ensures var t := map["P2" := Dates(DateBound(1500, 1550)), "P1" := Links([("P2", "hasFather")])];
            var names := ["P2", "P1"];
            && DirectCenturies(t, names) == [16]
            && PropagatedCenturies(t, names) == Classify(1480, 1530) == [16, 15]
            && InferredCount(t, names) == 1
            && PropagatedFlags(t, names) == []
  {
    var t := map["P2" := Dates(DateBound(1500, 1550)), "P1" := Links([("P2", "hasFather")])];
    var names := ["P2", "P1"];
    var links := [("P2", "hasFather")];
    assert names[..1] == ["P2"] && names[..1][..0] == [];
    assert links[..0] == [];
    assert Borrow("hasFather", DateBound(1500, 1550)) == DateBound(1480, 1530);
    assert Borrowed(t, links) == [DateBound(1480, 1530)];
    assert [DateBound(1480, 1530)][..0] == [];
  }

  lemma AppendAssociative(a: seq<string>, b: seq<string>, c: seq<string>)
    ensures (a + b) + c == a + (b + c)
  {
  }

  /** One more person of `addmissing`, stated on the histogram and the problematic list. */
  lemma PropagatedStateStep(t: map<string, Record>, names: seq<string>, i: nat,
                            h: map<int, int>, flagged: seq<string>)
    requires i < |names|
    ensures var bs := Borrowed(t, LinksOf(t, names[i]));
            && TallyAll(h, PropagatedCenturies(t, names[..i + 1])) ==
               TallyAll(TallyAll(h, PropagatedCenturies(t, names[..i])), ClassifyAll(bs))
            && flagged + PropagatedFlags(t, names[..i + 1]) ==
               (flagged + PropagatedFlags(t, names[..i])) + Flags(names[i], bs)
            && InferredCount(t, names[..i + 1]) == InferredCount(t, names[..i]) + (if |bs| > 0 then 1 else 0)
  {
    var bs := Borrowed(t, LinksOf(t, names[i]));
    PropagatedStep(t, names, i);
    TallyAllAppend(h, PropagatedCenturies(t, names[..i]), ClassifyAll(bs));
    AppendAssociative(flagged, PropagatedFlags(t, names[..i]), Flags(names[i], bs));
  }

  predicate Distinct(names: seq<string>) {
    forall i, j :: 0 <= i < j < |names| ==> names[i] != names[j]
  }

  class KB {
    /** The person keys in insertion order. */
    var names: seq<string>
    /** The person entries. */
    var records: map<string, Record>
    /** `kb["percentury"]`. */
    var perCentury: map<int, int>
    /** `kb["problematic"]`, a list: a person can appear more than once. */
    var problematic: seq<string>

    ghost predicate Valid()
      reads this
    {
      Distinct(names) && (forall n :: n in records <==> n in names)
    }

    /** `{"percentury": {}, "problematic": []}`. */
    constructor ()
      ensures Valid()
      ensures names == [] && records == map[] && perCentury == map[] && problematic == []
    {
      names, records := [], map[];
      perCentury, problematic := map[], [];
    }

    /**
     * Resume mode: the entries and the histogram as a previous run left
     * them, and an empty problematic list when none was saved.
     */
    constructor Restore(names: seq<string>, records: map<string, Record>,
                        perCentury: map<int, int>, problematic: Option<seq<string>>)
      requires Distinct(names) && (forall n :: n in records <==> n in names)
      ensures Valid()
      ensures this.names == names && this.records == records && this.perCentury == perCentury
      ensures this.problematic == if problematic.Some? then problematic.value else []
    {
      this.names, this.records := names, records;
      this.perCentury := perCentury;
      this.problematic := if problematic.Some? then problematic.value else [];
    }

    /**
     * One person of `cacheforPfile`: the person's events are merged and
     * the record rule decides what is stored. A new key goes to the end of
     * the order; an existing key keeps its place. A dated person is
     * classified at once, which can flag it as problematic (the histogram
     * is not touched), and `found` says whether that gave any century.
     */
    method RecordPerson(name: string, events: seq<string>, links: seq<Link>) returns (found: bool)
      requires Valid()
      modifies this`names, this`records, this`problematic
      ensures Valid()
      ensures records == old(records)[name := RecordFor(MergeDates(events), links)]
      ensures names == if name in old(records) then old(names) else old(names) + [name]
      ensures var b := MergeDates(events);
              && found == (b.lo != 9999 && Classify(b.lo, b.hi) != [])
              && problematic == old(problematic) + (if b.lo != 9999 && Coarse(b.lo, b.hi) then [name] else [])
    {
      var dates := SimpleDates(events);
      if name !in records {
        names := names + [name];
      }
      records := records[name := RecordFor(dates, links)];
      found := false;
      if dates.lo != 9999 {
        var centuries := CenturyForDates(dates.lo, dates.hi, name);
        found := |centuries| > 0;
      }
    }

    /**
     * `getcenturyfordates`: returns the centuries of the bound and, for a
     * coarse one, appends the person to the problematic list. Nothing else
     * changes; the histogram is left to the caller.
     */
    method CenturyForDates(taq: int, tpq: int, person: string) returns (res: seq<int>)
      modifies this`problematic
      ensures res == Classify(taq, tpq)
      ensures problematic == old(problematic) + (if Coarse(taq, tpq) then [person] else [])
    {
      var firstc := taq / 100;
      var secondc := tpq / 100;
      res := [];
      var diff := secondc - firstc;
      if diff == 0 {
        res := res + [firstc + 1];
        return;
      }
      if diff > 1 && diff < 4 {
        for i := firstc to secondc + 1
          invariant res == Consecutive(firstc + 1, i)
        {
          res := res + [i + 1];
        }
        return;
      }
      if diff > 3 {
        problematic := problematic + [person];
        res := res + [secondc];
        return;
      }
      if diff == 1 {
        var yearsInFirst := 100 * secondc - taq;
        var yearsInSecond := tpq - 100 * secondc;
        if yearsInSecond == 0 {
          res := res + [firstc + 1];
          return;
        }
        if 5 * yearsInFirst < yearsInSecond {
          res := res + [secondc + 1];
          return;
        }
        if yearsInFirst > 5 * yearsInSecond {
          res := res + [firstc + 1];
          return;
        }
        res := res + [secondc + 1];
        res := res + [firstc + 1];
        return;
      }
    }

    /** `kb["percentury"][c] += 1` for every returned century. */
    method Tally(centuries: seq<int>)
      modifies this`perCentury
      ensures perCentury == TallyAll(old(perCentury), centuries)
      ensures forall c :: Count(perCentury, c) == Count(old(perCentury), c) + multiset(centuries)[c]
    {
      for i := 0 to |centuries|
        invariant perCentury == TallyAll(old(perCentury), centuries[..i])
      {
        var c := centuries[i];
        if c !in perCentury {
          perCentury := perCentury[c := 0];
        }
        perCentury := perCentury[c := perCentury[c] + 1];
        assert centuries[..i + 1][..i] == centuries[..i];
      }
      assert centuries[..|centuries|] == centuries;
      forall c ensures Count(perCentury, c) == Count(old(perCentury), c) + multiset(centuries)[c] {
        TallyAllCount(old(perCentury), centuries, c);
      }
    }

    /** One iteration of the loop of `main`, for the entry `p`. */
    method ClassifyEntry(p: string) returns (dated: bool)
      modifies this`perCentury, this`problematic
      ensures dated == IsDated(records, p)
      ensures perCentury == TallyAll(old(perCentury), DirectOf(records, p))
      ensures problematic == old(problematic) + DirectFlagOf(records, p)
    {
      dated := IsPersonKey(p) && p in records && records[p].Dates?;
      if dated {
        var b := records[p].bound;
        var centuries := CenturyForDates(b.lo, b.hi, p);
        Tally(centuries);
      }
    }

    /**
     * The loop of `main` over the dated persons: each is classified, its
     * centuries are counted, and the number of dated persons is returned
     * (what `main` adds to `nbFound`). The entries do not change.
     */
    method ClassifyDated() returns (found: nat)
      modifies this`perCentury, this`problematic
      ensures found == DatedCount(records, names)
      ensures perCentury == TallyAll(old(perCentury), DirectCenturies(records, names))
      ensures problematic == old(problematic) + DirectFlags(records, names)
    {
      found := 0;
      for i := 0 to |names|
        invariant found == DatedCount(records, names[..i])
        invariant perCentury == TallyAll(old(perCentury), DirectCenturies(records, names[..i]))
        invariant problematic == old(problematic) + DirectFlags(records, names[..i])
      {
        var dated := ClassifyEntry(names[i]);
        if dated {
          found := found + 1;
        }
        DirectStep(records, names, i);
        TallyAllAppend(old(perCentury), DirectCenturies(records, names[..i]), DirectOf(records, names[i]));
        AppendAssociative(old(problematic), DirectFlags(records, names[..i]), DirectFlagOf(records, names[i]));
      }
      assert names[..|names|] == names;
    }

    /**
     * One link of a links-only person `p`: when the target is dated, its
     * bound is borrowed, classified and counted.
     */
    method BorrowFrom(p: string, link: Link) returns (usable: bool, ghost b: DateBound)
      modifies this`perCentury, this`problematic
      ensures usable == (link.0 in records && records[link.0].Dates?)
      ensures usable ==> b == Borrow(link.1, records[link.0].bound)
      ensures usable ==> perCentury == TallyAll(old(perCentury), Classify(b.lo, b.hi))
      ensures usable ==> problematic == old(problematic) + (if Coarse(b.lo, b.hi) then [p] else [])
      ensures !usable ==> perCentury == old(perCentury) && problematic == old(problematic)
    {
      var (target, relation) := link;
      usable := target in records && records[target].Dates?;
      b := DateBound(0, 0);
      if usable {
        var borrowed := Borrow(relation, records[target].bound);
        b := borrowed;
        var centuries := CenturyForDates(borrowed.lo, borrowed.hi, p);
        Tally(centuries);
      }
    }

    /**
     * One iteration of the outer loop of `addmissing`, for the entry `p`:
     * 1 when `p` is a links-only person with a dated target, 0 otherwise.
     */
    method PropagateEntry(p: string) returns (added: nat)
      modifies this`perCentury, this`problematic
      ensures added == if |Borrowed(records, LinksOf(records, p))| > 0 then 1 else 0
      ensures perCentury == TallyAll(old(perCentury), ClassifyAll(Borrowed(records, LinksOf(records, p))))
      ensures problematic == old(problematic) + Flags(p, Borrowed(records, LinksOf(records, p)))
    {
      added := 0;
      if IsPersonKey(p) && p in records && records[p].Links? {
        var links := records[p].links;
        ghost var bs: seq<DateBound> := [];
        for j := 0 to |links|
          invariant bs == Borrowed(records, links[..j])
          invariant perCentury == TallyAll(old(perCentury), ClassifyAll(bs))
          invariant problematic == old(problematic) + Flags(p, bs)
          invariant added == if |bs| > 0 then 1 else 0
        {
          var usable, b := BorrowFrom(p, links[j]);
          BorrowedStep(records, links, j);
          if usable {
            ClassifyAllSnoc(p, bs, b);
            AppendAssociative(old(problematic), Flags(p, bs), if Coarse(b.lo, b.hi) then [p] else []);
            TallyAllAppend(old(perCentury), ClassifyAll(bs), Classify(b.lo, b.hi));
            bs := bs + [b];
            added := 1;
          }
        }
        assert links[..|links|] == links;
      }
    }

    /**
     * `addmissing`: every links-only person borrows a bound from each of
     * its dated targets; each borrowed bound is classified and its centuries
     * counted. Returns the number of links-only persons with at least one
     * dated target. The entries do not change.
     */
    method AddMissing() returns (inferred: nat)
      modifies this`perCentury, this`problematic
      ensures inferred == InferredCount(records, names)
      ensures inferred <= LinksOnlyCount(records, names)
      ensures perCentury == TallyAll(old(perCentury), PropagatedCenturies(records, names))
      ensures problematic == old(problematic) + PropagatedFlags(records, names)
    {
      inferred := 0;
      for i := 0 to |names|
        invariant inferred == InferredCount(records, names[..i])
        invariant perCentury == TallyAll(old(perCentury), PropagatedCenturies(records, names[..i]))
        invariant problematic == old(problematic) + PropagatedFlags(records, names[..i])
      {
        var added := PropagateEntry(names[i]);
        PropagatedStateStep(records, names, i, old(perCentury), old(problematic));
        inferred := inferred + added;
      }
      assert names[..|names|] == names;
      InferredAtMostLinksOnly(records, names);
    }

    /**
     * The two passes of `main` after the entries are loaded: the dated
     * persons are classified, then `addmissing` runs on the same entries.
     * `found` is what the loop adds to `nbFound`, `inferred` is `nbInferred`.
     */
    method ComputeCenturies() returns (found: nat, inferred: nat)
      modifies this`perCentury, this`problematic
      ensures found == DatedCount(records, names)
      ensures inferred == InferredCount(records, names) <= LinksOnlyCount(records, names)
      ensures perCentury == TallyAll(old(perCentury), DirectCenturies(records, names) + PropagatedCenturies(records, names))
      ensures problematic == old(problematic) + DirectFlags(records, names) + PropagatedFlags(records, names)
    {
      found := ClassifyDated();
      inferred := AddMissing();
      TallyAllAppend(old(perCentury), DirectCenturies(records, names), PropagatedCenturies(records, names));
    }
  }
}

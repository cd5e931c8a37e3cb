/**
 * The relation-specific transform of `addmissing`: a person without dates
 * borrows the bound of a dated person it links to, shifted according to
 * the relation between them.
 */
module Propagation {
  import opened PersonDates

  /** The relations whose target is a generation older: shift by -20 years. */
  const OlderRelations: set<string> :=
    {"hasMother", "hasFather", "hasParent", "hasAunt", "hasUncle", "personStudentOf"}

  /**
   * The relations whose source is a later incarnation of the target: the
   * person starts with the target's upper year. This is the source's list
   * exactly; it has no "incarnationActivities", which therefore is not
   * shifted at all.
   */
  const LaterIncarnationRelations: set<string> :=
    {"isIncarnation", "incarnationYangtse", "incarnationBody", "incarnationGeneral",
     "incarnationMind", "incarnationQualities", "incarnationSpeech"}

  /** The relations whose target is a generation younger: shift by +20 years. */
  const YoungerRelations: set<string> :=
    {"hasChild", "hasSon", "hasDaughter", "hasNiece", "hasNephew", "personTeacherOf"}

  /** The relations whose target is a later incarnation: the person ends with the target's lower year. */
  const EarlierIncarnationRelations: set<string> :=
    {"hasIncarnation", "hasIncarnationActivities", "hasIncarnationBody", "hasIncarnationGeneral",
     "hasIncarnationMind", "hasIncarnationQualities", "hasIncarnationSpeech", "hasIncarnationYangtse"}

  /**
   * The bound borrowed from a target dated `d` through relation `rel`,
   * computed as the source does: a shift chosen by two membership tests,
   * a replacement of the pair chosen by two more, then the shift added to
   * both ends. The chain of tests amounts to one transform per relation
   * (`BorrowIsTable`).
   */
  function Borrow(rel: string, d: DateBound): DateBound
  {
    var shift := if rel in YoungerRelations then 20 else if rel in OlderRelations then -20 else 0;
    var dates := if rel in LaterIncarnationRelations then DateBound(d.hi, d.hi + 30) else d;
    var dates' := if rel in EarlierIncarnationRelations then DateBound(dates.lo - 30, dates.lo) else dates;
    DateBound(dates'.lo + shift, dates'.hi + shift)
  }

  /** The same transform as a table from relation to policy. */
  datatype Offset = Older | Younger | LaterIncarnation | EarlierIncarnation | Unrelated

  function OffsetOf(rel: string): Offset
  {
    if rel in OlderRelations then Older
    else if rel in YoungerRelations then Younger
    else if rel in LaterIncarnationRelations then LaterIncarnation
    else if rel in EarlierIncarnationRelations then EarlierIncarnation
    else Unrelated
  }

  function Apply(o: Offset, d: DateBound): DateBound
  {
    match o
    case Older => DateBound(d.lo - 20, d.hi - 20)
    case Younger => DateBound(d.lo + 20, d.hi + 20)
    case LaterIncarnation => DateBound(d.hi, d.hi + 30)
    case EarlierIncarnation => DateBound(d.lo - 30, d.lo)
    case Unrelated => d
  }

  // The four relation lists of `addmissing` are pairwise disjoint, one pair per lemma.
  lemma OlderYoungerDisjoint()
    ensures OlderRelations !! YoungerRelations
  {
  }

  lemma OlderLaterIncarnationDisjoint()
    ensures OlderRelations !! LaterIncarnationRelations
  {
  }

  lemma OlderEarlierIncarnationDisjoint()
    ensures OlderRelations !! EarlierIncarnationRelations
  {
  }

  lemma YoungerLaterIncarnationDisjoint()
    ensures YoungerRelations !! LaterIncarnationRelations
  {
  }

  lemma YoungerEarlierIncarnationDisjoint()
    ensures YoungerRelations !! EarlierIncarnationRelations
  {
  }

  lemma LaterIncarnationEarlierIncarnationDisjoint()
    ensures LaterIncarnationRelations !! EarlierIncarnationRelations
  {
  }

  /** No relation is in two of the four lists, so at most one transform applies. */
  lemma RelationListsDisjoint()
    ensures OlderRelations !! YoungerRelations
    ensures OlderRelations !! LaterIncarnationRelations
    ensures OlderRelations !! EarlierIncarnationRelations
    ensures YoungerRelations !! LaterIncarnationRelations
    ensures YoungerRelations !! EarlierIncarnationRelations
    ensures LaterIncarnationRelations !! EarlierIncarnationRelations
  {
    OlderYoungerDisjoint();
    OlderLaterIncarnationDisjoint();
    OlderEarlierIncarnationDisjoint();
    YoungerLaterIncarnationDisjoint();
    YoungerEarlierIncarnationDisjoint();
    LaterIncarnationEarlierIncarnationDisjoint();
  }

  /** The source's chain of tests agrees with the table, for every relation. */
  lemma BorrowIsTable(rel: string, d: DateBound)
    ensures Borrow(rel, d) == Apply(OffsetOf(rel), d)
  {
  }

  /**
   * A borrowed bound is as well ordered as the target's: shifts keep its
   * width, an incarnation gives a thirty-year bound.
   */
  lemma BorrowKeepsOrder(rel: string, d: DateBound)
    requires d.lo <= d.hi
    ensures var b := Borrow(rel, d);
            && b.lo <= b.hi
            && (OffsetOf(rel) in {LaterIncarnation, EarlierIncarnation} ==> b.hi - b.lo == 30)
            && (OffsetOf(rel) !in {LaterIncarnation, EarlierIncarnation} ==> b.hi - b.lo == d.hi - d.lo)
  {
    BorrowIsTable(rel, d);
  }

  /** The father of a person dated (1500, 1550) is dated (1480, 1530). */
  lemma FatherExample()
    ensures Borrow("hasFather", DateBound(1500, 1550)) == DateBound(1480, 1530)
    ensures Borrow("isIncarnation", DateBound(1500, 1550)) == DateBound(1550, 1580)
    ensures Borrow("hasIncarnation", DateBound(1500, 1550)) == DateBound(1470, 1500)
    ensures Borrow("incarnationActivities", DateBound(1500, 1550)) == DateBound(1500, 1550)
  {
  }
}

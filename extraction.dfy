/**
 * `extract_datetime` (main.py:21-35): try the day-first pattern, then the
 * year-first one; the first pattern that matches anywhere decides, its leftmost
 * match is read in that pattern's field order, and the fields go to the
 * `datetime` constructor, which either accepts them or raises.
 */
module Extraction {
  import opened Wrappers
  import opened CharClasses
  import opened Calendar
  import opened Patterns

  /** What `extract_datetime` does: return None, return a datetime, or raise ValueError for the fields. */
  datatype Extracted = NotFound | Found(t: DateTime) | InvalidDate(t: DateTime)

  /** The pattern list at main.py:22-25, in the order the loop tries it. */
  const PatternList := [DayFirst, YearFirst]

  /** Which group holds which field (main.py:30-33). */
  function FieldsOf(p: Pattern, g: Groups): (t: DateTime)
    ensures p == DayFirst ==> t.day == g.g1 && t.month == g.g2 && t.year == g.g3
    ensures p == YearFirst ==> t.year == g.g1 && t.month == g.g2 && t.day == g.g3
    ensures t.hour == g.g4 && t.minute == g.g5
  {
    match p
    case DayFirst => DateTime(g.g3, g.g2, g.g1, g.g4, g.g5)
    case YearFirst => DateTime(g.g1, g.g2, g.g3, g.g4, g.g5)
  }

  /** `datetime(year, month, day, hour, minute)` (main.py:34): the value, or the error for these fields. */
  function Construct(t: DateTime): (r: Extracted)
    ensures !r.NotFound? && r.t == t
    ensures r.Found? <==> ValidDateTime(t)
  {
    if ValidDateTime(t) then Found(t) else InvalidDate(t)
  }

  /** The `for pattern in patterns` loop: the first pattern with a match returns. */
  function TryPatterns(ps: seq<Pattern>, s: string): (r: Extracted)
    ensures r.NotFound? <==> forall k | 0 <= k < |ps| :: Search(ps[k], s).None?
    ensures r.Found? ==> ValidDateTime(r.t)
    ensures r.InvalidDate? ==> !ValidDateTime(r.t)
  {
    if ps == [] then NotFound
    else
      match Search(ps[0], s)
      case Some(hit) => Construct(FieldsOf(ps[0], hit.groups))
      case None => TryPatterns(ps[1..], s)
  }

  function ExtractDateTime(s: string): (r: Extracted)
    ensures r.Found? ==> ValidDateTime(r.t)
    ensures r.InvalidDate? ==> !ValidDateTime(r.t)
  {
    TryPatterns(PatternList, s)
  }

  // ---------------------------------------------------------------------------
  // What the extraction promises.

  /** The result is None exactly when neither expression matches anywhere in the text. */
  lemma NotFoundIffNoMatch(s: string)
    ensures ExtractDateTime(s).NotFound? <==>
            forall k | 0 <= k <= |s| :: !MatchesAt(DayFirst, s, k) && !MatchesAt(YearFirst, s, k)
  {
    forall k | 0 <= k <= |s|
      ensures MatchAt(DayFirst, s, k).Some? <==> MatchesAt(DayFirst, s, k)
      ensures MatchAt(YearFirst, s, k).Some? <==> MatchesAt(YearFirst, s, k)
    {
      MatchAtIff(DayFirst, s, k);
      MatchAtIff(YearFirst, s, k);
    }
    assert Search(PatternList[0], s) == Search(DayFirst, s);
    assert Search(PatternList[1], s) == Search(YearFirst, s);
  }

  /** In particular a text without the keyword gives None. */
  lemma NoKeywordNotFound(s: string)
    requires !ContainsKeyword(s)
    ensures ExtractDateTime(s).NotFound?
  {
    NoKeywordNoMatch(DayFirst, s);
    NoKeywordNoMatch(YearFirst, s);
    assert PatternList[1..] == [YearFirst];
  }

  /**
   * A day-first match anywhere in the text means the day-first pattern decides:
   * the result comes from its leftmost match, which is at or before that one,
   * whatever year-first matches come earlier.
   */
  lemma DayFirstTakesPriority(s: string, k: nat, w1: nat, w2: nat)
    requires DayFirstShape(s, k, w1, w2)
    ensures Search(DayFirst, s).Some? && Search(DayFirst, s).value.pos <= k
    ensures ExtractDateTime(s) == Construct(FieldsOf(DayFirst, Search(DayFirst, s).value.groups))
  {
    DayFirstComplete(s, k, w1, w2);
    assert MatchAt(DayFirst, s, k).Some?;
  }

  /** The date and time a day-first shape spells, with the groups named as at main.py:31. */
  function DayFirstDateTime(s: string, i: nat, w1: nat, w2: nat): DateTime
    requires DayFirstShape(s, i, w1, w2)
  {
    FieldsOf(DayFirst, DayFirstShapeGroups(s, i, w1, w2))
  }

  /** The date and time a year-first shape spells, with the groups named as at main.py:33. */
  function YearFirstDateTime(s: string, i: nat, w1: nat, ml: nat, dl: nat, w2: nat, hl: nat): DateTime
    requires YearFirstShape(s, i, w1, ml, dl, w2, hl)
  {
    FieldsOf(YearFirst, YearFirstShapeGroups(s, i, w1, ml, dl, w2, hl))
  }

  /**
   * The leftmost day-first match decides, read as day, month, year, hour,
   * minute: a valid date is returned, an invalid one raises, and no later match
   * of either pattern is consulted.
   */
  lemma DayFirstFields(s: string, i: nat, w1: nat, w2: nat)
    requires DayFirstShape(s, i, w1, w2)
    requires forall k | 0 <= k < i :: !MatchesAt(DayFirst, s, k)
    ensures ExtractDateTime(s) == Construct(DayFirstDateTime(s, i, w1, w2))
  {
    DayFirstComplete(s, i, w1, w2);
    NoMatchesIn(DayFirst, s, 0, i);
    SearchFindsLeftmost(DayFirst, s, i);
  }

  /**
   * With no day-first match anywhere, the leftmost year-first match decides,
   * read as year, month, day, hour, minute.
   */
  lemma YearFirstFields(s: string, i: nat, w1: nat, ml: nat, dl: nat, w2: nat, hl: nat)
    requires forall k | 0 <= k <= |s| :: !MatchesAt(DayFirst, s, k)
    requires YearFirstShape(s, i, w1, ml, dl, w2, hl)
    requires forall k | 0 <= k < i :: !MatchesAt(YearFirst, s, k)
    ensures ExtractDateTime(s) == Construct(YearFirstDateTime(s, i, w1, ml, dl, w2, hl))
  {
    NoMatchesIn(DayFirst, s, 0, |s| + 1);
    NoMatchesIn(YearFirst, s, 0, i);
    YearFirstDecides(s, i, w1, ml, dl, w2, hl);
  }

  lemma YearFirstDecides(s: string, i: nat, w1: nat, ml: nat, dl: nat, w2: nat, hl: nat)
    requires Search(DayFirst, s).None?
    requires YearFirstShape(s, i, w1, ml, dl, w2, hl)
    requires forall k | 0 <= k < i :: MatchAt(YearFirst, s, k).None?
    ensures ExtractDateTime(s) == Construct(FieldsOf(YearFirst, YearFirstShapeGroups(s, i, w1, ml, dl, w2, hl)))
  {
    YearFirstComplete(s, i, w1, ml, dl, w2, hl);
    SearchFindsLeftmost(YearFirst, s, i);
    var g := YearFirstShapeGroups(s, i, w1, ml, dl, w2, hl);
    assert Search(YearFirst, s) == Some(Hit(i, g));
    assert PatternList[1..] == [YearFirst];
    assert TryPatterns([YearFirst], s) == Construct(FieldsOf(YearFirst, g));
    assert TryPatterns(PatternList, s) == TryPatterns([YearFirst], s);
  }
}

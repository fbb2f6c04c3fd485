/**
 * The two regular expressions of `extract_datetime` (main.py:23-24) and the
 * leftmost-match search `re.search` performs with each.
 *
 *   day-first:  Deadline:\s*(\d{2})\.(\d{2})\.(\d{4})\s+(\d{2}):(\d{2})
 *   year-first: Deadline:\s*(\d{4})[./-](\d{1,2})[./-](\d{1,2})\s+(\d{1,2}):(\d{2})
 *
 * Each pattern is given twice: as a "shape", a predicate that says which
 * segment of the text each part of the expression covers (the lengths of the
 * variable-width parts are parameters, so a match is the existence of a
 * shape), and as a deterministic matcher that reads the text from left to
 * right.  The soundness and completeness lemmas say the two agree, including
 * on the captured groups; in particular the groups of a match are unique.
 * Neither expression has an end anchor: whatever follows the last group is
 * ignored.
 */
module Patterns {
  import opened Wrappers
  import opened CharClasses

  const Keyword := "Deadline:"

  /**
   * The keyword starts at position i, spelled out character by character:
   * character comparisons cost the verifier far less than a slice compared
   * with the literal, and `KeywordAtIsSlice` shows the two tests agree.
   */
  predicate KeywordAt(s: string, i: nat) {
    && i + |Keyword| <= |s|
    && s[i] == 'D' && s[i + 1] == 'e' && s[i + 2] == 'a' && s[i + 3] == 'd' && s[i + 4] == 'l'
    && s[i + 5] == 'i' && s[i + 6] == 'n' && s[i + 7] == 'e' && s[i + 8] == ':'
  }

  /** The spelled-out keyword is exactly the substring test on Keyword. */
  lemma KeywordAtIsSlice(s: string, i: nat)
    ensures KeywordAt(s, i) <==> i + |Keyword| <= |s| && s[i..i + |Keyword|] == Keyword
  {
    if i + |Keyword| <= |s| && s[i..i + |Keyword|] == Keyword {
      var t := s[i..i + |Keyword|];
      assert t[0] == s[i] && t[1] == s[i + 1] && t[2] == s[i + 2] && t[3] == s[i + 3] && t[4] == s[i + 4];
      assert t[5] == s[i + 5] && t[6] == s[i + 6] && t[7] == s[i + 7] && t[8] == s[i + 8];
    }
  }

  /** Python's `"Deadline:" in s`. */
  predicate ContainsKeyword(s: string) {
    exists i | 0 <= i <= |s| :: KeywordAt(s, i)
  }

  /** `[./-]` */
  predicate IsSeparator(c: char) {
    c == '.' || c == '/' || c == '-'
  }

  predicate CharAt(s: string, i: nat, c: char) {
    i < |s| && s[i] == c
  }

  predicate SeparatorAt(s: string, i: nat) {
    i < |s| && IsSeparator(s[i])
  }

  /** Every character in positions lo up to hi is whitespace. */
  predicate SpacesIn(s: string, lo: nat, hi: nat) {
    lo <= hi <= |s| && forall k | lo <= k < hi :: IsSpace(s[k])
  }

  /** Every character in positions lo up to hi is a digit. */
  predicate DigitsIn(s: string, lo: nat, hi: nat) {
    lo <= hi <= |s| && forall k | lo <= k < hi :: IsDigit(s[k])
  }

  /** Exactly n digits start at position i. */
  predicate DigitsAt(s: string, i: nat, n: nat) {
    DigitsIn(s, i, i + n)
  }

  /** `int()` of the n digits at position i, most significant digit first. */
  function ValueAt(s: string, i: nat, n: nat): (v: nat)
    requires DigitsAt(s, i, n)
    ensures v < Pow10(n)
    decreases n
  {
    if n == 0 then 0 else ValueAt(s, i, n - 1) * 10 + DigitValue(s[i + n - 1])
  }

  /** ValueAt is `int()` of the slice holding the digits. */
  lemma {:induction false} ValueAtIsDecimalValue(s: string, i: nat, n: nat)
    requires DigitsAt(s, i, n)
    ensures AllDigits(s[i..i + n]) && ValueAt(s, i, n) == DecimalValue(s[i..i + n])
    decreases n
  {
    if n > 0 {
      ValueAtIsDecimalValue(s, i, n - 1);
      var c := s[i + n - 1];
      assert s[i..i + n] == s[i..i + n - 1] + [c];
      DecimalValueSnoc(s[i..i + n - 1], c);
    }
  }

  /** One digit at i: its value is the digit's value. */
  lemma ValueAtOne(s: string, i: nat)
    requires i + 1 <= |s| && IsDigit(s[i])
    ensures DigitsAt(s, i, 1) && ValueAt(s, i, 1) == DigitValue(s[i])
  {
  }

  /** Two digits at i, read as a decimal number. */
  lemma ValueAtTwo(s: string, i: nat)
    requires i + 2 <= |s| && IsDigit(s[i]) && IsDigit(s[i + 1])
    ensures DigitsAt(s, i, 2) && ValueAt(s, i, 2) == 10 * DigitValue(s[i]) + DigitValue(s[i + 1])
  {
  }

  /** Four digits at i, read as a decimal number. */
  lemma ValueAtFour(s: string, i: nat)
    requires i + 4 <= |s| && IsDigit(s[i]) && IsDigit(s[i + 1]) && IsDigit(s[i + 2]) && IsDigit(s[i + 3])
    ensures DigitsAt(s, i, 4)
    ensures ValueAt(s, i, 4) == 1000 * DigitValue(s[i]) + 100 * DigitValue(s[i + 1]) + 10 * DigitValue(s[i + 2]) + DigitValue(s[i + 3])
  {
  }

  /** The end of the run of whitespace that starts at i (what a greedy `\s*` consumes). */
  function SkipSpaces(s: string, i: nat): (j: nat)
    requires i <= |s|
    ensures i <= j && SpacesIn(s, i, j) && (j == |s| || !IsSpace(s[j]))
    decreases |s| - i
  {
    if i < |s| && IsSpace(s[i]) then SkipSpaces(s, i + 1) else i
  }

  /** The end of the run of digits that starts at i. */
  function SkipDigits(s: string, i: nat): (j: nat)
    requires i <= |s|
    ensures i <= j && DigitsIn(s, i, j) && (j == |s| || !IsDigit(s[j]))
    decreases |s| - i
  {
    if i < |s| && IsDigit(s[i]) then SkipDigits(s, i + 1) else i
  }

  lemma {:induction false} SkipSpacesStopsAt(s: string, i: nat, j: nat)
    requires SpacesIn(s, i, j) && (j == |s| || !IsSpace(s[j]))
    ensures SkipSpaces(s, i) == j
    decreases j - i
  {
    if i < j {
      SkipSpacesStopsAt(s, i + 1, j);
    }
  }

  lemma {:induction false} SkipDigitsStopsAt(s: string, i: nat, j: nat)
    requires DigitsIn(s, i, j) && (j == |s| || !IsDigit(s[j]))
    ensures SkipDigits(s, i) == j
    decreases j - i
  {
    if i < j {
      SkipDigitsStopsAt(s, i + 1, j);
    }
  }

  /** The five groups of a match, each already passed through `int()` (main.py:29). */
  datatype Groups = Groups(g1: nat, g2: nat, g3: nat, g4: nat, g5: nat)

  // ---------------------------------------------------------------------------
  // Day-first pattern (main.py:23).

  /** `(\d{2})\.(\d{2})\.(\d{4})` at position a: day, month and year of the day-first form. */
  predicate DottedDateAt(s: string, a: nat) {
    && DigitsAt(s, a, 2) && CharAt(s, a + 2, '.')
    && DigitsAt(s, a + 3, 2) && CharAt(s, a + 5, '.')
    && DigitsAt(s, a + 6, 4)
  }

  /** The day, month and year groups of a dotted date. */
  function DottedDateGroups(s: string, a: nat): (nat, nat, nat)
    requires DottedDateAt(s, a)
  {
    (ValueAt(s, a, 2), ValueAt(s, a + 3, 2), ValueAt(s, a + 6, 4))
  }

  function MatchDottedDate(s: string, a: nat): Option<(nat, nat, nat)> {
    if DottedDateAt(s, a) then Some(DottedDateGroups(s, a)) else None
  }

  lemma DottedDateSound(s: string, a: nat)
    requires MatchDottedDate(s, a).Some?
    ensures DottedDateAt(s, a) && DottedDateGroups(s, a) == MatchDottedDate(s, a).value
  {
  }

  /** `\s+(\d{2}):(\d{2})` at position j, with w2 whitespace characters. */
  predicate ClockShape(s: string, j: nat, w2: nat) {
    var b := j + w2;
    && w2 >= 1 && SpacesIn(s, j, b)
    && DigitsAt(s, b, 2) && CharAt(s, b + 2, ':') && DigitsAt(s, b + 3, 2)
  }

  function ClockGroups(s: string, j: nat, w2: nat): (nat, nat)
    requires ClockShape(s, j, w2)
  {
    (ValueAt(s, j + w2, 2), ValueAt(s, j + w2 + 3, 2))
  }

  /** The clock part read left to right: the whitespace run is taken greedily. */
  function MatchClock(s: string, j: nat): Option<(nat, nat)>
    requires j <= |s|
  {
    var b := SkipSpaces(s, j);
    if b == j || !(DigitsAt(s, b, 2) && CharAt(s, b + 2, ':') && DigitsAt(s, b + 3, 2)) then None
    else Some((ValueAt(s, b, 2), ValueAt(s, b + 3, 2)))
  }

  lemma ClockSound(s: string, j: nat) returns (w2: nat)
    requires j <= |s| && MatchClock(s, j).Some?
    ensures ClockShape(s, j, w2) && ClockGroups(s, j, w2) == MatchClock(s, j).value
  {
    w2 := SkipSpaces(s, j) - j;
  }

  lemma ClockComplete(s: string, j: nat, w2: nat)
    requires j <= |s| && ClockShape(s, j, w2)
    ensures MatchClock(s, j) == Some(ClockGroups(s, j, w2))
  {
    SpaceIsNotDigitAt(s, j + w2);
    SkipSpacesStopsAt(s, j, j + w2);
  }

  /**
   * `Deadline:\s*(\d{2})\.(\d{2})\.(\d{4})\s+(\d{2}):(\d{2})` matched at position i,
   * with w1 and w2 whitespace characters in the two whitespace runs.
   */
  predicate DayFirstShape(s: string, i: nat, w1: nat, w2: nat) {
    var a := i + |Keyword| + w1;
    && KeywordAt(s, i)
    && SpacesIn(s, i + |Keyword|, a)
    && DottedDateAt(s, a)
    && ClockShape(s, a + 10, w2)
  }

  /** The groups a day-first shape captures, in the order they appear. */
  function DayFirstShapeGroups(s: string, i: nat, w1: nat, w2: nat): Groups
    requires DayFirstShape(s, i, w1, w2)
  {
    var a := i + |Keyword| + w1;
    var date := DottedDateGroups(s, a);
    var clock := ClockGroups(s, a + 10, w2);
    Groups(date.0, date.1, date.2, clock.0, clock.1)
  }

  /** The day-first expression read left to right from position i. */
  function MatchDayFirstAt(s: string, i: nat): (r: Option<Groups>)
    ensures r.Some? ==> KeywordAt(s, i)
  {
    if !KeywordAt(s, i) then None
    else
      match MatchDottedDate(s, SkipSpaces(s, i + |Keyword|))
      case None => None
      case Some(date) =>
        match MatchClock(s, SkipSpaces(s, i + |Keyword|) + 10)
        case None => None
        case Some(clock) => Some(Groups(date.0, date.1, date.2, clock.0, clock.1))
  }

  /** A day-first match has the day-first shape, with the two whitespace widths returned. */
  lemma DayFirstSound(s: string, i: nat) returns (w1: nat, w2: nat)
    requires MatchDayFirstAt(s, i).Some?
    ensures DayFirstShape(s, i, w1, w2)
    ensures DayFirstShapeGroups(s, i, w1, w2) == MatchDayFirstAt(s, i).value
  {
    var a := SkipSpaces(s, i + |Keyword|);
    w1, w2 := DayFirstSoundAt(s, i, a);
    DayFirstFromParts(s, i, a);
  }

  /** The shape behind a match whose whitespace run ends at a and whose two stages succeed. */
  lemma DayFirstSoundAt(s: string, i: nat, a: nat) returns (w1: nat, w2: nat)
    requires KeywordAt(s, i) && SkipSpaces(s, i + |Keyword|) == a
    requires MatchDottedDate(s, a).Some? && MatchClock(s, a + 10).Some?
    ensures DayFirstShape(s, i, w1, w2)
    ensures
      var date := MatchDottedDate(s, a).value;
      var clock := MatchClock(s, a + 10).value;
      DayFirstShapeGroups(s, i, w1, w2) == Groups(date.0, date.1, date.2, clock.0, clock.1)
  {
    DottedDateSound(s, a);
    w1 := a - i - |Keyword|;
    w2 := ClockSound(s, a + 10);
    DayFirstAssemble(s, i, a, w1, w2);
  }

  /** The day-first shape from its parts, and its groups from theirs. */
  lemma DayFirstAssemble(s: string, i: nat, a: nat, w1: nat, w2: nat)
    requires a == i + |Keyword| + w1
    requires KeywordAt(s, i) && SpacesIn(s, i + |Keyword|, a) && DottedDateAt(s, a) && ClockShape(s, a + 10, w2)
    ensures DayFirstShape(s, i, w1, w2)
    ensures
      var date := DottedDateGroups(s, a);
      var clock := ClockGroups(s, a + 10, w2);
      DayFirstShapeGroups(s, i, w1, w2) == Groups(date.0, date.1, date.2, clock.0, clock.1)
  {
  }

  /** Every day-first shape is found by the matcher, with the same groups. */
  lemma DayFirstComplete(s: string, i: nat, w1: nat, w2: nat)
    requires DayFirstShape(s, i, w1, w2)
    ensures MatchDayFirstAt(s, i) == Some(DayFirstShapeGroups(s, i, w1, w2))
  {
    var a := i + |Keyword| + w1;
    SpaceIsNotDigitAt(s, a);
    SkipSpacesStopsAt(s, i + |Keyword|, a);
    ClockComplete(s, a + 10, w2);
    DayFirstFromParts(s, i, a);
  }

  /** The matcher's result once its whitespace run is known to end at a and both stages succeed. */
  lemma DayFirstFromParts(s: string, i: nat, a: nat)
    requires KeywordAt(s, i) && SkipSpaces(s, i + |Keyword|) == a
    requires MatchDottedDate(s, a).Some? && MatchClock(s, a + 10).Some?
    ensures
      var date := MatchDottedDate(s, a).value;
      var clock := MatchClock(s, a + 10).value;
      MatchDayFirstAt(s, i) == Some(Groups(date.0, date.1, date.2, clock.0, clock.1))
  {
  }

  lemma SpaceIsNotDigitAt(s: string, k: nat)
    requires k < |s| && IsDigit(s[k])
    ensures !IsSpace(s[k])
  {
    if IsSpace(s[k]) {
      SpaceIsNotDigit(s[k]);
    }
  }

  // ---------------------------------------------------------------------------
  // Year-first pattern (main.py:24).

  /** `(\d{1,2})` followed by a non-digit at i: the end of the digit run, if it has one or two digits. */
  function ShortNumberAt(s: string, i: nat): (r: Option<nat>)
    requires i <= |s|
    ensures r.Some? ==> i + 1 <= r.value <= i + 2 && DigitsAt(s, i, r.value - i)
    ensures r.Some? ==> r.value == |s| || !IsDigit(s[r.value])
  {
    var e := SkipDigits(s, i);
    if 1 <= e - i <= 2 then Some(e) else None
  }

  lemma ShortNumberComplete(s: string, i: nat, l: nat)
    requires 1 <= l <= 2 && DigitsAt(s, i, l) && (i + l == |s| || !IsDigit(s[i + l]))
    ensures ShortNumberAt(s, i) == Some(i + l)
  {
    SkipDigitsStopsAt(s, i, i + l);
  }

  /**
   * The tail `\s+(\d{1,2}):(\d{2})` at j with w2 characters of whitespace and
   * hl hour digits.
   */
  predicate TimeTailShape(s: string, j: nat, w2: nat, hl: nat) {
    var h := j + w2;
    var n := h + hl + 1;
    && n + 2 <= |s|
    && w2 >= 1 && SpacesIn(s, j, h)
    && 1 <= hl <= 2 && DigitsAt(s, h, hl) && s[h + hl] == ':'
    && DigitsAt(s, n, 2)
  }

  /** The hour and minute groups of that tail. */
  function TimeTailGroups(s: string, j: nat, w2: nat, hl: nat): (nat, nat)
    requires TimeTailShape(s, j, w2, hl)
  {
    var h := j + w2;
    (ValueAt(s, h, hl), ValueAt(s, h + hl + 1, 2))
  }

  function MatchTimeTail(s: string, j: nat): Option<(nat, nat)>
    requires j <= |s|
  {
    var h := SkipSpaces(s, j);
    if h == j then None
    else
      match ShortNumberAt(s, h)
      case None => None
      case Some(he) =>
        if CharAt(s, he, ':') && DigitsAt(s, he + 1, 2) then Some((ValueAt(s, h, he - h), ValueAt(s, he + 1, 2)))
        else None
  }

  /** A matched tail has the tail shape, with the run lengths returned. */
  lemma TimeTailSound(s: string, j: nat) returns (w2: nat, hl: nat)
    requires j <= |s| && MatchTimeTail(s, j).Some?
    ensures TimeTailShape(s, j, w2, hl) && TimeTailGroups(s, j, w2, hl) == MatchTimeTail(s, j).value
  {
    var h := SkipSpaces(s, j);
    var he := ShortNumberAt(s, h).value;
    w2, hl := h - j, he - h;
  }

  lemma TimeTailComplete(s: string, j: nat, w2: nat, hl: nat)
    requires TimeTailShape(s, j, w2, hl)
    ensures MatchTimeTail(s, j) == Some(TimeTailGroups(s, j, w2, hl))
  {
    var h := j + w2;
    SpaceIsNotDigitAt(s, h);
    SkipSpacesStopsAt(s, j, h);
    ShortNumberComplete(s, h, hl);
  }

  /**
   * The date part `(\d{4})[./-](\d{1,2})[./-](\d{1,2})` at a with ml month
   * digits and dl day digits.
   */
  predicate DatePartShape(s: string, a: nat, ml: nat, dl: nat) {
    var m := a + 5;
    var d := m + ml + 1;
    && d + dl <= |s|
    && DigitsAt(s, a, 4) && IsSeparator(s[a + 4])
    && 1 <= ml <= 2 && DigitsAt(s, m, ml) && IsSeparator(s[m + ml])
    && 1 <= dl <= 2 && DigitsAt(s, d, dl)
  }

  /** The year, month and day groups of a date part, and the position just after it. */
  datatype DatePart = DatePart(year: nat, month: nat, day: nat, end: nat)

  function DatePartShapeGroups(s: string, a: nat, ml: nat, dl: nat): DatePart
    requires DatePartShape(s, a, ml, dl)
  {
    var m := a + 5;
    var d := m + ml + 1;
    DatePart(ValueAt(s, a, 4), ValueAt(s, m, ml), ValueAt(s, d, dl), d + dl)
  }

  function MatchDatePart(s: string, a: nat): (r: Option<DatePart>)
    requires a <= |s|
    ensures r.Some? ==> r.value.end <= |s|
  {
    if !(DigitsAt(s, a, 4) && SeparatorAt(s, a + 4)) then None
    else
      match ShortNumberAt(s, a + 5)
      case None => None
      case Some(me) =>
        if !SeparatorAt(s, me) then None
        else
          match ShortNumberAt(s, me + 1)
          case None => None
          case Some(de) => Some(DatePart(ValueAt(s, a, 4), ValueAt(s, a + 5, me - a - 5), ValueAt(s, me + 1, de - me - 1), de))
  }

  /** A matched date part has the date-part shape, with the run lengths returned. */
  lemma DatePartSound(s: string, a: nat) returns (ml: nat, dl: nat)
    requires a <= |s| && MatchDatePart(s, a).Some?
    ensures DatePartShape(s, a, ml, dl) && DatePartShapeGroups(s, a, ml, dl) == MatchDatePart(s, a).value
    ensures MatchDatePart(s, a).value.end == a + 5 + ml + 1 + dl
  {
    var me := ShortNumberAt(s, a + 5).value;
    var de := ShortNumberAt(s, me + 1).value;
    ml, dl := me - a - 5, de - me - 1;
  }

  lemma DatePartComplete(s: string, a: nat, ml: nat, dl: nat)
    requires DatePartShape(s, a, ml, dl) && (a + 5 + ml + 1 + dl == |s| || !IsDigit(s[a + 5 + ml + 1 + dl]))
    ensures MatchDatePart(s, a) == Some(DatePartShapeGroups(s, a, ml, dl))
  {
    var me := a + 5 + ml;
    ShortNumberComplete(s, a + 5, ml);
    ShortNumberComplete(s, me + 1, dl);
    DatePartFromParts(s, a, me, me + 1 + dl);
  }

  /** The date-part matcher's result once the ends of its two short numbers are known. */
  lemma DatePartFromParts(s: string, a: nat, me: nat, de: nat)
    requires a + 5 <= |s| && DigitsAt(s, a, 4) && SeparatorAt(s, a + 4)
    requires ShortNumberAt(s, a + 5) == Some(me) && SeparatorAt(s, me) && ShortNumberAt(s, me + 1) == Some(de)
    ensures MatchDatePart(s, a) == Some(DatePart(ValueAt(s, a, 4), ValueAt(s, a + 5, me - a - 5), ValueAt(s, me + 1, de - me - 1), de))
  {
  }

  /**
   * The year-first expression matches at i with w1 characters for `\s*`, a date
   * part with ml month and dl day digits, and a time tail with w2 characters of
   * whitespace and hl hour digits.
   */
  predicate YearFirstShape(s: string, i: nat, w1: nat, ml: nat, dl: nat, w2: nat, hl: nat) {
    var a := i + |Keyword| + w1;
    && KeywordAt(s, i)
    && SpacesIn(s, i + |Keyword|, a)
    && DatePartShape(s, a, ml, dl)
    && TimeTailShape(s, a + 5 + ml + 1 + dl, w2, hl)
  }

  function YearFirstShapeGroups(s: string, i: nat, w1: nat, ml: nat, dl: nat, w2: nat, hl: nat): Groups
    requires YearFirstShape(s, i, w1, ml, dl, w2, hl)
  {
    var date := DatePartShapeGroups(s, i + |Keyword| + w1, ml, dl);
    var (hour, minute) := TimeTailGroups(s, date.end, w2, hl);
    Groups(date.year, date.month, date.day, hour, minute)
  }

  /**
   * The year-first expression read left to right from position i.  A `\d{1,2}`
   * followed by a non-digit matches exactly when the whole digit run there has
   * one or two digits, so the matcher measures the run.
   */
  function MatchYearFirstAt(s: string, i: nat): (r: Option<Groups>)
    ensures r.Some? ==> KeywordAt(s, i)
  {
    if !KeywordAt(s, i) then None
    else
      match MatchDatePart(s, SkipSpaces(s, i + |Keyword|))
      case None => None
      case Some(date) =>
        match MatchTimeTail(s, date.end)
        case None => None
        case Some((hour, minute)) => Some(Groups(date.year, date.month, date.day, hour, minute))
  }

  /** A year-first match has the year-first shape, with the run lengths returned. */
  lemma YearFirstSound(s: string, i: nat) returns (w1: nat, ml: nat, dl: nat, w2: nat, hl: nat)
    requires MatchYearFirstAt(s, i).Some?
    ensures YearFirstShape(s, i, w1, ml, dl, w2, hl)
    ensures YearFirstShapeGroups(s, i, w1, ml, dl, w2, hl) == MatchYearFirstAt(s, i).value
  {
    var a := SkipSpaces(s, i + |Keyword|);
    var date := MatchDatePart(s, a).value;
    ml, dl := DatePartSound(s, a);
    w2, hl := TimeTailSound(s, date.end);
    w1 := a - i - |Keyword|;
    YearFirstAssemble(s, i, a, date.end, w1, ml, dl, w2, hl);
  }

  /**
   * A year-first shape put together from its parts, with the position a of the
   * date part and the position e of the time tail passed in.
   */
  lemma YearFirstAssemble(s: string, i: nat, a: nat, e: nat, w1: nat, ml: nat, dl: nat, w2: nat, hl: nat)
    requires a == i + |Keyword| + w1 && e == a + 5 + ml + 1 + dl
    requires KeywordAt(s, i) && SpacesIn(s, i + |Keyword|, a)
    requires DatePartShape(s, a, ml, dl) && TimeTailShape(s, e, w2, hl)
    ensures YearFirstShape(s, i, w1, ml, dl, w2, hl)
    ensures var date := DatePartShapeGroups(s, a, ml, dl);
      var time := TimeTailGroups(s, e, w2, hl);
      YearFirstShapeGroups(s, i, w1, ml, dl, w2, hl) == Groups(date.year, date.month, date.day, time.0, time.1)
  {
    assert YearFirstShape(s, i, w1, ml, dl, w2, hl);
    assert DatePartShapeGroups(s, a, ml, dl).end == e;
  }

  lemma YearFirstComplete(s: string, i: nat, w1: nat, ml: nat, dl: nat, w2: nat, hl: nat)
    requires YearFirstShape(s, i, w1, ml, dl, w2, hl)
    ensures MatchYearFirstAt(s, i) == Some(YearFirstShapeGroups(s, i, w1, ml, dl, w2, hl))
  {
    var a := i + |Keyword| + w1;
    var e := a + 5 + ml + 1 + dl;
    SpaceIsNotDigitAt(s, a);
    SkipSpacesStopsAt(s, i + |Keyword|, a);
    SpaceIsNotDigit(s[e]);
    DatePartComplete(s, a, ml, dl);
    TimeTailComplete(s, e, w2, hl);
    YearFirstFromParts(s, i, a);
  }

  /** The matcher's result once its whitespace run is known to end at a and both stages succeed. */
  lemma YearFirstFromParts(s: string, i: nat, a: nat)
    requires KeywordAt(s, i) && SkipSpaces(s, i + |Keyword|) == a
    requires MatchDatePart(s, a).Some? && MatchTimeTail(s, MatchDatePart(s, a).value.end).Some?
    ensures
      var date := MatchDatePart(s, a).value;
      var time := MatchTimeTail(s, date.end).value;
      MatchYearFirstAt(s, i) == Some(Groups(date.year, date.month, date.day, time.0, time.1))
  {
  }

  // ---------------------------------------------------------------------------
  // Both patterns, and re.search.

  /** The entries of the pattern list at main.py:22-25, in their order. */
  datatype Pattern = DayFirst | YearFirst

  function MatchAt(p: Pattern, s: string, i: nat): (r: Option<Groups>)
    ensures r.Some? ==> KeywordAt(s, i)
  {
    match p
    case DayFirst => MatchDayFirstAt(s, i)
    case YearFirst => MatchYearFirstAt(s, i)
  }

  /** The expression p matches the text at position i, in the declarative reading. */
  ghost predicate MatchesAt(p: Pattern, s: string, i: nat) {
    match p
    case DayFirst => exists w1: nat, w2: nat :: DayFirstShape(s, i, w1, w2)
    case YearFirst => exists w1: nat, ml: nat, dl: nat, w2: nat, hl: nat :: YearFirstShape(s, i, w1, ml, dl, w2, hl)
  }

  lemma MatchAtIff(p: Pattern, s: string, i: nat)
    ensures MatchAt(p, s, i).Some? <==> MatchesAt(p, s, i)
  {
    match p
    case DayFirst =>
      if MatchDayFirstAt(s, i).Some? {
        var w1, w2 := DayFirstSound(s, i);
      }
      if MatchesAt(p, s, i) {
        var w1: nat, w2: nat :| DayFirstShape(s, i, w1, w2);
        DayFirstComplete(s, i, w1, w2);
      }
    case YearFirst =>
      if MatchYearFirstAt(s, i).Some? {
        var w1, ml, dl, w2, hl := YearFirstSound(s, i);
      }
      if MatchesAt(p, s, i) {
        var w1: nat, ml: nat, dl: nat, w2: nat, hl: nat :| YearFirstShape(s, i, w1, ml, dl, w2, hl);
        YearFirstComplete(s, i, w1, ml, dl, w2, hl);
      }
  }

  /** A match found by `re.search`: where it starts and what it captured. */
  datatype Hit = Hit(pos: nat, groups: Groups)

  /**
   * The scan of `re.search`: try positions i, i + 1, ..., n in turn and stop at
   * the first one where the attempt m succeeds.
   */
  function SearchFrom(m: nat -> Option<Groups>, n: nat, i: nat): (r: Option<Hit>)
    requires i <= n
    ensures r.None? <==> forall k | i <= k <= n :: m(k).None?
    ensures r.Some? ==> i <= r.value.pos <= n && m(r.value.pos) == Some(r.value.groups)
    ensures r.Some? ==> forall k | i <= k < r.value.pos :: m(k).None?
    decreases n - i
  {
    match m(i)
    case Some(g) => Some(Hit(i, g))
    case None => if i == n then None else SearchFrom(m, n, i + 1)
  }

  /** `re.search(p, s)`: the leftmost match, tried at every position of the text. */
  function Search(p: Pattern, s: string): (r: Option<Hit>)
    ensures r.None? <==> forall k | 0 <= k <= |s| :: MatchAt(p, s, k).None?
    ensures r.Some? ==> r.value.pos <= |s| && MatchAt(p, s, r.value.pos) == Some(r.value.groups)
    ensures r.Some? ==> forall k | 0 <= k < r.value.pos :: MatchAt(p, s, k).None?
  {
    var attempt := (k: nat) => MatchAt(p, s, k);
    assert forall k: nat :: attempt(k) == MatchAt(p, s, k);
    SearchFrom(attempt, |s|, 0)
  }

  /** No declarative match in [lo, hi) means the matcher finds nothing there either. */
  lemma NoMatchesIn(p: Pattern, s: string, lo: nat, hi: nat)
    requires forall k | lo <= k < hi :: !MatchesAt(p, s, k)
    ensures forall k | lo <= k < hi :: MatchAt(p, s, k).None?
  {
    forall k | lo <= k < hi
      ensures MatchAt(p, s, k).None?
    {
      MatchAtIff(p, s, k);
    }
  }

  /** A match at i with none before it is the one `re.search` returns. */
  lemma SearchFindsLeftmost(p: Pattern, s: string, i: nat)
    requires i <= |s| && MatchAt(p, s, i).Some?
    requires forall k | 0 <= k < i :: MatchAt(p, s, k).None?
    ensures Search(p, s) == Some(Hit(i, MatchAt(p, s, i).value))
  {
    var r := Search(p, s);
    assert r.Some?;
    assert r.value.pos == i;
  }

  /**
   * The keyword cannot overlap itself: only its first character is 'D'.  So if
   * no 'D' follows a keyword at i before position hi, no match starts in between.
   */
  lemma NoMatchAfterKeyword(p: Pattern, s: string, i: nat, hi: nat)
    requires KeywordAt(s, i) && hi <= |s|
    requires forall j | i + |Keyword| <= j < hi :: s[j] != 'D'
    ensures forall k | i < k < hi :: MatchAt(p, s, k).None?
  {
    forall k | i < k < hi
      ensures !KeywordAt(s, k)
    {
      assert s[k] != 'D';
    }
  }

  /** A text without the keyword matches neither expression anywhere. */
  lemma NoKeywordNoMatch(p: Pattern, s: string)
    requires !ContainsKeyword(s)
    ensures Search(p, s).None?
  {
    forall k | 0 <= k <= |s|
      ensures MatchAt(p, s, k).None?
    {
    }
  }
}

/**
 * Concrete texts run through `ExtractDateTime`, one per behaviour worth
 * seeing: the plain day-first form, an impossible date that raises instead
 * of being skipped, the missing end anchor, and the year-first form with
 * mixed separators and one-digit fields.  Each example is split into the
 * shape it has, the digit values it holds, and what the extraction decides.
 * Every part of a shape and every digit field is a lemma of its own: the
 * verifier unfolds the string literal in each obligation, and small lemmas
 * keep each of those obligations cheap.
 */
module ExtractionExamples {
  import opened CharClasses
  import opened Calendar
  import opened Patterns
  import opened Extraction

  // "Deadline: 28.07.2025 19:00" is read as 28 July 2025, 19:00.

  const Plain := "Deadline: 28.07.2025 19:00"

  lemma PlainShape()
    ensures DayFirstShape(Plain, 0, 1, 1)
  {
    PlainKeyword();
    PlainDate();
    PlainClock();
  }

  lemma PlainKeyword()
    ensures KeywordAt(Plain, 0) && SpacesIn(Plain, 9, 10)
  {
  }

  lemma PlainDate()
    ensures DottedDateAt(Plain, 10)
  {
  }

  lemma PlainClock()
    ensures ClockShape(Plain, 20, 1)
  {
  }

  lemma PlainDay()
    ensures DigitsAt(Plain, 10, 2) && ValueAt(Plain, 10, 2) == 28
  {
    ValueAtTwo(Plain, 10);
  }

  lemma PlainMonth()
    ensures DigitsAt(Plain, 13, 2) && ValueAt(Plain, 13, 2) == 7
  {
    ValueAtTwo(Plain, 13);
  }

  lemma PlainYear()
    ensures DigitsAt(Plain, 16, 4) && ValueAt(Plain, 16, 4) == 2025
  {
    ValueAtFour(Plain, 16);
  }

  lemma PlainHour()
    ensures DigitsAt(Plain, 21, 2) && ValueAt(Plain, 21, 2) == 19
  {
    ValueAtTwo(Plain, 21);
  }

  lemma PlainMinute()
    ensures DigitsAt(Plain, 24, 2) && ValueAt(Plain, 24, 2) == 0
  {
    ValueAtTwo(Plain, 24);
  }

  lemma PlainDecides()
    ensures DayFirstShape(Plain, 0, 1, 1)
    ensures ExtractDateTime(Plain) == Construct(DayFirstDateTime(Plain, 0, 1, 1))
  {
    PlainShape();
    DayFirstFields(Plain, 0, 1, 1);
  }

  lemma PlainFound()
    ensures ExtractDateTime(Plain) == Found(DateTime(2025, 7, 28, 19, 0))
  {
    PlainDecides();
    PlainDay();
    PlainMonth();
    PlainYear();
    PlainHour();
    PlainMinute();
  }

  // "31.02.2025" is not a date: the extraction raises rather than skipping it.

  const February31 := "Deadline: 31.02.2025 10:00"

  lemma February31Shape()
    ensures DayFirstShape(February31, 0, 1, 1)
  {
    February31Keyword();
    February31Date();
    February31Clock();
  }

  lemma February31Keyword()
    ensures KeywordAt(February31, 0) && SpacesIn(February31, 9, 10)
  {
  }

  lemma February31Date()
    ensures DottedDateAt(February31, 10)
  {
  }

  lemma February31Clock()
    ensures ClockShape(February31, 20, 1)
  {
  }

  lemma February31Day()
    ensures DigitsAt(February31, 10, 2) && ValueAt(February31, 10, 2) == 31
  {
    ValueAtTwo(February31, 10);
  }

  lemma February31Month()
    ensures DigitsAt(February31, 13, 2) && ValueAt(February31, 13, 2) == 2
  {
    ValueAtTwo(February31, 13);
  }

  lemma February31Year()
    ensures DigitsAt(February31, 16, 4) && ValueAt(February31, 16, 4) == 2025
  {
    ValueAtFour(February31, 16);
  }

  lemma February31Hour()
    ensures DigitsAt(February31, 21, 2) && ValueAt(February31, 21, 2) == 10
  {
    ValueAtTwo(February31, 21);
  }

  lemma February31Minute()
    ensures DigitsAt(February31, 24, 2) && ValueAt(February31, 24, 2) == 0
  {
    ValueAtTwo(February31, 24);
  }

  lemma February31Decides()
    ensures DayFirstShape(February31, 0, 1, 1)
    ensures ExtractDateTime(February31) == Construct(DayFirstDateTime(February31, 0, 1, 1))
  {
    February31Shape();
    DayFirstFields(February31, 0, 1, 1);
  }

  lemma February31NotADate()
    ensures !ValidDateTime(DateTime(2025, 2, 31, 10, 0))
  {
    assert DaysInMonth(2025, 2) == 28;
  }

  lemma February31Raises()
    ensures ExtractDateTime(February31) == InvalidDate(DateTime(2025, 2, 31, 10, 0))
  {
    February31NotADate();
    February31Decides();
    February31Day();
    February31Month();
    February31Year();
    February31Hour();
    February31Minute();
  }

  // No space after the colon, and "19:005" is read as 19:00: nothing anchors the end.

  const TrailingDigit := "Deadline:28.07.2025 19:005"

  lemma TrailingDigitShape()
    ensures DayFirstShape(TrailingDigit, 0, 0, 1)
  {
    TrailingDigitKeyword();
    TrailingDigitDate();
    TrailingDigitClock();
  }

  lemma TrailingDigitKeyword()
    ensures KeywordAt(TrailingDigit, 0) && SpacesIn(TrailingDigit, 9, 9)
  {
  }

  lemma TrailingDigitDate()
    ensures DottedDateAt(TrailingDigit, 9)
  {
  }

  lemma TrailingDigitClock()
    ensures ClockShape(TrailingDigit, 19, 1)
  {
  }

  lemma TrailingDigitDay()
    ensures DigitsAt(TrailingDigit, 9, 2) && ValueAt(TrailingDigit, 9, 2) == 28
  {
    ValueAtTwo(TrailingDigit, 9);
  }

  lemma TrailingDigitMonth()
    ensures DigitsAt(TrailingDigit, 12, 2) && ValueAt(TrailingDigit, 12, 2) == 7
  {
    ValueAtTwo(TrailingDigit, 12);
  }

  lemma TrailingDigitYear()
    ensures DigitsAt(TrailingDigit, 15, 4) && ValueAt(TrailingDigit, 15, 4) == 2025
  {
    ValueAtFour(TrailingDigit, 15);
  }

  lemma TrailingDigitHour()
    ensures DigitsAt(TrailingDigit, 20, 2) && ValueAt(TrailingDigit, 20, 2) == 19
  {
    ValueAtTwo(TrailingDigit, 20);
  }

  lemma TrailingDigitMinute()
    ensures DigitsAt(TrailingDigit, 23, 2) && ValueAt(TrailingDigit, 23, 2) == 0
  {
    ValueAtTwo(TrailingDigit, 23);
  }

  lemma TrailingDigitDecides()
    ensures DayFirstShape(TrailingDigit, 0, 0, 1)
    ensures ExtractDateTime(TrailingDigit) == Construct(DayFirstDateTime(TrailingDigit, 0, 0, 1))
  {
    TrailingDigitShape();
    DayFirstFields(TrailingDigit, 0, 0, 1);
  }

  lemma TrailingDigitIgnored()
    ensures ExtractDateTime(TrailingDigit) == Found(DateTime(2025, 7, 28, 19, 0))
  {
    TrailingDigitDecides();
    TrailingDigitDay();
    TrailingDigitMonth();
    TrailingDigitYear();
    TrailingDigitHour();
    TrailingDigitMinute();
  }

  // Year first, with '/' and '-' as separators and a one-digit month and hour.

  const Mixed := "Deadline: 2025/7-28 9:05"

  lemma MixedShape()
    ensures YearFirstShape(Mixed, 0, 1, 1, 2, 1, 1)
  {
    MixedKeyword();
    MixedDate();
    MixedTime();
  }

  lemma MixedKeyword()
    ensures KeywordAt(Mixed, 0) && SpacesIn(Mixed, 9, 10)
  {
  }

  lemma MixedDate()
    ensures DatePartShape(Mixed, 10, 1, 2)
  {
  }

  lemma MixedTime()
    ensures TimeTailShape(Mixed, 19, 1, 1)
  {
  }

  lemma MixedYear()
    ensures DigitsAt(Mixed, 10, 4) && ValueAt(Mixed, 10, 4) == 2025
  {
    ValueAtFour(Mixed, 10);
  }

  lemma MixedMonth()
    ensures DigitsAt(Mixed, 15, 1) && ValueAt(Mixed, 15, 1) == 7
  {
    ValueAtOne(Mixed, 15);
  }

  lemma MixedDay()
    ensures DigitsAt(Mixed, 17, 2) && ValueAt(Mixed, 17, 2) == 28
  {
    ValueAtTwo(Mixed, 17);
  }

  lemma MixedHour()
    ensures DigitsAt(Mixed, 20, 1) && ValueAt(Mixed, 20, 1) == 9
  {
    ValueAtOne(Mixed, 20);
  }

  lemma MixedMinute()
    ensures DigitsAt(Mixed, 22, 2) && ValueAt(Mixed, 22, 2) == 5
  {
    ValueAtTwo(Mixed, 22);
  }

  lemma MixedNoDayFirstAtStart()
    ensures MatchAt(DayFirst, Mixed, 0).None?
  {
    SkipSpacesStopsAt(Mixed, 9, 10);
  }

  lemma MixedNoLaterKeyword()
    ensures forall j | 9 <= j < |Mixed| :: Mixed[j] != 'D'
  {
  }

  lemma MixedHasNoDayFirst()
    ensures Search(DayFirst, Mixed).None?
  {
    MixedKeyword();
    MixedNoDayFirstAtStart();
    MixedNoLaterKeyword();
    NoMatchAfterKeyword(DayFirst, Mixed, 0, |Mixed|);
  }

  lemma MixedDecides()
    ensures YearFirstShape(Mixed, 0, 1, 1, 2, 1, 1)
    ensures ExtractDateTime(Mixed) == Construct(YearFirstDateTime(Mixed, 0, 1, 1, 2, 1, 1))
  {
    MixedShape();
    MixedHasNoDayFirst();
    YearFirstDecides(Mixed, 0, 1, 1, 2, 1, 1);
  }

  lemma MixedFound()
    ensures ExtractDateTime(Mixed) == Found(DateTime(2025, 7, 28, 9, 5))
  {
    MixedDecides();
    MixedYear();
    MixedMonth();
    MixedDay();
    MixedHour();
    MixedMinute();
  }
}

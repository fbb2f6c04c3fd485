# Deadline reminder bot: a Dafny model

The bot watches one Telegram channel. When a post in that channel carries a
line such as `Deadline: 28.07.2025 19:00`, it reads the date and time as
Tehran time, waits until three hours after that moment and then replies to
the post with a Persian "only 30 minutes left!" reminder and a link back to
the post. If the reminder would fall due less than ten minutes from now, it
gives up.

This project models the two functions that do the work in `main.py`:

- `extract_datetime`, which finds the deadline in a text with two regular
  expressions and builds a `datetime` from the groups;
- the decision part of `handle_channel_post`, which filters posts, computes
  the delay and composes the reply.

Both are pure functions here. The handler's effects become the constructors
of `Handler.Outcome`:

- `Ignored`: an early return;
- `NoDeadline`: the "date not found" log line;
- `InvalidDateRaised`: a `ValueError` that escapes the handler;
- `OverflowLogged`: an `OverflowError` caught by the `except`;
- `TooSoon`: the "less than ten minutes" log line;
- `Scheduled`: the sleep and the reply message.

Modules, in dependency order:

| file | module | contents |
|---|---|---|
| `wrappers.dfy` | `Wrappers` | `Option` |
| `char_classes.dfy` | `CharClasses` | `\s` and `\d` as Python's `re` reads them for `str` patterns, and `int()` of a digit string |
| `decimal.dfy` | `Decimal` | `str(n)` for the message id in the link, and reading it back |
| `calendar.dfy` | `Calendar` | the checks in `datetime(...)`, proleptic Gregorian ordinals, `+ timedelta(hours=3)` |
| `patterns.dfy` | `Patterns` | the two regular expressions as matchers and as declarative shapes, and `re.search` |
| `extraction.dfy` | `Extraction` | `extract_datetime` |
| `extraction_examples.dfy` | `ExtractionExamples` | concrete texts and what is extracted from them |
| `handler.dfy` | `Handler` | `handle_channel_post` up to `send_message` |
| `handler_examples.dfy` | `HandlerExamples` | one announcement posted at different times |

Each regular expression is modelled twice:

- a deterministic matcher that reads the text left to right, the way
  backtracking settles for these expressions. A `\s*` or `\s+` in front
  of a digit takes the whole run of whitespace. A `\d{1,2}` followed by a
  non-digit takes the whole run of digits, and fails if there are more
  than two.
- a declarative shape: keyword, some whitespace, digit runs of given
  lengths, separators.

Soundness and completeness lemmas prove the two agree. The extraction
lemmas are stated in terms of the shapes.

## Model

| member | source | states |
|---|---|---|
| CharClasses.IsSpace | main.py:23-24 | `\s`: exactly the 29 code points for which `str.isspace()` holds |
| CharClasses.IsDigit | main.py:23-24 | the modelled part of `\d`: ASCII digits, Arabic-Indic digits and extended Arabic-Indic (Persian) digits, a subset of the Unicode decimal digits |
| CharClasses.DigitValue | main.py:29 | `int()` of one digit is below ten and is its offset from the zero of its digit block |
| CharClasses.SpaceIsNotDigit | main.py:23-24 | no character is both `\s` and `\d`, so whitespace runs and digit runs never overlap |
| CharClasses.DecimalValue | main.py:29 | `int()` of a run of n digits is below 10^n |
| CharClasses.DecimalValueSnoc | main.py:29 | appending a digit multiplies the value by ten and adds the digit |
| Decimal.IntToDecimal | main.py:65 | `str(n)` of a message id is nonempty, starts with a minus sign exactly when n is negative, and is ASCII digits after that |
| Decimal.NatToDecimal | main.py:65 | `str(n)` of a natural number is a nonempty run of ASCII digits without a leading zero |
| Decimal.NatToDecimalValue | main.py:65 | reading `str(n)` back with `int()` gives n |
| Decimal.IntToDecimalRoundTrip | main.py:65 | every integer message id, negative ones included, survives the trip through its decimal text |
| Decimal.IntToDecimalInjective | main.py:65 | different message ids give different link texts |
| Calendar.IsLeapYear | main.py:34 | the Gregorian leap rule `datetime(...)` applies: divisible by 4, and not by 100 unless by 400 |
| Calendar.ValidDateTime | main.py:34 | the fields `datetime(...)` accepts: year 1 to 9999, month 1 to 12, a day within the month, hour 0 to 23, minute 0 to 59 |
| Calendar.Ordinal | main.py:34 | a date's day number counted from 0001-01-01 as day 1: the days before its year, the days before its month, then the day |
| Calendar.LocalSeconds | main.py:53-55 | a wall-clock time as seconds since 0001-01-01 00:00 on the same clock: days before it times 86400, plus the hour and minute |
| Calendar.DaysInMonth | main.py:34 | a month has 28 to 31 days; it has 29 exactly in February of a leap year |
| Calendar.DaysBeforeYearStep | main.py:34 | the days before year y+1 are those before y plus the length of year y |
| Calendar.DaysBeforeMonthStep | main.py:34 | the days before month m+1 are those before m plus the length of month m |
| Calendar.DecemberEndsYear | main.py:34 | the days before December plus 31 are the length of the year |
| Calendar.DaysBeforeYearGrows | main.py:34 | an earlier year starts at least a whole year's days earlier |
| Calendar.DayOfYearBound | main.py:34 | a valid date's day of the year is within its year's length |
| Calendar.DaysBeforeMonthOrder | main.py:34 | any day of an earlier month comes before the first day of a later month |
| Calendar.LastOrdinal | main.py:34 | 31 December 9999 is ordinal 3652059 |
| Calendar.OrdinalRange | main.py:34 | every date `datetime` accepts has an ordinal between 1 and 3652059 |
| Calendar.OrdinalOrder | main.py:34 | the ordinal is strictly monotone in the calendar order of dates |
| Calendar.LocalSecondsOrder | main.py:53-55 | the seconds scale is strictly monotone in the chronological order of wall-clock times |
| Calendar.LocalSecondsInjective | main.py:53-55 | different valid wall-clock times are different instants |
| Calendar.LocalSecondsRange | main.py:53-55 | valid times lie between 0001-01-01 00:00 and the end of 9999-12-31 |
| Calendar.AddHours | main.py:53 | adding hours yields a valid time with the same minute, or fails |
| Calendar.AddHoursShiftsSeconds | main.py:53 | the result is exactly n hours later; it fails exactly when that instant lies past 9999-12-31 |
| Patterns.ContainsKeyword | main.py:42 | `"Deadline:" in text`: the keyword starts at some position of the text |
| Patterns.KeywordAtIsSlice | main.py:42 | the keyword test at a position is exactly the substring `Deadline:` starting there |
| Patterns.ValueAt | main.py:29 | the value of an n-digit group is below 10^n |
| Patterns.ValueAtIsDecimalValue | main.py:29 | the value of a digit group is `int()` of the substring holding it |
| Patterns.SkipSpaces | main.py:23-24 | the whitespace run is maximal: all spaces, then the end or a non-space |
| Patterns.SkipDigits | main.py:23-24 | the digit run is maximal: all digits, then the end or a non-digit |
| Patterns.SkipSpacesStopsAt | main.py:23-24 | any maximal whitespace run is the one `SkipSpaces` finds |
| Patterns.SkipDigitsStopsAt | main.py:23-24 | any maximal digit run is the one `SkipDigits` finds |
| Patterns.MatchDayFirstAt | main.py:23 | a day-first match starts with the keyword |
| Patterns.ClockSound | main.py:23 | a matched `\s+hh:mm` is a nonempty whitespace run, two digits, `:` and two digits, with those groups |
| Patterns.ClockComplete | main.py:23 | every such clock part is matched, the whitespace run taken whole |
| Patterns.DayFirstSound | main.py:23 | every day-first match has the shape keyword, spaces, `dd.mm.yyyy`, spaces, `hh:mm` |
| Patterns.DayFirstComplete | main.py:23 | every text of that shape is matched, with the groups found at the positions the shape names |
| Patterns.ShortNumberAt | main.py:24 | a `\d{1,2}` group followed by a non-digit is the whole digit run, one or two digits long |
| Patterns.ShortNumberComplete | main.py:24 | every one- or two-digit run is found |
| Patterns.TimeTailSound | main.py:24 | a matched time tail is spaces, a one- or two-digit hour, `:` and two minute digits |
| Patterns.TimeTailComplete | main.py:24 | every such tail is matched, with its hour and minute groups |
| Patterns.MatchDatePart | main.py:24 | a matched date part ends inside the text |
| Patterns.DatePartSound | main.py:24 | a matched date part is four year digits and two short numbers, each after one of `./-` |
| Patterns.DatePartComplete | main.py:24 | every such date part is matched when a non-digit follows it |
| Patterns.MatchYearFirstAt | main.py:24 | a year-first match starts with the keyword |
| Patterns.YearFirstSound | main.py:24 | every year-first match has the year-first shape for some run lengths |
| Patterns.YearFirstComplete | main.py:24 | every text of that shape is matched, with the groups at the positions the shape names |
| Patterns.MatchAt | main.py:22-25 | a match of either expression starts with the keyword |
| Patterns.MatchAtIff | main.py:22-25 | the matcher succeeds at a position exactly when the declarative shape holds there |
| Patterns.SearchFrom | main.py:27 | trying positions from i on returns nothing iff every attempt fails, otherwise the first position whose attempt succeeds, with its groups |
| Patterns.Search | main.py:27 | `re.search` returns nothing iff no position matches, otherwise the leftmost match |
| Patterns.NoMatchesIn | main.py:27 | no declarative match in a range means the matcher fails throughout the range |
| Patterns.SearchFindsLeftmost | main.py:27 | a match with none before it is the one `re.search` returns |
| Patterns.NoMatchAfterKeyword | main.py:27 | after a keyword, no match can start before the next `D` |
| Patterns.NoKeywordNoMatch | main.py:23-24 | a text without `Deadline:` matches neither expression |
| Extraction.FieldsOf | main.py:30-33 | day-first groups are read as day, month, year; year-first groups as year, month, day; the last two are hour and minute in both |
| Extraction.Construct | main.py:34 | `datetime(...)` returns a value for exactly the valid fields and raises for the others, with the same fields |
| Extraction.TryPatterns | main.py:26-35 | the loop gives None iff no pattern in the list matches; a returned value is valid, a raised one invalid |
| Extraction.ExtractDateTime | main.py:21-35 | a returned datetime is valid; a raised error carries invalid fields |
| Extraction.NotFoundIffNoMatch | main.py:26-35 | None exactly when neither expression matches at any position, in the declarative reading |
| Extraction.NoKeywordNotFound | main.py:21-35 | a text without the keyword gives None |
| Extraction.DayFirstTakesPriority | main.py:26-34 | once a day-first date occurs anywhere, the leftmost day-first match decides, whatever year-first dates precede it |
| Extraction.DayFirstFields | main.py:23-34 | the leftmost day-first text is read as day, month, year, hour, minute |
| Extraction.YearFirstFields | main.py:24-34 | without any day-first text, the leftmost year-first text is read as year, month, day, hour, minute |
| Extraction.YearFirstDecides | main.py:26-34 | without a day-first search hit, the leftmost year-first match decides |
| ExtractionExamples.PlainFound | main.py:23-34 | `Deadline: 28.07.2025 19:00` gives 28 July 2025, 19:00 |
| ExtractionExamples.February31Raises | main.py:34 | `Deadline: 31.02.2025 10:00` raises for those fields instead of being skipped |
| ExtractionExamples.TrailingDigitIgnored | main.py:23 | `Deadline:28.07.2025 19:005` gives 19:00: `\s*` may be empty, and nothing anchors the end |
| ExtractionExamples.MixedFound | main.py:24-34 | `Deadline: 2025/7-28 9:05` gives 28 July 2025, 09:05 |
| Handler.ReminderText | main.py:16 | `REPLY_TEXT`, the Persian "only 30 minutes left!" after an alarm clock, code point for code point |
| Handler.LinkOpening | main.py:66 | the text between the reminder and the link: two newlines, a pushpin, a space and the Markdown label "view related post" up to `(` |
| Handler.Link | main.py:65 | the link is `https://t.me/`, the channel username, `/`, then `str(message_id)` |
| Handler.ReplyText | main.py:66 | the reply is the reminder text, the two newlines with the pushpin and link label, the link, then `)` |
| Handler.LinkRoundTrip | main.py:65-66 | the message id can be read back from the reply text link |
| Handler.ReplyTextSplits | main.py:65-66 | the reply is the reminder, the link label and host, the username, `/`, the decimal id and `)` |
| Handler.ReplyTextInjective | main.py:65-66 | reminders for different posts have different texts |
| Handler.TruncSeconds | main.py:55 | `int(total_seconds())` rounds the microsecond difference toward zero |
| Handler.TruncSecondsThreshold | main.py:55-57 | the truncated delay reaches 600 exactly when the exact difference reaches 600 seconds |
| Handler.UnixSeconds | main.py:55 | an aware time as Unix seconds: its wall-clock seconds, minus its UTC offset, minus the seconds before 1970-01-01 |
| Handler.Accepted | main.py:39-43 | a post gets past the early returns exactly when it is from the channel and has a nonempty text containing `Deadline:` |
| Handler.UnixEpochIsOrdinal | main.py:54 | the clock's origin, 1970-01-01, is ordinal 719163 |
| Handler.Schedule | main.py:50-72 | overflow, too soon or scheduled; too soon means under 600 s; a reminder waits at least 600 s, is a valid time, goes to the channel as a reply to the post, its text is exactly `ReplyText` for the post, which links back to it, and it is sent with parse mode `Markdown` |
| Handler.HandleChannelPost | main.py:37-72 | ignored exactly for another chat, no text, empty text or no keyword; a raised error carries invalid fields; too soon means under 600 s; a reminder waits at least 600 s, goes to the channel as a reply to the post, its text is exactly `ReplyText` for the post, which links back to it, and it is sent with parse mode `Markdown` |
| Handler.OutcomeFollowsExtraction | main.py:45-50 | for an accepted post, no deadline iff nothing extracted, an escaping error iff invalid fields, the `try` block iff a valid datetime |
| Handler.ReminderThreeHoursAfterDeadline | main.py:52-55 | overflow iff the deadline plus three hours passes 9999-12-31; otherwise the reminder is three hours later on the wall clock and in absolute time, and the delay is measured to it |
| Handler.ScheduledIffLeadTime | main.py:55-63 | scheduled iff now is at least ten minutes before deadline plus three hours; too soon iff less |
| HandlerExamples.AnnouncementAccepted | main.py:39-45 | the sample announcement passes the guards and yields 28 July 2025, 19:00 |
| HandlerExamples.ReminderInstant | main.py:52-53 | 19:00 plus three hours is 22:00 Tehran time, Unix second 1753727400 |
| HandlerExamples.EarlyPostScheduled | main.py:55-72 | an hour before the reminder the bot waits 3600 s and replies to post 42 in the channel |
| HandlerExamples.LatePostTooSoon | main.py:57-59 | five minutes before the reminder is too soon |
| HandlerExamples.JustShortOfTenMinutes | main.py:55-59 | one microsecond short of ten minutes truncates to 599 s and is refused |
| HandlerExamples.OtherChatIgnored | main.py:39-40 | the same post in another chat is ignored |
| HandlerExamples.ImpossibleDateRaises | main.py:34-50 | a post with 31 February raises out of the handler at any clock reading |

## Left out

- Telegram I/O is left out: the update object, `send_message`, polling and
  `main()`. A post is its chat id, message id and optional text. The reply
  is the value `send_message` would be called with: the chat, the text,
  the parse mode `Markdown` and the post it answers.
- Telegram's Markdown rendering is left out. `Reply.text` is the Markdown
  source that is passed, so `[label](link)` appears in it literally; what
  Telegram displays, the label as a link, is not modelled.
- A failing `send_message` is left out. It would be caught and logged at
  main.py:77-78, after the outcome modelled here.
- `asyncio.sleep` is left out. `Scheduled` carries the delay. What happens
  to other posts during the wait is not modelled.
- The clock is a parameter. Posts are not handled concurrently.
- Log lines are left out. Only the constructors of `Outcome` tell them apart.
- The `pytz` zone `Asia/Tehran` becomes a fixed UTC offset, set in
  `Settings` (12600 seconds today).
  - The daylight saving rules of past years are not modelled.
  - Neither is `localize`'s own behaviour near 0001-01-01 and 9999-12-31.
  - The source adds three hours on the wall clock and keeps the deadline's
    offset for the result. A fixed offset agrees with that.
- Environment variables are left out. `CHANNEL_ID`, `CHANNEL_USERNAME` and
  the offset are fields of `Settings`. A missing `CHANNEL_USERNAME` would
  put `None` into the link; the model always has a string.
- `CharClasses.IsDigit` covers three of the 68 Unicode decimal digit blocks
  that `\d` accepts: ASCII, Arabic-Indic and extended Arabic-Indic
  (Persian). Digits from other scripts are not modelled.
- Handler.TruncSeconds: computes the exact truncation of microseconds over
  10^6. Python divides in floating point first. The two can differ by one
  second only for delays beyond about 2^34 seconds (some 540 years).
- `datetime.__bool__` is left out. Every `datetime` is truthy, so the
  `if not event_datetime` test at main.py:46 only checks for None.
- A persistent reminder store, cancellation and retries are left out. The
  source has none of them.
- The model follows the code where some descriptions of the bot differ
  from it:
  - An impossible date such as 31.02.2025 is not skipped. `datetime(...)`
    raises at main.py:34, and the raise escapes the handler, because the
    call at main.py:45 is outside the `try`. A later valid date in the same
    text is never tried.
  - There is no UTC variant and no time window. Only the fixed three-hour
    offset and the 600-second lower bound exist.

/**
 * One announcement in a channel on Tehran time (UTC+03:30) carrying the
 * deadline 28 July 2025, 19:00: the reminder falls due at 22:00 local time,
 * which is 1753727400 seconds of Unix time, and what the bot does depends on
 * when the post arrives.
 */
module HandlerExamples {
  import opened Wrappers
  import opened Calendar
  import opened Patterns
  import opened Extraction
  import opened ExtractionExamples
  import opened Handler

  const Channel := Settings(-1002798561239, "deadline_channel", 12600)
  const Announcement := Post(-1002798561239, 42, Some(Plain))
  const ReminderAt := DateTime(2025, 7, 28, 22, 0)
  const ReminderUnixSeconds := 1753727400

  lemma AnnouncementAccepted()
    ensures Accepted(Channel, Announcement)
    ensures ExtractDateTime(Announcement.text.value) == Found(DateTime(2025, 7, 28, 19, 0))
  {
    PlainShape();
    assert KeywordAt(Plain, 0);
    PlainFound();
  }

  lemma ReminderInstant()
    ensures ValidDateTime(ReminderAt)
    ensures AddHours(DateTime(2025, 7, 28, 19, 0), ReminderOffsetHours) == Some(ReminderAt)
    ensures UnixSeconds(ReminderAt, Channel.utcOffsetSeconds) == ReminderUnixSeconds
  {
  }

  /** Posted at 21:00, two hours after the deadline and an hour before the reminder: an hour of waiting, then the reply to post 42. */
  lemma EarlyPostScheduled()
    ensures HandleChannelPost(Channel, Announcement, (ReminderUnixSeconds - 3600) * MicrosPerSecond)
         == Scheduled(3600, ReminderAt, Reply(Channel.channelId, ReplyText("deadline_channel", 42), MarkdownParseMode, 42))
  {
    AnnouncementAccepted();
    ReminderInstant();
  }

  /** Five minutes before the reminder is due is too late to schedule it. */
  lemma LatePostTooSoon()
    ensures HandleChannelPost(Channel, Announcement, (ReminderUnixSeconds - 300) * MicrosPerSecond) == TooSoon(300)
  {
    AnnouncementAccepted();
    ReminderInstant();
  }

  /** One microsecond short of ten minutes: the delay truncates to 599 seconds and is refused. */
  lemma JustShortOfTenMinutes()
    ensures HandleChannelPost(Channel, Announcement, ReminderUnixSeconds * MicrosPerSecond - 599_999_999) == TooSoon(599)
  {
    AnnouncementAccepted();
    ReminderInstant();
  }

  /** The same text posted in another chat is ignored. */
  lemma OtherChatIgnored()
    ensures HandleChannelPost(Channel, Announcement.(chatId := 1), 0) == Ignored
  {
  }

  /** An impossible date escapes the handler as an error, whatever the clock says. */
  lemma ImpossibleDateRaises(nowMicros: int)
    ensures HandleChannelPost(Channel, Announcement.(text := Some(February31)), nowMicros)
         == InvalidDateRaised(DateTime(2025, 2, 31, 10, 0))
  {
    February31Shape();
    assert KeywordAt(February31, 0);
    February31Raises();
  }
}

/**
 * The decision part of `handle_channel_post` (main.py:37-78): which channel
 * posts are looked at, what becomes of the extracted deadline, how long the
 * bot waits, and the reminder it then sends as a reply to the post.  The
 * Telegram update, the clock and the configuration are parameters; the
 * handler's effects (return, log line, escaping exception, sleep and send)
 * are the constructors of `Outcome`.
 */
module Handler {
  import opened Wrappers
  import opened Calendar
  import opened Patterns
  import opened Extraction
  import opened Decimal

  /** CHANNEL_ID, CHANNEL_USERNAME and the UTC offset that TIME_ZONE has at the deadline. */
  datatype Settings = Settings(channelId: int, channelUsername: string, utcOffsetSeconds: int)

  /** The parts of `update.channel_post` the handler reads; `text` is None for media posts. */
  datatype Post = Post(chatId: int, messageId: int, text: Option<string>)

  /**
   * The arguments of `send_message`: the chat, the text as passed (Markdown
   * source, not as Telegram displays it), its parse mode and the post it answers.
   */
  datatype Reply = Reply(chatId: int, text: string, parseMode: string, replyToMessageId: int)

  datatype Outcome =
    | /** returned early: another chat, no text, or no "Deadline:" in it */
      Ignored
    | /** "date not found" logged */
      NoDeadline
    | /** `datetime(...)` raised ValueError outside the `try`, so it escapes the handler */
      InvalidDateRaised(fields: DateTime)
    | /** the reminder time lies past year 9999; the OverflowError is caught and logged */
      OverflowLogged
    | /** "less than 10 minutes away" logged */
      TooSoon(delaySeconds: int)
    | /** the bot sleeps `delaySeconds`, then sends `reply`; `at` is the local reminder time */
      Scheduled(delaySeconds: int, at: DateTime, reply: Reply)

  const ReminderOffsetHours := 3
  const MinLeadSeconds := 600
  const MicrosPerSecond := 1_000_000

  /** The ordinal of 1970-01-01, the origin of the clock's timestamps. */
  const UnixEpochOrdinal := 719163

  /** REPLY_TEXT: "⏰ only 30 minutes left!" in Persian. */
  const ReminderText := "\U{23F0} \U{0641}\U{0642}\U{0637} 30 \U{062F}\U{0642}\U{06CC}\U{0642}\U{0647} \U{0628}\U{0627}\U{0642}\U{06CC} \U{0645}\U{0627}\U{0646}\U{062F}\U{0647}!"

  /** Two newlines, a pushpin and the Markdown label "view related post", up to the link. */
  const LinkOpening := "\n\n\U{1F4CC} [\U{0645}\U{0634}\U{0627}\U{0647}\U{062F}\U{0647} \U{067E}\U{06CC}\U{0627}\U{0645} \U{0645}\U{0631}\U{062A}\U{0628}\U{0637}]("

  const LinkHost := "https://t.me/"

  /** The `parse_mode` the reply is sent with. */
  const MarkdownParseMode := "Markdown"

  // ---------------------------------------------------------------------------
  // The reminder text.

  /** The deep link to a channel post, `https://t.me/<username>/<id>`. */
  function Link(username: string, messageId: int): (r: string)
    ensures |r| > |LinkHost| + |username| + 1
    ensures r[..|LinkHost|] == LinkHost && r[|LinkHost|..|LinkHost| + |username|] == username
    ensures r[|LinkHost| + |username|] == '/'
    ensures r[|LinkHost| + |username| + 1..] == IntToDecimal(messageId)
  {
    LinkHost + username + "/" + IntToDecimal(messageId)
  }

  /** Everything in the reply before the message id. */
  function ReplyPrefix(username: string): string {
    ReminderText + LinkOpening + LinkHost + username + "/"
  }

  /** The reminder text followed by a Markdown link to the post. */
  function ReplyText(username: string, messageId: int): (r: string)
    ensures |r| > |ReminderText + LinkOpening| + 1
    ensures r[..|ReminderText|] == ReminderText
    ensures r[|ReminderText|..|ReminderText + LinkOpening|] == LinkOpening
    ensures r[|ReminderText + LinkOpening|..|r| - 1] == Link(username, messageId)
    ensures r[|r| - 1] == ')'
  {
    ReminderText + LinkOpening + Link(username, messageId) + ")"
  }

  /** Regrouping a concatenation; `ReplyTextSplits` names each regrouping step it needs with it. */
  lemma AppendAssociative(a: string, b: string, c: string)
    ensures a + (b + c) == a + b + c
  {
  }

  /** The reply is the fixed prefix, the decimal message id and a closing parenthesis. */
  lemma ReplyTextSplits(username: string, messageId: int)
    ensures ReplyText(username, messageId) == ReplyPrefix(username) + IntToDecimal(messageId) + ")"
  {
    var head := ReminderText + LinkOpening;
    var d := IntToDecimal(messageId);
    AppendAssociative(LinkHost + username, "/", d);
    AppendAssociative(head, LinkHost + username + "/", d);
    AppendAssociative(head + LinkHost, username, "/");
    AppendAssociative(head, LinkHost, username);
  }

  /** The message id a reminder links to, read back from its text. */
  function LinkedMessageId(text: string, username: string): (r: Option<int>)
  {
    var p := ReplyPrefix(username);
    if |p| < |text| && text[..|p|] == p && text[|text| - 1] == ')' then ParseInt(text[|p|..|text| - 1])
    else None
  }

  /** A reminder names exactly the post it answers. */
  lemma LinkRoundTrip(username: string, messageId: int)
    ensures LinkedMessageId(ReplyText(username, messageId), username) == Some(messageId)
  {
    var p := ReplyPrefix(username);
    var d := IntToDecimal(messageId);
    var t := ReplyText(username, messageId);
    ReplyTextSplits(username, messageId);
    assert |d| >= 1;
    assert t == p + d + ")";
    assert t[..|p|] == p;
    assert t[|p|..|t| - 1] == d;
    IntToDecimalRoundTrip(messageId);
  }

  /** Reminders for different posts have different texts. */
  lemma ReplyTextInjective(username: string, a: int, b: int)
    ensures ReplyText(username, a) == ReplyText(username, b) ==> a == b
  {
    LinkRoundTrip(username, a);
    LinkRoundTrip(username, b);
  }

  // ---------------------------------------------------------------------------
  // Time.

  /** Seconds since 1970-01-01 00:00 UTC of a local wall-clock time in a zone at the given offset. */
  function UnixSeconds(t: DateTime, utcOffsetSeconds: int): int
    requires ValidDateTime(t)
  {
    LocalSeconds(t) - utcOffsetSeconds - (UnixEpochOrdinal - 1) * SecondsPerDay
  }

  /** `int(td.total_seconds())` for a timedelta of `micros` microseconds: rounding toward zero. */
  function TruncSeconds(micros: int): (r: int)
    ensures micros >= 0 ==> r >= 0 && r * MicrosPerSecond <= micros < (r + 1) * MicrosPerSecond
    ensures micros < 0 ==> r <= 0 && (r - 1) * MicrosPerSecond < micros <= r * MicrosPerSecond
  {
    if micros >= 0 then micros / MicrosPerSecond else -((-micros) / MicrosPerSecond)
  }

  /** The whole-second delay reaches the threshold exactly when the exact difference does. */
  lemma TruncSecondsThreshold(micros: int)
    ensures TruncSeconds(micros) >= MinLeadSeconds <==> micros >= MinLeadSeconds * MicrosPerSecond
  {
  }

  /** The constant origin of Unix time is the ordinal `date(1970, 1, 1).toordinal()`. */
  lemma UnixEpochIsOrdinal()
    ensures ValidDate(1970, 1, 1) && Ordinal(1970, 1, 1) == UnixEpochOrdinal
  {
  }

  // ---------------------------------------------------------------------------
  // The handler.

  /** The early returns at main.py:39-43 let the post through. */
  predicate Accepted(cfg: Settings, post: Post) {
    post.chatId == cfg.channelId && post.text.Some? && post.text.value != [] && ContainsKeyword(post.text.value)
  }

  /** The `try` block: localise, add three hours, measure the delay, and reply or give up. */
  function Schedule(cfg: Settings, post: Post, event: DateTime, nowMicros: int): (r: Outcome)
    requires ValidDateTime(event)
    ensures r.OverflowLogged? || r.TooSoon? || r.Scheduled?
    ensures r.TooSoon? ==> r.delaySeconds < MinLeadSeconds
    ensures r.Scheduled? ==>
      && r.delaySeconds >= MinLeadSeconds
      && ValidDateTime(r.at)
      && r.reply.chatId == cfg.channelId
      && r.reply.replyToMessageId == post.messageId
      && r.reply.text == ReplyText(cfg.channelUsername, post.messageId)
      && r.reply.parseMode == MarkdownParseMode
      && LinkedMessageId(r.reply.text, cfg.channelUsername) == Some(post.messageId)
  {
    LinkRoundTrip(cfg.channelUsername, post.messageId);
    match AddHours(event, ReminderOffsetHours)
    case None => OverflowLogged
    case Some(at) =>
      var delay := TruncSeconds(UnixSeconds(at, cfg.utcOffsetSeconds) * MicrosPerSecond - nowMicros);
      if delay < MinLeadSeconds then TooSoon(delay)
      else Scheduled(delay, at, Reply(cfg.channelId, ReplyText(cfg.channelUsername, post.messageId), MarkdownParseMode, post.messageId))
  }

  /**
   * What one channel post leads to, with `nowMicros` the clock reading
   * (microseconds since 1970-01-01 00:00 UTC) taken inside the `try`.
   */
  function HandleChannelPost(cfg: Settings, post: Post, nowMicros: int): (r: Outcome)
    ensures r.Ignored? <==>
      post.chatId != cfg.channelId || post.text.None? || post.text.value == [] || !ContainsKeyword(post.text.value)
    ensures r.InvalidDateRaised? ==> !ValidDateTime(r.fields)
    ensures r.TooSoon? ==> r.delaySeconds < MinLeadSeconds
    ensures r.Scheduled? ==>
      && r.delaySeconds >= MinLeadSeconds
      && ValidDateTime(r.at)
      && r.reply.chatId == cfg.channelId
      && r.reply.replyToMessageId == post.messageId
      && r.reply.text == ReplyText(cfg.channelUsername, post.messageId)
      && r.reply.parseMode == MarkdownParseMode
      && LinkedMessageId(r.reply.text, cfg.channelUsername) == Some(post.messageId)
  {
    if post.chatId != cfg.channelId then Ignored
    else if post.text.None? || post.text.value == [] || !ContainsKeyword(post.text.value) then Ignored
    else
      match ExtractDateTime(post.text.value)
      case NotFound => NoDeadline
      case InvalidDate(t) => InvalidDateRaised(t)
      case Found(event) => Schedule(cfg, post, event, nowMicros)
  }

  // ---------------------------------------------------------------------------
  // How the outcome depends on the extracted deadline and on the clock.

  /** For an accepted post the extraction alone decides between no deadline, a raised error and the `try` block. */
  lemma OutcomeFollowsExtraction(cfg: Settings, post: Post, nowMicros: int)
    requires Accepted(cfg, post)
    ensures var r := HandleChannelPost(cfg, post, nowMicros);
      var x := ExtractDateTime(post.text.value);
      && (r.NoDeadline? <==> x.NotFound?)
      && (r.InvalidDateRaised? <==> x.InvalidDate?)
      && (r.InvalidDateRaised? ==> r.fields == x.t)
      && (x.Found? <==> r.OverflowLogged? || r.TooSoon? || r.Scheduled?)
  {
  }

  /** For an accepted post with a valid deadline, the outcome is that of the `try` block. */
  lemma HandleFound(cfg: Settings, post: Post, nowMicros: int, event: DateTime)
    requires Accepted(cfg, post) && ExtractDateTime(post.text.value) == Found(event)
    ensures ValidDateTime(event) && HandleChannelPost(cfg, post, nowMicros) == Schedule(cfg, post, event, nowMicros)
  {
  }

  /** The reminder is due three hours after the deadline, both on the wall clock and in absolute time. */
  lemma ReminderThreeHoursAfterDeadline(cfg: Settings, post: Post, nowMicros: int, event: DateTime)
    requires Accepted(cfg, post) && ExtractDateTime(post.text.value) == Found(event)
    ensures ValidDateTime(event)
    ensures var r := HandleChannelPost(cfg, post, nowMicros);
      && (r.OverflowLogged? <==> LocalSeconds(event) + ReminderOffsetHours * SecondsPerHour >= MaxOrdinal * SecondsPerDay)
      && (r.Scheduled? ==>
            && LocalSeconds(r.at) == LocalSeconds(event) + ReminderOffsetHours * SecondsPerHour
            && UnixSeconds(r.at, cfg.utcOffsetSeconds) == UnixSeconds(event, cfg.utcOffsetSeconds) + ReminderOffsetHours * SecondsPerHour
            && r.delaySeconds == TruncSeconds(UnixSeconds(r.at, cfg.utcOffsetSeconds) * MicrosPerSecond - nowMicros))
  {
    HandleFound(cfg, post, nowMicros, event);
    AddHoursShiftsSeconds(event, ReminderOffsetHours);
  }

  /**
   * A reminder is scheduled exactly when the clock reads at least ten minutes
   * before the reminder time; otherwise it is dropped as too soon.
   */
  lemma ScheduledIffLeadTime(cfg: Settings, post: Post, nowMicros: int, event: DateTime)
    requires Accepted(cfg, post) && ExtractDateTime(post.text.value) == Found(event)
    requires LocalSeconds(event) + ReminderOffsetHours * SecondsPerHour < MaxOrdinal * SecondsPerDay
    ensures var r := HandleChannelPost(cfg, post, nowMicros);
      var lead := (UnixSeconds(event, cfg.utcOffsetSeconds) + ReminderOffsetHours * SecondsPerHour) * MicrosPerSecond - nowMicros;
      && (r.Scheduled? <==> lead >= MinLeadSeconds * MicrosPerSecond)
      && (r.TooSoon? <==> lead < MinLeadSeconds * MicrosPerSecond)
  {
    HandleFound(cfg, post, nowMicros, event);
    AddHoursShiftsSeconds(event, ReminderOffsetHours);
    var at := AddHours(event, ReminderOffsetHours).value;
    TruncSecondsThreshold(UnixSeconds(at, cfg.utcOffsetSeconds) * MicrosPerSecond - nowMicros);
  }
}

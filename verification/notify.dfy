/**
 * Notification fan-out after an order is stored (`sendNotifications`): the
 * configuration read from the environment, the optional webhook, Telegram
 * and e-mail channels, the lazily created SMTP transport and the settle-all
 * dispatch in which one failing channel never holds back another.
 */
module Notify {
  import opened Wrappers
  import opened Strings
  import opened Js
  import opened OrderData
  import opened Uploads
  import opened Render

  /** The process environment. */
  type Env = map<string, string>

  /** `process.env[key] || fallback`. */
  function EnvOr(env: Env, key: string, fallback: string): string {
    if key in env && env[key] != "" then env[key] else fallback
  }

  /** `Number(text)` for the forms this model reads: blank text is 0, decimal
      digits (after trimming) are their value, anything else is `None`. */
  function NumberOf(text: string): (r: Option<nat>)
    ensures AllDigits(Trim(text)) && Trim(text) != "" ==> r == Some(DigitsValue(Trim(text)))
    ensures r.Some? <==> AllDigits(Trim(text))
  {
    var t := Trim(text);
    if t == "" then Some(0)
    else if AllDigits(t) then Some(DigitsValue(t))
    else None
  }

  const DefaultEmailTo := "saadbarghouth11@gmail.com"
  const DefaultSmtpPort: nat := 587
  const DefaultMailFrom := "no-reply@nemora.com"

  /** The notification settings the server reads once at start-up. */
  datatype NotifyConfig = NotifyConfig(
    webhookUrl: string,
    webhookToken: string,
    telegramBotToken: string,
    telegramChatId: string,
    emailTo: string,
    emailFrom: string,
    emailReplyTo: string,
    smtpHost: string,
    smtpPort: Option<nat>,
    smtpUser: string,
    smtpPass: string,
    smtpSecure: bool)

  /** Reads the notification settings, with the server's defaults. */
  function LoadNotifyConfig(env: Env): (c: NotifyConfig)
    ensures c.emailTo != ""
    ensures c.smtpPort == if "SMTP_PORT" in env && env["SMTP_PORT"] != ""
                          then NumberOf(env["SMTP_PORT"]) else Some(DefaultSmtpPort)
    ensures c.smtpSecure <==> "SMTP_SECURE" in env && ToLower(env["SMTP_SECURE"]) == "true"
  {
    NotifyConfig(
      EnvOr(env, "NOTIFY_WEBHOOK_URL", ""),
      EnvOr(env, "NOTIFY_WEBHOOK_TOKEN", ""),
      EnvOr(env, "TELEGRAM_BOT_TOKEN", ""),
      EnvOr(env, "TELEGRAM_CHAT_ID", ""),
      EnvOr(env, "EMAIL_TO", DefaultEmailTo),
      EnvOr(env, "EMAIL_FROM", ""),
      EnvOr(env, "EMAIL_REPLY_TO", ""),
      EnvOr(env, "SMTP_HOST", ""),
      if "SMTP_PORT" in env && env["SMTP_PORT"] != "" then NumberOf(env["SMTP_PORT"]) else Some(DefaultSmtpPort),
      EnvOr(env, "SMTP_USER", ""),
      EnvOr(env, "SMTP_PASS", ""),
      ToLower(EnvOr(env, "SMTP_SECURE", "")) == "true")
  }

  /** Because the recipient has a default, e-mail is on exactly when an SMTP
      host is configured; the webhook and Telegram channels need their own
      variables, so an empty environment switches every channel off. */
  lemma ChannelsFromEnv(env: Env)
    ensures var c := LoadNotifyConfig(env);
            && (c.smtpHost != "" && c.emailTo != "" <==> "SMTP_HOST" in env && env["SMTP_HOST"] != "")
            && (c.webhookUrl != "" <==> "NOTIFY_WEBHOOK_URL" in env && env["NOTIFY_WEBHOOK_URL"] != "")
            && (c.telegramBotToken != "" && c.telegramChatId != "" <==>
                  && "TELEGRAM_BOT_TOKEN" in env && env["TELEGRAM_BOT_TOKEN"] != ""
                  && "TELEGRAM_CHAT_ID" in env && env["TELEGRAM_CHAT_ID"] != "")
    ensures var c := LoadNotifyConfig(map[]);
            && c.emailTo == DefaultEmailTo && c.smtpPort == Some(DefaultSmtpPort) && !c.smtpSecure
            && c.smtpHost == "" && c.webhookUrl == "" && c.telegramBotToken == ""
  {
  }

  // ---------------------------------------------------------------------------
  // getEmailTransporter
  // ---------------------------------------------------------------------------

  /** The options an SMTP transport is created with. */
  datatype Transport = Transport(host: string, port: Option<nat>, secure: bool, auth: Option<(string, string)>)

  /** The transport options for a configuration: credentials only when both
      the user and the password are set. */
  function TransportFor(c: NotifyConfig): (t: Transport)
    ensures t.host == c.smtpHost && t.port == c.smtpPort && t.secure == c.smtpSecure
    ensures t.auth.Some? <==> c.smtpUser != "" && c.smtpPass != ""
    ensures t.auth.Some? ==> t.auth.value == (c.smtpUser, c.smtpPass)
  {
    Transport(c.smtpHost, c.smtpPort, c.smtpSecure,
      if c.smtpUser != "" && c.smtpPass != "" then Some((c.smtpUser, c.smtpPass)) else None)
  }

  /** `getEmailTransporter`: none without an SMTP host; otherwise the cached
      transport, created on first use. Returns the transport and the new cache. */
  function GetEmailTransporter(c: NotifyConfig, cache: Option<Transport>): (r: (Option<Transport>, Option<Transport>))
    ensures c.smtpHost == "" ==> r.0.None? && r.1 == cache
    ensures c.smtpHost != "" ==> r.0.Some? && r.1 == r.0
    ensures c.smtpHost != "" && cache.Some? ==> r.0 == cache
    ensures c.smtpHost != "" && cache.None? ==> r.0 == Some(TransportFor(c))
  {
    if c.smtpHost == "" then (None, cache)
    else if cache.None? then (Some(TransportFor(c)), Some(TransportFor(c)))
    else (cache, cache)
  }

  /** The transport is created at most once: a second request returns the
      very transport the first one created and leaves the cache as it was. */
  lemma TransporterReused(c: NotifyConfig, cache: Option<Transport>)
    requires c.smtpHost != ""
    ensures var (t1, cache1) := GetEmailTransporter(c, cache);
            var (t2, cache2) := GetEmailTransporter(c, cache1);
            t2 == t1 && cache2 == cache1
  {
  }

  // ---------------------------------------------------------------------------
  // sendEmailNotification
  // ---------------------------------------------------------------------------

  /** Where uploads live on disk: the URL parser, the uploads directory and
      the set of files that exist. */
  datatype Disk = Disk(parseUrl: string -> Option<string>, uploadsDir: seq<string>, existing: set<seq<string>>)

  /** The message handed to the SMTP transport. */
  datatype Mail = Mail(
    from: string,
    to: string,
    subject: string,
    text: string,
    html: string,
    attachments: seq<Attachment>,
    replyTo: Option<string>)

  /** The sender address: `EMAIL_FROM`, else the SMTP user, else the fixed default. */
  function MailFrom(c: NotifyConfig): string {
    if c.emailFrom != "" then c.emailFrom
    else if c.smtpUser != "" then c.smtpUser
    else DefaultMailFrom
  }

  /** The content id of the inline preview, empty without an image attachment. */
  function PreviewCid(a: Option<Attachment>): string {
    if a.Some? && a.value.cid.Some? then a.value.cid.value else ""
  }

  /** The mail for one order. */
  function MailFor(c: NotifyConfig, order: Order, disk: Disk): Mail {
    var attachment := OrderAttachment(order, disk.parseUrl, disk.uploadsDir, disk.existing);
    Mail(
      MailFrom(c),
      c.emailTo,
      "Nemora order " + order.id,
      BuildNotificationMessage(order),
      BuildEmailHtml(order, PreviewCid(attachment)),
      if attachment.Some? then [attachment.value] else [],
      if c.emailReplyTo != "" then Some(c.emailReplyTo) else None)
  }

  /** What the mail says: addressed to `EMAIL_TO` from the first of
      `EMAIL_FROM`, the SMTP user and the default sender; subject
      `Nemora order <id>`; the plain-text notification as text; the
      uploaded design attached when it exists on disk; the HTML showing it
      inline exactly when it is an image; a reply-to only when configured. */
  lemma MailContents(c: NotifyConfig, order: Order, disk: Disk)
    ensures var m := MailFor(c, order, disk);
            && m.to == c.emailTo
            && m.subject == "Nemora order " + order.id
            && m.text == BuildNotificationMessage(order)
            && (c.emailFrom != "" ==> m.from == c.emailFrom)
            && (c.emailFrom == "" && c.smtpUser != "" ==> m.from == c.smtpUser)
            && (c.emailFrom == "" && c.smtpUser == "" ==> m.from == DefaultMailFrom)
            && (m.replyTo.Some? <==> c.emailReplyTo != "")
            && (m.replyTo.Some? ==> m.replyTo.value == c.emailReplyTo)
    ensures var m := MailFor(c, order, disk);
            var p := ResolveUploadPath(order.fileUrl, disk.parseUrl, disk.uploadsDir);
            && |m.attachments| <= 1
            && (|m.attachments| == 1 <==> p.Some? && p.value in disk.existing)
            && (|m.attachments| == 1 ==> m.attachments[0].path == p.value)
    ensures var m := MailFor(c, order, disk);
            var p := ResolveUploadPath(order.fileUrl, disk.parseUrl, disk.uploadsDir);
            var inline := p.Some? && p.value in disk.existing && PathExtension(p.value) in ImageExtensions;
            && (inline ==> m.html == BuildEmailHtml(order, "design-" + order.id))
            && (!inline ==> m.html == BuildEmailHtml(order, ""))
  {
  }

  /** `sendEmailNotification`: the transport and the mail to send, or nothing
      without an SMTP host or recipient. Returns the new transport cache too. */
  function SendEmailNotification(c: NotifyConfig, order: Order, disk: Disk, cache: Option<Transport>)
    : (r: (Option<(Transport, Mail)>, Option<Transport>))
    ensures r.0.Some? <==> c.smtpHost != "" && c.emailTo != ""
    ensures r.0.Some? ==> r.0.value.1 == MailFor(c, order, disk)
    ensures r.1 == GetEmailTransporter(c, cache).1
  {
    var (transport, cache1) := GetEmailTransporter(c, cache);
    if transport.None? || c.emailTo == "" then (None, cache1)
    else (Some((transport.value, MailFor(c, order, disk))), cache1)
  }

  // ---------------------------------------------------------------------------
  // sendNotifications
  // ---------------------------------------------------------------------------

  /** The notification channels. */
  datatype Channel = Webhook | Telegram | Email

  /** One outbound request of the fan-out. */
  datatype Dispatch =
    | WebhookPost(url: string, headers: seq<(string, string)>, text: string, order: Order)
    | TelegramPost(url: string, chatId: string, text: string)
    | EmailSend(transport: Transport, mail: Mail)
  {
    /** The channel the request goes out on. */
    function Channel(): Channel {
      match this
      case WebhookPost(_, _, _, _) => Webhook
      case TelegramPost(_, _, _) => Telegram
      case EmailSend(_, _) => Email
    }

    /** The notification text the request carries. */
    function Text(): string {
      match this
      case WebhookPost(_, _, text, _) => text
      case TelegramPost(_, _, text) => text
      case EmailSend(_, mail) => mail.text
    }
  }

  /** The webhook request headers, with a bearer token when one is configured. */
  function WebhookHeaders(c: NotifyConfig): seq<(string, string)> {
    [("Content-Type", "application/json")]
    + if c.webhookToken != "" then [("Authorization", "Bearer " + c.webhookToken)] else []
  }

  function TelegramUrl(token: string): string {
    "https://api.telegram.org/bot" + token + "/sendMessage"
  }

  predicate TelegramConfigured(c: NotifyConfig) {
    c.telegramBotToken != "" && c.telegramChatId != ""
  }

  predicate EmailConfigured(c: NotifyConfig) {
    c.smtpHost != "" && c.emailTo != ""
  }

  /** The requests of the fan-out given the notification text and the
      e-mail to send, if any: webhook, then Telegram, then e-mail. */
  function AssembleDispatches(c: NotifyConfig, message: string, order: Order, email: Option<(Transport, Mail)>)
    : seq<Dispatch>
  {
    (if c.webhookUrl != "" then [WebhookPost(c.webhookUrl, WebhookHeaders(c), message, order)] else [])
    + (if TelegramConfigured(c) then [TelegramPost(TelegramUrl(c.telegramBotToken), c.telegramChatId, message)] else [])
    + (if email.Some? then [EmailSend(email.value.0, email.value.1)] else [])
  }

  /** The requests `sendNotifications` issues for one order, in order, and the
      transport cache afterwards. */
  function PlanNotifications(c: NotifyConfig, order: Order, disk: Disk, cache: Option<Transport>)
    : (r: (seq<Dispatch>, Option<Transport>))
  {
    var (email, cache1) := SendEmailNotification(c, order, disk, cache);
    (AssembleDispatches(c, BuildNotificationMessage(order), order, email), cache1)
  }

  /** The channels a list of requests goes out on, in order. */
  function Channels(ds: seq<Dispatch>): (r: seq<Channel>)
    ensures |r| == |ds| && forall i :: 0 <= i < |ds| ==> r[i] == ds[i].Channel()
    decreases |ds|
  {
    if |ds| == 0 then [] else [ds[0].Channel()] + Channels(ds[1..])
  }

  lemma {:induction false} ChannelsConcat(a: seq<Dispatch>, b: seq<Dispatch>)
    ensures Channels(a + b) == Channels(a) + Channels(b)
  {
    var x := Channels(a + b);
    var y := Channels(a) + Channels(b);
    assert |x| == |y|;
    forall i | 0 <= i < |x| ensures x[i] == y[i] {
      if i < |a| {
        assert (a + b)[i] == a[i];
      } else {
        assert (a + b)[i] == b[i - |a|];
      }
    }
  }

  /** The channels the configuration switches on: the webhook when its URL is
      set, Telegram when both bot token and chat id are set, and e-mail when
      there is one to send; in that order, each at most once. */
  function SelectedChannels(c: NotifyConfig, emailReady: bool): seq<Channel> {
    (if c.webhookUrl != "" then [Webhook] else [])
    + (if TelegramConfigured(c) then [Telegram] else [])
    + (if emailReady then [Email] else [])
  }

  /** The shape of the fan-out: exactly the switched-on channels, in order. */
  lemma AssembleChannels(c: NotifyConfig, message: string, order: Order, email: Option<(Transport, Mail)>)
    ensures Channels(AssembleDispatches(c, message, order, email)) == SelectedChannels(c, email.Some?)
  {
    var webhook := if c.webhookUrl != "" then [WebhookPost(c.webhookUrl, WebhookHeaders(c), message, order)] else [];
    var telegram := if TelegramConfigured(c) then [TelegramPost(TelegramUrl(c.telegramBotToken), c.telegramChatId, message)] else [];
    var tail := if email.Some? then [EmailSend(email.value.0, email.value.1)] else [];
    SlotChannels(webhook, telegram, tail);
  }

  /** Channels of an optional webhook request, then an optional Telegram
      request, then an optional e-mail. */
  lemma SlotChannels(w: seq<Dispatch>, t: seq<Dispatch>, e: seq<Dispatch>)
    requires |w| <= 1 && |t| <= 1 && |e| <= 1
    requires |w| == 1 ==> w[0].WebhookPost?
    requires |t| == 1 ==> t[0].TelegramPost?
    requires |e| == 1 ==> e[0].EmailSend?
    ensures Channels(w + t + e)
            == (if |w| == 1 then [Webhook] else []) + (if |t| == 1 then [Telegram] else []) + (if |e| == 1 then [Email] else [])
  {
    ChannelsConcat(w + t, e);
    ChannelsConcat(w, t);
  }

  /** Where each request goes and what it carries: the webhook request goes to
      the configured URL with the order and carries the bearer header exactly
      when a token is configured; the Telegram request goes to the bot's
      `sendMessage` endpoint for the configured chat; every request carries
      the same notification text. */
  lemma AssembleTargets(c: NotifyConfig, message: string, order: Order, email: Option<(Transport, Mail)>)
    requires email.Some? ==> email.value.1.text == message
    ensures var ds := AssembleDispatches(c, message, order, email);
            forall i :: 0 <= i < |ds| ==> ds[i].Text() == message
    ensures var ds := AssembleDispatches(c, message, order, email);
            forall i :: 0 <= i < |ds| && ds[i].WebhookPost? ==>
              && ds[i].url == c.webhookUrl
              && ds[i].order == order
              && (("Authorization", "Bearer " + c.webhookToken) in ds[i].headers <==> c.webhookToken != "")
    ensures var ds := AssembleDispatches(c, message, order, email);
            forall i :: 0 <= i < |ds| && ds[i].TelegramPost? ==>
              ds[i].url == TelegramUrl(c.telegramBotToken) && ds[i].chatId == c.telegramChatId
    ensures var ds := AssembleDispatches(c, message, order, email);
            forall i :: 0 <= i < |ds| && ds[i].EmailSend? ==> email == Some((ds[i].transport, ds[i].mail))
  {
    var h := WebhookHeaders(c);
    assert c.webhookToken == "" ==> h == [("Content-Type", "application/json")];
    assert ("Content-Type", "application/json") != ("Authorization", "Bearer " + c.webhookToken);
  }

  /** For an order: the channels that fire follow the configuration, the
      e-mail fires exactly when an SMTP host and a recipient are set and
      carries `MailFor`, and every request carries the order's notification
      text. */
  lemma NotificationChannels(c: NotifyConfig, order: Order, disk: Disk, cache: Option<Transport>)
    ensures Channels(PlanNotifications(c, order, disk, cache).0) == SelectedChannels(c, EmailConfigured(c))
    ensures var ds := PlanNotifications(c, order, disk, cache).0;
            && (forall i :: 0 <= i < |ds| && ds[i].EmailSend? ==> ds[i].mail == MailFor(c, order, disk))
            && (forall i :: 0 <= i < |ds| ==> ds[i].Text() == BuildNotificationMessage(order))
  {
    var (email, _) := SendEmailNotification(c, order, disk, cache);
    var message := BuildNotificationMessage(order);
    assert email.Some? ==> email.value.1.text == message;
    AssembleChannels(c, message, order, email);
    AssembleTargets(c, message, order, email);
  }

  /** `Promise.allSettled` over the planned requests: every request is issued
      whatever the others' outcomes, and each outcome is recorded. */
  method SettleAll(tasks: seq<Dispatch>, succeeds: Dispatch -> bool) returns (attempted: seq<Dispatch>, settled: seq<bool>)
    ensures attempted == tasks
    ensures |settled| == |tasks|
    ensures forall i :: 0 <= i < |tasks| ==> settled[i] == succeeds(tasks[i])
  {
    attempted := [];
    settled := [];
    var k := 0;
    while k < |tasks|
      invariant 0 <= k <= |tasks|
      invariant attempted == tasks[..k]
      invariant |settled| == k
      invariant forall i :: 0 <= i < k ==> settled[i] == succeeds(tasks[i])
    {
      attempted := attempted + [tasks[k]];
      settled := settled + [succeeds(tasks[k])];
      k := k + 1;
    }
  }
}

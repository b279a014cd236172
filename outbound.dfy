/**
 * Outbound mail: the SMTP configuration guard, the admin's `sendEmail`
 * (one delivery, then one "Sent" row in the store), and the three site
 * notifications. The SMTP transport is a parameter: it either accepts a
 * message and reports a message id (possibly none), or rejects it.
 */
module Outbound {
  import opened Wrappers
  import opened Strings
  import opened Config
  import opened Mail
  import opened MailStore

  // ---------------------------------------------------------------- transport

  datatype SmtpConfig = SmtpConfig(host: string, port: Option<int>, secure: bool, user: string, pass: string)

  /** `getTransporter`: no transport unless host, user and password are all set. */
  function GetTransporter(env: Env, parseInt: ParseInt): (r: Option<SmtpConfig>)
    ensures r.Some? <==> Truthy(env.smtpHost) && Truthy(env.smtpUser) && Truthy(env.smtpPass)
    ensures r.Some? ==> r.value.host == env.smtpHost.value && r.value.user == env.smtpUser.value && r.value.pass == env.smtpPass.value
    ensures r.Some? ==> (r.value.secure <==> env.smtpSecure != Some("false"))
    ensures r.Some? && !Truthy(env.smtpPort) ==> r.value.port == parseInt("465")
    ensures r.Some? && Truthy(env.smtpPort) ==> r.value.port == parseInt(env.smtpPort.value)
  {
    if !Truthy(env.smtpHost) || !Truthy(env.smtpUser) || !Truthy(env.smtpPass) then None
    else Some(SmtpConfig(env.smtpHost.value, IntSetting(env.smtpPort, "465", parseInt),
                         env.smtpSecure != Some("false"), env.smtpUser.value, env.smtpPass.value))
  }

  /** The HTML part: literal markup, or one of the notification templates (their layout is not modelled). */
  datatype Html =
    | Markup(text: string)
    | ContactNotice(firstName: string, lastName: string, email: string, subject: Option<string>, message: string)
    | ContactThanks(firstName: string)
    | InquiryNotice(name: string, email: string, message: string, locale: string)

  /** The fields handed to `sendMail`; `None` is `undefined`. */
  datatype Outgoing = Outgoing(
    from: Option<string>,
    to: string,
    cc: Option<string>,
    bcc: Option<string>,
    subject: string,
    html: Html,
    text: Option<string>,
    inReplyTo: Option<string>,
    references: Option<string>
  )

  /** What `sendMail` resolves to: the transport's message id, which may be missing. */
  datatype Delivery = Delivery(messageId: Option<string>)

  /** `transporter.sendMail`: `None` when it rejects. */
  type Transport = Outgoing -> Option<Delivery>

  /** `SMTP_FROM || SMTP_USER`. */
  function SenderAddress(env: Env): (r: Option<string>)
    ensures Truthy(env.smtpFrom) ==> r == env.smtpFrom
    ensures !Truthy(env.smtpFrom) ==> r == env.smtpUser
  {
    if Truthy(env.smtpFrom) then env.smtpFrom else env.smtpUser
  }

  // ---------------------------------------------------------------- tag stripping

  /** The first `>` at or after `from`. */
  function CloseAfter(s: string, from: nat): (r: Option<nat>)
    ensures r.Some? ==> from <= r.value < |s| && s[r.value] == '>'
    ensures r.Some? ==> forall k :: from <= k < r.value ==> s[k] != '>'
    ensures r.None? ==> forall k :: from <= k < |s| ==> s[k] != '>'
    decreases |s| - from
  {
    if from >= |s| then None else if s[from] == '>' then Some(from) else CloseAfter(s, from + 1)
  }

  /**
   * `html.replace(/<[^>]*>/g, "")`: scanning left to right, a `<` with a `>`
   * somewhere after it is removed together with everything up to the first
   * such `>`; a `<` with no `>` after it stays.
   */
  function StripTags(s: string): (r: string)
    ensures |r| <= |s|
    ensures forall k :: 0 <= k < |r| ==> r[k] in s
    decreases |s|
  {
    if s == [] then ""
    else if s[0] == '<' && CloseAfter(s, 1).Some? then StripTags(s[CloseAfter(s, 1).value + 1..])
    else [s[0]] + StripTags(s[1..])
  }

  /** No `<` is followed, anywhere later, by a `>`: the pattern has nothing left to match. */
  predicate TagFree(s: string) {
    forall i, j :: 0 <= i < j < |s| && s[i] == '<' ==> s[j] != '>'
  }

  /** After stripping no tag is left. */
  lemma {:induction false} StripTagsLeavesNoTag(s: string)
    ensures TagFree(StripTags(s))
    decreases |s|
  {
    if s == [] {
    } else if s[0] == '<' && CloseAfter(s, 1).Some? {
      StripTagsLeavesNoTag(s[CloseAfter(s, 1).value + 1..]);
    } else {
      StripTagsLeavesNoTag(s[1..]);
      var rest := StripTags(s[1..]);
      if s[0] == '<' {
        var tail := s[1..];
        assert forall m :: 0 <= m < |tail| ==> tail[m] != '>';
        assert '>' !in tail;
        forall k | 0 <= k < |rest| ensures rest[k] != '>' {
          assert rest[k] in tail;
        }
      }
      ConsTagFree(s[0], rest);
    }
  }

  /** A character can go in front of tag-free text unless it opens a tag that the text closes. */
  lemma ConsTagFree(c: char, rest: string)
    requires TagFree(rest)
    requires c == '<' ==> forall k :: 0 <= k < |rest| ==> rest[k] != '>'
    ensures TagFree([c] + rest)
  {
    var r := [c] + rest;
    forall i, j | 0 <= i < j < |r| && r[i] == '<' ensures r[j] != '>' {
      assert r[j] == rest[j - 1];
      if i > 0 {
        assert r[i] == rest[i - 1];
      }
    }
  }

  /** Text without tags passes unchanged, `<` and `>` included. */
  lemma {:induction false} StripTagsKeepsTagFree(s: string)
    requires TagFree(s)
    ensures StripTags(s) == s
    decreases |s|
  {
    if s != [] {
      assert TagFree(s[1..]) by {
        forall i, j | 0 <= i < j < |s[1..]| && s[1..][i] == '<' ensures s[1..][j] != '>' {
          assert s[i + 1] == '<';
        }
      }
      if s[0] == '<' {
        assert forall k :: 1 <= k < |s| ==> s[k] != '>';
      }
      StripTagsKeepsTagFree(s[1..]);
    }
  }

  /** Stripping twice strips nothing more. */
  lemma StripTagsIdempotent(s: string)
    ensures StripTags(StripTags(s)) == StripTags(s)
  {
    StripTagsLeavesNoTag(s);
    StripTagsKeepsTagFree(StripTags(s));
  }

  /** An illustration beside `StripTagsLeavesNoTag` and `StripTagsIdempotent`, which hold for every string: markup around text is removed. */
  lemma StripTagsMarkup()
    ensures StripTags("<b>Hi</b>") == "Hi"
  {
    var s := "<b>Hi</b>";
    StripTagsClosingTail();
    assert s[0] == '<' && s[1] == 'b' && s[2] == '>';
    assert CloseAfter(s, 2) == Some(2);
    assert CloseAfter(s, 1) == Some(2);
    assert s[3..] == "Hi</b>";
  }

  lemma StripTagsClosingTag()
    ensures StripTags("</b>") == ""
  {
    assert CloseAfter("</b>", 1) == Some(3);
  }

  lemma StripTagsClosingTail()
    ensures StripTags("Hi</b>") == "Hi"
  {
    StripTagsClosingTag();
    assert "Hi</b>"[1..] == "i</b>";
    assert "i</b>"[1..] == "</b>";
  }

  /** An illustration beside `StripTagsLeavesNoTag`: a `<` that no `>` closes stays. */
  lemma StripTagsUnclosed()
    ensures StripTags("a<b") == "a<b"
  {
    assert "a<b"[1..] == "<b";
    assert CloseAfter("<b", 1) == None;
    assert StripTags("<b") == "<b" by {
      assert "<b"[1..] == "b";
    }
  }

  // ---------------------------------------------------------------- sendEmail

  /** The admin's send request; `None` is an absent optional field. */
  datatype SendParams = SendParams(
    to: seq<string>,
    cc: Option<seq<string>>,
    bcc: Option<seq<string>>,
    subject: string,
    html: string,
    text: Option<string>,
    inReplyTo: Option<string>,
    references: Option<seq<string>>
  )

  datatype SendError = NotConfigured(message: string) | DeliveryFailed | StoreFailed(cause: StoreError)

  const NotConfiguredMessage: string := "SMTP not configured"
  const SentFolder: string := "Sent"
  const SenderName: string := "ITL Solutions"

  /** `text || html.replace(/<[^>]*>/g, "")`: the plain-text part, sent and stored alike. */
  function PlainText(p: SendParams): (r: string)
    ensures Truthy(p.text) ==> r == p.text.value
    ensures !Truthy(p.text) ==> r == StripTags(p.html) && TagFree(r)
  {
    StripTagsLeavesNoTag(p.html);
    if Truthy(p.text) then p.text.value else StripTags(p.html)
  }

  /** `list?.join(sep)`. */
  function JoinOptional(xs: Option<seq<string>>, sep: string): (r: Option<string>)
    ensures r.Some? <==> xs.Some?
  {
    if xs.Some? then Some(Join(xs.value, sep)) else None
  }

  /** The message handed to the transport. */
  function OutgoingFor(env: Env, p: SendParams): Outgoing {
    Outgoing(SenderAddress(env), Join(p.to, ", "), JoinOptional(p.cc, ", "), JoinOptional(p.bcc, ", "),
             p.subject, Markup(p.html), Some(PlainText(p)), p.inReplyTo, JoinOptional(p.references, " "))
  }

  /** The "Sent" row recorded once the transport has accepted the message; `now` is `Date.now()`. */
  function SentRow(env: Env, p: SendParams, d: Delivery, now: nat): EmailRow {
    var text := PlainText(p);
    EmailRow(
      id := 0,
      messageId := OrElse(d.messageId, "sent-" + NatToString(now)),
      uid := 0,
      folder := SentFolder,
      from := OrElse(env.smtpUser, ""),
      fromName := Some(SenderName),
      to := p.to,
      cc := p.cc.GetOr([]),
      subject := p.subject,
      textBody := Some(text),
      htmlBody := Some(p.html),
      snippet := Take(text, SnippetLength),
      isRead := true,
      isStarred := false,
      isDeleted := false,
      hasAttachments := false,
      inReplyTo := OrNull(p.inReplyTo),
      references := p.references.GetOr([]),
      date := now
    )
  }

  /** The store afterwards, the messages handed to the transport, and what `sendEmail` resolves or throws. */
  datatype SendOutcome = SendOutcome(t: Tables, sent: seq<Outgoing>, result: Result<Delivery, SendError>)

  function SendSpec(t: Tables, env: Env, parseInt: ParseInt, p: SendParams, transport: Transport, now: nat): SendOutcome {
    if GetTransporter(env, parseInt).None? then SendOutcome(t, [], Err(NotConfigured(NotConfiguredMessage)))
    else
      var msg := OutgoingFor(env, p);
      match transport(msg)
      case None => SendOutcome(t, [msg], Err(DeliveryFailed))
      case Some(d) =>
        match InsertEmail(t, SentRow(env, p, d, now))
        case Err(e) => SendOutcome(t, [msg], Err(StoreFailed(e)))
        case Ok(ins) => SendOutcome(ins.0, [msg], Ok(d))
  }

  /** `sendEmail`: guard, deliver, then record the "Sent" row. */
  method SendEmail(store: Store, env: Env, parseInt: ParseInt, p: SendParams, transport: Transport, now: nat)
    returns (r: Result<Delivery, SendError>, sent: seq<Outgoing>)
    modifies store
    ensures var o := SendSpec(old(store.Snapshot()), env, parseInt, p, transport, now);
      r == o.result && sent == o.sent && store.Snapshot() == o.t
  {
    if GetTransporter(env, parseInt).None? {
      return Err(NotConfigured(NotConfiguredMessage)), [];
    }
    var msg := OutgoingFor(env, p);
    sent := [msg];
    var info := transport(msg);
    if info.None? {
      return Err(DeliveryFailed), sent;
    }
    var created := store.CreateEmail(SentRow(env, p, info.value, now));
    if created.Err? {
      return Err(StoreFailed(created.error)), sent;
    }
    r := Ok(info.value);
  }

  /** Without SMTP configuration `sendEmail` throws "SMTP not configured" before sending or storing anything. */
  lemma SendNeedsConfiguration(t: Tables, env: Env, parseInt: ParseInt, p: SendParams, transport: Transport, now: nat)
    ensures var o := SendSpec(t, env, parseInt, p, transport, now);
      && (o.result == Err(NotConfigured(NotConfiguredMessage)) <==>
            !(Truthy(env.smtpHost) && Truthy(env.smtpUser) && Truthy(env.smtpPass)))
      && (o.result.Err? && o.result.error.NotConfigured? ==> o.sent == [] && o.t == t)
  {
  }

  /**
   * The row is stored only after the transport accepted the message: any
   * failure leaves the store as it was, and success adds exactly one row.
   */
  lemma SendStoresOnlyAfterDelivery(t: Tables, env: Env, parseInt: ParseInt, p: SendParams, transport: Transport, now: nat)
    ensures var o := SendSpec(t, env, parseInt, p, transport, now);
      && (o.result.Err? ==> o.t == t)
      && (o.result.Ok? <==>
            (GetTransporter(env, parseInt).Some? && transport(OutgoingFor(env, p)).Some?
             && !HasMessageId(t.emails, SentRow(env, p, transport(OutgoingFor(env, p)).value, now).messageId)))
      && (o.result.Ok? ==> |o.t.emails| == |t.emails| + 1 && o.t.emails[..|t.emails|] == t.emails)
      && (o.result.Err? && o.result.error == DeliveryFailed ==> o.sent == [OutgoingFor(env, p)])
  {
    var o := SendSpec(t, env, parseInt, p, transport, now);
    if o.result.Ok? {
      assert o.t.emails[..|t.emails|] == t.emails;
    }
  }

  /**
   * What the stored "Sent" row holds: UID 0 in "Sent", read, from "ITL
   * Solutions", the sent plain text as its body and the first 200
   * characters of it as the snippet, the transport's id or a non-empty
   * `sent-` id, and the absent optional fields as null or `[]`.
   */
  lemma SentRowFields(t: Tables, env: Env, parseInt: ParseInt, p: SendParams, transport: Transport, now: nat)
    requires SendSpec(t, env, parseInt, p, transport, now).result.Ok?
    ensures var o := SendSpec(t, env, parseInt, p, transport, now);
      var row := o.t.emails[|t.emails|];
      var msg := OutgoingFor(env, p);
      && |o.t.emails| == |t.emails| + 1
      && o.sent == [msg]
      && row.uid == 0 && row.folder == "Sent" && row.isRead && row.fromName == Some("ITL Solutions")
      && row.id == t.nextId
      && row.textBody == msg.text
      && (!Truthy(p.text) ==> row.textBody == Some(StripTags(p.html)) && TagFree(row.textBody.value))
      && |row.snippet| <= 200 && StartsWith(row.textBody.value, row.snippet)
      && (|row.textBody.value| >= 200 ==> |row.snippet| == 200)
      && (Truthy(o.result.value.messageId) ==> row.messageId == o.result.value.messageId.value)
      && row.messageId != ""
      && (p.cc.None? ==> row.cc == []) && (p.cc.Some? ==> row.cc == p.cc.value)
      && (p.references.None? ==> row.references == [])
      && (!Truthy(p.inReplyTo) ==> row.inReplyTo.None?)
      && row.to == p.to && row.htmlBody == Some(p.html)
  {
    var o := SendSpec(t, env, parseInt, p, transport, now);
    var d := o.result.value;
    var row := SentRow(env, p, d, now);
    assert o.t.emails == t.emails + [row.(id := t.nextId)];
    if !Truthy(d.messageId) {
      assert |row.messageId| >= |"sent-"|;
    }
  }

  /** The outgoing recipient lists are joined with ", ", the references with one space, and the same plain text is sent. */
  lemma OutgoingFields(env: Env, p: SendParams)
    ensures var m := OutgoingFor(env, p);
      && m.to == Join(p.to, ", ")
      && (p.cc.Some? ==> m.cc == Some(Join(p.cc.value, ", "))) && (p.cc.None? ==> m.cc.None?)
      && (p.bcc.Some? ==> m.bcc == Some(Join(p.bcc.value, ", "))) && (p.bcc.None? ==> m.bcc.None?)
      && (p.references.Some? ==> m.references == Some(Join(p.references.value, " ")))
      && m.text == Some(PlainText(p)) && m.html == Markup(p.html)
      && (|p.to| == 2 ==> m.to == p.to[0] + ", " + p.to[1])
  {
    if |p.to| == 2 {
      assert p.to[1..] == [p.to[1]];
    }
  }

  // ---------------------------------------------------------------- notifications

  const DefaultNotifyTo: string := "info@itlsolutions.net"
  const ConfirmationSubject: string := "Thank you for contacting ITL Solutions"

  datatype ContactParams = ContactParams(firstName: string, lastName: string, email: string, subject: Option<string>, message: string)

  /** `EMAIL_TO || "info@itlsolutions.net"`. */
  function NotifyTo(env: Env): string {
    OrElse(env.emailTo, DefaultNotifyTo)
  }

  /** `New Contact: ${subject || "Contact Form Submission"}`. */
  function ContactSubject(subject: Option<string>): (r: string)
    ensures Truthy(subject) ==> r == "New Contact: " + subject.value
    ensures !Truthy(subject) ==> r == "New Contact: Contact Form Submission"
  {
    "New Contact: " + OrElse(subject, "Contact Form Submission")
  }

  function ContactNoticeMessage(env: Env, c: ContactParams): Outgoing {
    Outgoing(SenderAddress(env), NotifyTo(env), None, None, ContactSubject(c.subject),
             ContactNotice(c.firstName, c.lastName, c.email, c.subject, c.message), None, None, None)
  }

  function ConfirmationMessage(env: Env, c: ContactParams): Outgoing {
    Outgoing(SenderAddress(env), c.email, None, None, ConfirmationSubject, ContactThanks(c.firstName), None, None, None)
  }

  function InquiryNoticeMessage(env: Env, name: string, email: string, message: string, locale: string): Outgoing {
    Outgoing(SenderAddress(env), NotifyTo(env), None, None, "Chat Inquiry: " + name,
             InquiryNotice(name, email, message, locale), None, None, None)
  }

  /** A notification helper: `null` when SMTP is unconfigured or the transport rejects, never a throw. */
  function Notify(env: Env, parseInt: ParseInt, msg: Outgoing, transport: Transport): (r: Option<Delivery>)
    ensures r.None? <==> GetTransporter(env, parseInt).None? || transport(msg).None?
    ensures r.Some? ==> r == transport(msg)
  {
    if GetTransporter(env, parseInt).None? then None else transport(msg)
  }

  /** `sendContactNotification`. */
  function ContactNotification(env: Env, parseInt: ParseInt, c: ContactParams, transport: Transport): Option<Delivery> {
    Notify(env, parseInt, ContactNoticeMessage(env, c), transport)
  }

  /** `sendContactConfirmation`. */
  function ContactConfirmation(env: Env, parseInt: ParseInt, c: ContactParams, transport: Transport): Option<Delivery> {
    Notify(env, parseInt, ConfirmationMessage(env, c), transport)
  }

  /** `sendChatInquiryNotification`. */
  function ChatInquiryNotification(env: Env, parseInt: ParseInt, name: string, email: string, message: string,
                                   locale: string, transport: Transport): Option<Delivery>
  {
    Notify(env, parseInt, InquiryNoticeMessage(env, name, email, message, locale), transport)
  }

  /**
   * The notification goes to `EMAIL_TO` (default info@itlsolutions.net) with
   * the "New Contact: " subject, the confirmation to the visitor, and the
   * inquiry notice to `EMAIL_TO` titled with the visitor's name; when the
   * transport would accept them, they fail only for want of configuration.
   */
  lemma NotificationRouting(env: Env, parseInt: ParseInt, c: ContactParams, name: string, email: string,
                            message: string, locale: string, transport: Transport)
    ensures ContactNoticeMessage(env, c).to == (if Truthy(env.emailTo) then env.emailTo.value else "info@itlsolutions.net")
    ensures !Truthy(c.subject) ==> ContactNoticeMessage(env, c).subject == "New Contact: Contact Form Submission"
    ensures ConfirmationMessage(env, c).to == c.email
    ensures InquiryNoticeMessage(env, name, email, message, locale).subject == "Chat Inquiry: " + name
    ensures (ContactNotification(env, parseInt, c, transport).None? && transport(ContactNoticeMessage(env, c)).Some?)
            ==> !(Truthy(env.smtpHost) && Truthy(env.smtpUser) && Truthy(env.smtpPass))
  {
  }
}

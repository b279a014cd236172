/**
 * The two public submission routes, the contact form and the chat
 * inquiry: their schemas, the submission they store, the notifications
 * they hand to the mailer afterwards without waiting for them, and the
 * replies they give.
 */
module PublicForms {
  import opened Wrappers
  import opened Config
  import opened Json
  import opened Schema
  import opened Outbound

  /** A public route's reply: its status, `success` and `message`. */
  datatype FormReply = FormReply(status: int, success: bool, message: string)

  const ThankYou := "Thank you for your message! We'll get back to you soon."
  const ValidationFailed := "Validation error"
  const SomethingWrong := "Something went wrong. Please try again later."
  const InquirySent := "Message sent successfully"
  const InquiryFailed := "Failed to send message"

  // ---------------------------------------------------------------- contact

  /** `contactSchema.parse`: non-empty names, a valid email, an optional subject, a message of at least 10 characters. */
  function ParseContact(body: Json, isEmail: string -> bool): Option<ContactParams> {
    match AsObject(body)
    case None => None
    case Some(fields) =>
      var firstName := RequiredString(fields, "firstName", 1);
      var lastName := RequiredString(fields, "lastName", 1);
      var email := EmailString(fields, "email", isEmail);
      var subject := OptionalString(fields, "subject");
      var message := RequiredString(fields, "message", 10);
      if firstName.Some? && lastName.Some? && email.Some? && subject.Some? && message.Some?
      then Some(ContactParams(firstName.value, lastName.value, email.value, subject.value, message.value))
      else None
  }

  /** What the contact schema demands of what it accepts. */
  lemma ParseContactMeaning(fields: Fields, isEmail: string -> bool)
    ensures var r := ParseContact(JObj(fields), isEmail);
      && (r.Some? ==> r.value.firstName != "" && r.value.lastName != "" && isEmail(r.value.email) && |r.value.message| >= 10)
      && (r.Some? ==> Lookup(fields, "message") == Some(JStr(r.value.message)))
      && (r.Some? ==> (r.value.subject.None? <==> Lookup(fields, "subject").None?))
      && (forall m :: Lookup(fields, "message") == Some(JStr(m)) && |m| < 10 ==> r.None?)
  {
    var r := ParseContact(JObj(fields), isEmail);
    if r.Some? {
      assert r.value.firstName == RequiredString(fields, "firstName", 1).value;
      assert r.value.lastName == RequiredString(fields, "lastName", 1).value;
      assert r.value.email == EmailString(fields, "email", isEmail).value;
      assert r.value.message == RequiredString(fields, "message", 10).value;
      assert r.value.subject == OptionalString(fields, "subject").value;
    }
  }

  /**
   * The contact route's reply: a body that is not JSON, or a failed
   * insert, is 500; a body the schema refuses is 400 "Validation error";
   * otherwise 201 with the thank-you message. No notification outcome
   * enters it.
   */
  function ContactReply(body: Option<Json>, isEmail: string -> bool, available: bool): (r: FormReply)
    ensures r.success <==> r.status == 201
  {
    if body.None? then FormReply(500, false, SomethingWrong)
    else match ParseContact(body.value, isEmail)
      case None => FormReply(400, false, ValidationFailed)
      case Some(_) => if available then FormReply(201, true, ThankYou) else FormReply(500, false, SomethingWrong)
  }

  /** What the contact route stores: the parsed submission, when parsing and the insert succeed. */
  function ContactStored(body: Option<Json>, isEmail: string -> bool, available: bool): (r: Option<ContactParams>)
    ensures r.Some? <==> ContactReply(body, isEmail, available).status == 201
    ensures r.Some? ==> r == ParseContact(body.value, isEmail)
  {
    if body.Some? && ParseContact(body.value, isEmail).Some? && available then ParseContact(body.value, isEmail) else None
  }

  /** A refused submission is answered 400 and stores nothing; 500 stores nothing either. */
  lemma ContactRefused(body: Json, isEmail: string -> bool, available: bool)
    requires ParseContact(body, isEmail).None?
    ensures ContactReply(Some(body), isEmail, available) == FormReply(400, false, ValidationFailed)
    ensures ContactStored(Some(body), isEmail, available).None?
  {
  }

  // ---------------------------------------------------------------- chat inquiry

  datatype Inquiry = Inquiry(name: string, email: string, message: string, locale: string)

  const Locales := ["en", "ru"]

  /** `inquirySchema.parse`: a non-empty name, a valid email, a message of at least 10 characters, and the locale "en" or "ru", "en" by default. */
  function ParseInquiry(body: Json, isEmail: string -> bool): Option<Inquiry> {
    match AsObject(body)
    case None => None
    case Some(fields) =>
      var name := RequiredString(fields, "name", 1);
      var email := EmailString(fields, "email", isEmail);
      var message := RequiredString(fields, "message", 10);
      var locale := EnumOr(fields, "locale", Locales, "en");
      if name.Some? && email.Some? && message.Some? && locale.Some?
      then Some(Inquiry(name.value, email.value, message.value, locale.value))
      else None
  }

  /** An accepted inquiry's locale is "en" or "ru", and "en" when the body has none; any other locale is refused. */
  lemma ParseInquiryLocale(fields: Fields, isEmail: string -> bool)
    ensures var r := ParseInquiry(JObj(fields), isEmail);
      && (r.Some? ==> r.value.locale == "en" || r.value.locale == "ru")
      && (r.Some? && Lookup(fields, "locale").None? ==> r.value.locale == "en")
      && (forall s :: Lookup(fields, "locale") == Some(JStr(s)) && s != "en" && s != "ru" ==> r.None?)
      && (r.Some? ==> r.value.name != "" && isEmail(r.value.email) && |r.value.message| >= 10)
  {
    var r := ParseInquiry(JObj(fields), isEmail);
    if r.Some? {
      var locale := EnumOr(fields, "locale", Locales, "en");
      assert r.value.locale == locale.value;
      if Lookup(fields, "locale").Some? {
        var s := Lookup(fields, "locale").value.s;
        assert Lookup(fields, "locale") == Some(JStr(s));
        assert s in Locales;
      }
      assert r.value.name == RequiredString(fields, "name", 1).value;
      assert r.value.email == EmailString(fields, "email", isEmail).value;
      assert r.value.message == RequiredString(fields, "message", 10).value;
    }
  }

  /** The inquiry route's reply, with the same shape as the contact route's. */
  function InquiryReply(body: Option<Json>, isEmail: string -> bool, available: bool): (r: FormReply)
    ensures r.success <==> r.status == 201
  {
    if body.None? then FormReply(500, false, InquiryFailed)
    else match ParseInquiry(body.value, isEmail)
      case None => FormReply(400, false, ValidationFailed)
      case Some(_) => if available then FormReply(201, true, InquirySent) else FormReply(500, false, InquiryFailed)
  }

  /** What the inquiry route stores, when parsing and the insert succeed. */
  function InquiryStored(body: Option<Json>, isEmail: string -> bool, available: bool): (r: Option<Inquiry>)
    ensures r.Some? <==> InquiryReply(body, isEmail, available).status == 201
    ensures r.Some? ==> r == ParseInquiry(body.value, isEmail)
  {
    if body.Some? && ParseInquiry(body.value, isEmail).Some? && available then ParseInquiry(body.value, isEmail) else None
  }

  // ---------------------------------------------------------------- the effects

  /**
   * The store's submission tables and the messages handed to the SMTP
   * transport. Without SMTP settings the mail helpers give up before
   * sending, so nothing is handed over. The mailer's outcome is never
   * awaited: whatever the transport does, the reply is the same.
   */
  class Submissions {
    var contacts: seq<ContactParams>
    var inquiries: seq<Inquiry>
    var mailed: seq<Outgoing>

    constructor()
      ensures contacts == [] && inquiries == [] && mailed == []
    {
      contacts, inquiries, mailed := [], [], [];
    }

    /** `POST /api/contact`: store, then hand both notices to the transport when SMTP is configured. */
    method Contact(body: Option<Json>, isEmail: string -> bool, available: bool, env: Env, parseInt: ParseInt,
                   transport: Transport) returns (reply: FormReply)
      modifies this
      ensures reply == ContactReply(body, isEmail, available)
      ensures var s := ContactStored(body, isEmail, available);
        && contacts == old(contacts) + (if s.Some? then [s.value] else [])
        && mailed == old(mailed) + (if s.Some? && GetTransporter(env, parseInt).Some?
                                    then [ContactNoticeMessage(env, s.value), ConfirmationMessage(env, s.value)] else [])
      ensures inquiries == old(inquiries)
    {
      if body.None? {
        return FormReply(500, false, SomethingWrong);
      }
      var data := ParseContact(body.value, isEmail);
      if data.None? {
        return FormReply(400, false, ValidationFailed);
      }
      if !available {
        return FormReply(500, false, SomethingWrong);
      }
      contacts := contacts + [data.value];
      // Both notices go out; their outcome (`null` for a failure) is not awaited.
      var _ := ContactNotification(env, parseInt, data.value, transport);
      var _ := ContactConfirmation(env, parseInt, data.value, transport);
      if GetTransporter(env, parseInt).Some? {
        mailed := mailed + [ContactNoticeMessage(env, data.value), ConfirmationMessage(env, data.value)];
      }
      reply := FormReply(201, true, ThankYou);
    }

    /** `POST /api/chat-inquiry`: store, then hand the inquiry notice to the transport when SMTP is configured. */
    method ChatInquiry(body: Option<Json>, isEmail: string -> bool, available: bool, env: Env, parseInt: ParseInt,
                       transport: Transport) returns (reply: FormReply)
      modifies this
      ensures reply == InquiryReply(body, isEmail, available)
      ensures var s := InquiryStored(body, isEmail, available);
        && inquiries == old(inquiries) + (if s.Some? then [s.value] else [])
        && mailed == old(mailed) + (if s.Some? && GetTransporter(env, parseInt).Some?
                                    then [InquiryNoticeMessage(env, s.value.name, s.value.email, s.value.message, s.value.locale)] else [])
      ensures contacts == old(contacts)
    {
      if body.None? {
        return FormReply(500, false, InquiryFailed);
      }
      var data := ParseInquiry(body.value, isEmail);
      if data.None? {
        return FormReply(400, false, ValidationFailed);
      }
      if !available {
        return FormReply(500, false, InquiryFailed);
      }
      var d := data.value;
      inquiries := inquiries + [d];
      var _ := ChatInquiryNotification(env, parseInt, d.name, d.email, d.message, d.locale, transport);
      if GetTransporter(env, parseInt).Some? {
        mailed := mailed + [InquiryNoticeMessage(env, d.name, d.email, d.message, d.locale)];
      }
      reply := FormReply(201, true, InquirySent);
    }
  }
}

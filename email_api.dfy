/**
 * `POST /api/admin/email`: the session check, the send schema read over
 * the parsed JSON body, the send itself, and the status codes. Email
 * validity is the caller's predicate `isEmail`; a body that is not JSON at
 * all is `None`.
 */
module EmailApi {
  import opened Wrappers
  import opened Strings
  import opened Config
  import opened Json
  import opened Schema
  import opened Mail
  import opened MailStore
  import opened Outbound
  import Compose

  /**
   * `sendEmailSchema.parse`: `to` an array of emails (possibly empty), `cc`
   * and `bcc` optional arrays of emails, `subject` and `html` non-empty,
   * `text` and `inReplyTo` optional strings, `references` an optional array
   * of strings; keys the schema does not name are dropped.
   */
  function ParseSendBody(body: Json, isEmail: string -> bool): (r: Option<SendParams>)
    ensures r.Some? ==> body.JObj?
    ensures r.Some? ==> Lookup(body.fields, "to") == Some(StrArray(r.value.to)) && forall x :: x in r.value.to ==> isEmail(x)
    ensures r.Some? ==> Lookup(body.fields, "subject") == Some(JStr(r.value.subject)) && r.value.subject != ""
    ensures r.Some? ==> Lookup(body.fields, "html") == Some(JStr(r.value.html)) && r.value.html != ""
  {
    match AsObject(body)
    case None => None
    case Some(fields) =>
      var to := StringArray(fields, "to", isEmail);
      var cc := OptionalStringArray(fields, "cc", isEmail);
      var bcc := OptionalStringArray(fields, "bcc", isEmail);
      var subject := RequiredString(fields, "subject", 1);
      var html := RequiredString(fields, "html", 1);
      var text := OptionalString(fields, "text");
      var inReplyTo := OptionalString(fields, "inReplyTo");
      var references := OptionalStringArray(fields, "references", AnyString);
      if to.Some? && cc.Some? && bcc.Some? && subject.Some? && html.Some? && text.Some? && inReplyTo.Some? && references.Some?
      then
        StringItemsAccepted(Lookup(fields, "to").value, isEmail);
        Some(SendParams(to.value, cc.value, bcc.value, subject.value, html.value, text.value, inReplyTo.value, references.value))
      else None
  }

  /** Every element of an accepted array satisfies the element predicate. */
  lemma StringItemsAccepted(j: Json, item: string -> bool)
    requires StringItems(j, item).Some?
    ensures forall x :: x in StringItems(j, item).value ==> item(x)
  {
    var xs := StringItems(j, item).value;
    forall x | x in xs ensures item(x) {
      var k :| 0 <= k < |xs| && xs[k] == x;
      assert StrArray(xs).items[k] == JStr(x);
    }
  }

  function StrOf(s: Option<string>): Option<Json> {
    if s.Some? then Some(JStr(s.value)) else None
  }

  function ArrOf(xs: Option<seq<string>>): Option<Json> {
    if xs.Some? then Some(StrArray(xs.value)) else None
  }

  /** The members of a send request, in the order a client writes them. */
  function SendMembers(p: SendParams): seq<(string, Option<Json>)> {
    [("to", Some(StrArray(p.to))), ("cc", ArrOf(p.cc)), ("bcc", ArrOf(p.bcc)),
     ("subject", Some(JStr(p.subject))), ("html", Some(JStr(p.html))),
     ("text", StrOf(p.text)), ("inReplyTo", StrOf(p.inReplyTo)), ("references", ArrOf(p.references))]
  }

  /** A send request written as a JSON body. */
  function SendBody(p: SendParams): Json {
    JObj(Members(SendMembers(p)))
  }

  /** The addresses and texts the schema demands of a request. */
  predicate Acceptable(p: SendParams, isEmail: string -> bool) {
    && (forall x :: x in p.to ==> isEmail(x))
    && (p.cc.Some? ==> forall x :: x in p.cc.value ==> isEmail(x))
    && (p.bcc.Some? ==> forall x :: x in p.bcc.value ==> isEmail(x))
    && p.subject != "" && p.html != ""
  }

  /** An object whose members hold the request's fields, each key absent exactly when its field is. */
  predicate Holds(fields: seq<(string, Json)>, p: SendParams) {
    && Lookup(fields, "to") == Some(StrArray(p.to))
    && Lookup(fields, "cc") == ArrOf(p.cc) && Lookup(fields, "bcc") == ArrOf(p.bcc)
    && Lookup(fields, "subject") == Some(JStr(p.subject)) && Lookup(fields, "html") == Some(JStr(p.html))
    && Lookup(fields, "text") == StrOf(p.text) && Lookup(fields, "inReplyTo") == StrOf(p.inReplyTo)
    && Lookup(fields, "references") == ArrOf(p.references)
  }

  /** The schema reads an object holding an acceptable request as that request. */
  lemma ParseByLookups(fields: seq<(string, Json)>, p: SendParams, isEmail: string -> bool)
    requires Acceptable(p, isEmail) && Holds(fields, p)
    ensures ParseSendBody(JObj(fields), isEmail) == Some(p)
  {
    ListsByLookups(fields, p, isEmail);
    assert RequiredString(fields, "subject", 1) == Some(p.subject);
    assert RequiredString(fields, "html", 1) == Some(p.html);
    assert OptionalString(fields, "text") == Some(p.text);
    assert OptionalString(fields, "inReplyTo") == Some(p.inReplyTo);
  }

  /** The array members of such an object read back as the request's lists. */
  lemma ListsByLookups(fields: seq<(string, Json)>, p: SendParams, isEmail: string -> bool)
    requires Acceptable(p, isEmail) && Holds(fields, p)
    ensures StringArray(fields, "to", isEmail) == Some(p.to)
    ensures OptionalStringArray(fields, "cc", isEmail) == Some(p.cc)
    ensures OptionalStringArray(fields, "bcc", isEmail) == Some(p.bcc)
    ensures OptionalStringArray(fields, "references", AnyString) == Some(p.references)
  {
    StringItemsOf(p.to, isEmail);
    if p.cc.Some? { StringItemsOf(p.cc.value, isEmail); }
    if p.bcc.Some? { StringItemsOf(p.bcc.value, isEmail); }
    if p.references.Some? { StringItemsOf(p.references.value, AnyString); }
  }

  /** Writing an acceptable request as JSON and reading it with the schema gives the request back. */
  lemma SendBodyRoundTrip(p: SendParams, isEmail: string -> bool)
    requires Acceptable(p, isEmail)
    ensures ParseSendBody(SendBody(p), isEmail) == Some(p)
  {
    var fs := Members(SendMembers(p));
    Compose.RequestKeysLookup(SendMembers(p));
    assert Holds(fs, p);
    ParseByLookups(fs, p, isEmail);
  }

  /** The schema refuses an object holding a request with a bad address or an empty subject or html. */
  lemma ParseRefusesByLookups(fields: seq<(string, Json)>, p: SendParams, isEmail: string -> bool)
    requires !Acceptable(p, isEmail) && Holds(fields, p)
    ensures ParseSendBody(JObj(fields), isEmail).None?
  {
    if exists x :: x in p.to && !isEmail(x) {
      var x :| x in p.to && !isEmail(x);
      RefusesList(fields, "to", p.to, isEmail, x);
    } else if p.cc.Some? && exists x :: x in p.cc.value && !isEmail(x) {
      var x :| x in p.cc.value && !isEmail(x);
      RefusesList(fields, "cc", p.cc.value, isEmail, x);
    } else if p.bcc.Some? && exists x :: x in p.bcc.value && !isEmail(x) {
      var x :| x in p.bcc.value && !isEmail(x);
      RefusesList(fields, "bcc", p.bcc.value, isEmail, x);
    }
  }

  /** One refused element makes a member array fail, required or optional. */
  lemma RefusesList(fields: seq<(string, Json)>, key: string, xs: seq<string>, isEmail: string -> bool, x: string)
    requires Lookup(fields, key) == Some(StrArray(xs))
    requires x in xs && !isEmail(x)
    ensures StringArray(fields, key, isEmail).None? && OptionalStringArray(fields, key, isEmail).None?
  {
    var k :| 0 <= k < |xs| && xs[k] == x;
    StringItemsRejects(xs, isEmail, k);
  }

  /** The schema refuses a request with a bad `to` address or an empty subject. */
  lemma SendBodyRejects(p: SendParams, isEmail: string -> bool)
    requires (exists x :: x in p.to && !isEmail(x)) || p.subject == "" || p.html == ""
    ensures ParseSendBody(SendBody(p), isEmail).None?
  {
    var fs := Members(SendMembers(p));
    Compose.RequestKeysLookup(SendMembers(p));
    assert Holds(fs, p);
    ParseRefusesByLookups(fs, p, isEmail);
  }

  /**
   * What the compose form posts, read by the send schema: accepted exactly
   * when every parsed recipient is a valid address and the subject and
   * body are non-empty, and then read as the form's recipient lists, its
   * subject, its body as text and with line breaks as `<br>` as html, and
   * the thread headers of the original.
   */
  lemma ComposeRequestParses(form: Compose.FormData, orig: Option<EmailRow>, isEmail: string -> bool)
    ensures var r := ParseSendBody(Compose.RequestBody(form, orig), isEmail);
      var p := SendParams(Compose.ParseRecipients(form.to), Compose.OptionalList(form.cc), Compose.OptionalList(form.bcc),
                          form.subject, ReplaceChar(form.body, '\n', "<br>"), Some(form.body),
                          if orig.Some? then Some(orig.value.messageId) else None,
                          if orig.Some? then Some(Compose.ReferencesFor(orig.value)) else None);
      && (r.Some? <==> Acceptable(p, isEmail))
      && (r.Some? ==> r.value == p)
  {
    ghost var p := SendParams(Compose.ParseRecipients(form.to), Compose.OptionalList(form.cc), Compose.OptionalList(form.bcc),
                              form.subject, ReplaceChar(form.body, '\n', "<br>"), Some(form.body),
                              if orig.Some? then Some(orig.value.messageId) else None,
                              if orig.Some? then Some(Compose.ReferencesFor(orig.value)) else None);
    var fs := Compose.RequestBody(form, orig).fields;
    Compose.RequestBodyMembers(form, orig);
    ReplaceCharEmpty(form.body, '\n', "<br>");
    assert Holds(fs, p);
    if Acceptable(p, isEmail) {
      ParseByLookups(fs, p, isEmail);
    } else {
      ParseRefusesByLookups(fs, p, isEmail);
    }
  }

  // ---------------------------------------------------------------- the route

  datatype PostResponse = PostUnauthorized | Created(messageId: Option<string>) | InvalidData | SendFailed

  function PostStatus(r: PostResponse): int {
    match r
    case PostUnauthorized => 401
    case Created(_) => 201
    case InvalidData => 400
    case SendFailed => 500
  }

  /** The route's answer, the store afterwards and the messages handed to the transport. */
  datatype PostOutcome = PostOutcome(response: PostResponse, t: Tables, sent: seq<Outgoing>)

  function PostSpec(t: Tables, session: bool, body: Option<Json>, isEmail: string -> bool, env: Env, parseInt: ParseInt,
                    transport: Transport, now: nat): PostOutcome
  {
    if !session then PostOutcome(PostUnauthorized, t, [])
    else if body.None? then PostOutcome(SendFailed, t, [])
    else match ParseSendBody(body.value, isEmail)
      case None => PostOutcome(InvalidData, t, [])
      case Some(p) =>
        var o := SendSpec(t, env, parseInt, p, transport, now);
        PostOutcome(if o.result.Ok? then Created(o.result.value.messageId) else SendFailed, o.t, o.sent)
  }

  /** `POST`: 401 without a session; otherwise parse, validate, send; 400 for a schema failure, 500 for any other. */
  method PostEmail(store: Store, session: bool, body: Option<Json>, isEmail: string -> bool, env: Env, parseInt: ParseInt,
                   transport: Transport, now: nat) returns (response: PostResponse, sent: seq<Outgoing>)
    modifies store
    ensures var o := PostSpec(old(store.Snapshot()), session, body, isEmail, env, parseInt, transport, now);
      response == o.response && sent == o.sent && store.Snapshot() == o.t
  {
    if !session {
      return PostUnauthorized, [];
    }
    if body.None? {
      return SendFailed, [];
    }
    var p := ParseSendBody(body.value, isEmail);
    if p.None? {
      return InvalidData, [];
    }
    var r;
    r, sent := SendEmail(store, env, parseInt, p.value, transport, now);
    response := if r.Ok? then Created(r.value.messageId) else SendFailed;
  }

  /**
   * The status codes: 401 exactly without a session; with one, 400 exactly
   * for a JSON body the schema refuses. 401 and 400 send and store nothing;
   * 201 exactly when the send resolves, having added one row to the store.
   */
  lemma PostStatusCodes(t: Tables, session: bool, body: Option<Json>, isEmail: string -> bool, env: Env, parseInt: ParseInt,
                        transport: Transport, now: nat)
    ensures var o := PostSpec(t, session, body, isEmail, env, parseInt, transport, now);
      && (PostStatus(o.response) == 401 <==> !session)
      && (session ==> (PostStatus(o.response) == 400 <==> body.Some? && ParseSendBody(body.value, isEmail).None?))
      && (PostStatus(o.response) in {400, 401} ==> o.t == t && o.sent == [])
      && (PostStatus(o.response) == 201 <==>
            session && body.Some? && ParseSendBody(body.value, isEmail).Some?
            && SendSpec(t, env, parseInt, ParseSendBody(body.value, isEmail).value, transport, now).result.Ok?)
      && (PostStatus(o.response) == 201 ==> |o.t.emails| == |t.emails| + 1 && o.t.emails[..|t.emails|] == t.emails)
      && (PostStatus(o.response) == 500 ==> o.t == t)
  {
    if session && body.Some? {
      var r := ParseSendBody(body.value, isEmail);
      if r.Some? {
        SendStoresOnlyAfterDelivery(t, env, parseInt, r.value, transport, now);
      }
    }
  }
}

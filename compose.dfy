/**
 * The compose screen: the initial fields of a reply, reply-all or forward
 * (subject prefix, quoted body, recipients), the request body the form
 * posts, the form's own submit state, and the page that picks the
 * original message from the query string. Threading follows section 3.6.4
 * of RFC 5322: the reply names its original in In-Reply-To and appends the
 * original's id to References.
 */
module Compose {
  import opened Wrappers
  import opened Strings
  import opened Config
  import opened Json
  import opened Mail
  import opened MailStore
  import opened Subjects

  datatype ReplyType = Reply | ReplyAll | Forward

  // ---------------------------------------------------------------- recipients

  /** `getInitialTo`: the original sender for a reply or reply-all, otherwise empty. */
  function InitialTo(orig: Option<EmailRow>, kind: Option<ReplyType>): (r: string)
    ensures orig.None? || kind.None? || kind == Some(Forward) ==> r == ""
    ensures orig.Some? && (kind == Some(Reply) || kind == Some(ReplyAll)) ==> r == orig.value.from
  {
    if orig.None? || kind.None? then "" else if kind == Some(Forward) then "" else orig.value.from
  }

  /** `xs.filter((t) => t !== x)`. */
  function Without(xs: seq<string>, x: string): (r: seq<string>)
    ensures forall y :: y in r <==> y in xs && y != x
    ensures |r| <= |xs|
  {
    if xs == [] then [] else (if xs[0] == x then [] else [xs[0]]) + Without(xs[1..], x)
  }

  /** `getInitialCc`: for reply-all only, the original recipients other than the site's own address, joined with ", ". */
  function InitialCc(orig: Option<EmailRow>, kind: Option<ReplyType>, env: Env): (r: string)
    ensures orig.None? || kind != Some(ReplyAll) ==> r == ""
    ensures orig.Some? && kind == Some(ReplyAll) ==>
      r == Join(Without(orig.value.to, OrElse(env.publicEmailAddress, "")), ", ")
  {
    if orig.None? || kind != Some(ReplyAll) then ""
    else Join(Without(orig.value.to, OrElse(env.publicEmailAddress, "")), ", ")
  }

  /** The pieces `split(",")` makes of a list joined with ", ": the first item, then each later item after one space. */
  function Padded(xs: seq<string>): (r: seq<string>)
    requires |xs| >= 1
    ensures |r| == |xs| && r[0] == xs[0]
    ensures forall i :: 1 <= i < |xs| ==> r[i] == " " + xs[i]
  {
    [xs[0]] + seq(|xs| - 1, i requires 0 <= i < |xs| - 1 => " " + xs[i + 1])
  }

  lemma {:induction false} SplitJoinedList(xs: seq<string>)
    requires |xs| >= 1
    requires forall x :: x in xs ==> ',' !in x
    ensures Split(Join(xs, ", "), ',') == Padded(xs)
  {
    if |xs| == 1 {
      SplitNoSep(xs[0], ',');
    } else {
      var rest := xs[1..];
      var j := Join(rest, ", ");
      SplitJoinedList(rest);
      assert Join(xs, ", ") == xs[0] + [','] + ([' '] + j);
      SplitAppend(xs[0], [' '] + j, ',');
      SplitCons(' ', j, ',');
      PaddedCons(xs[0], rest);
      assert xs == [xs[0]] + rest;
    }
  }

  /** The pieces of a list with one more item in front. */
  lemma PaddedCons(x: string, rest: seq<string>)
    requires |rest| >= 1
    ensures var p := Padded(rest); Padded([x] + rest) == [x] + ([[' '] + p[0]] + p[1..])
  {
    var p := Padded(rest);
    var r := [x] + ([[' '] + p[0]] + p[1..]);
    forall i | 1 <= i < |r| ensures r[i] == " " + ([x] + rest)[i] {
      if i > 1 {
        assert r[i] == p[i - 1];
      }
    }
  }

  /** `.map((e) => e.trim()).filter(Boolean)`. */
  function TrimNonEmpty(pieces: seq<string>): seq<string> {
    if pieces == [] then []
    else (if Trim(pieces[0]) == "" then [] else [Trim(pieces[0])]) + TrimNonEmpty(pieces[1..])
  }

  /** `field.split(",").map((e) => e.trim()).filter(Boolean)`. */
  function ParseRecipients(field: string): seq<string> {
    TrimNonEmpty(Split(field, ','))
  }

  /** Every parsed recipient is non-empty and holds no comma. */
  lemma ParseRecipientsClean(field: string)
    ensures forall x :: x in ParseRecipients(field) ==> x != "" && ',' !in x
  {
    TrimNonEmptyFrom(Split(field, ','));
  }

  lemma {:induction false} TrimNonEmptyFrom(pieces: seq<string>)
    requires forall p :: p in pieces ==> ',' !in p
    ensures forall x :: x in TrimNonEmpty(pieces) ==> x != "" && ',' !in x
  {
    if pieces != [] {
      var head := Trim(pieces[0]);
      var h := if head == "" then [] else [head];
      var rest := TrimNonEmpty(pieces[1..]);
      assert TrimNonEmpty(pieces) == h + rest;
      TrimNonEmptyFrom(pieces[1..]);
      TrimKeepsAbsent(pieces[0], ',');
      forall x | x in h + rest ensures x != "" && ',' !in x {
        if x in h { assert x == head; } else { assert x in rest; }
      }
    }
  }

  /** An address that survives the field unchanged: non-empty, without a comma, without surrounding white space. */
  predicate PlainAddress(x: string) {
    x != "" && ',' !in x && Trim(x) == x
  }

  lemma TrimAfterSpace(x: string)
    requires PlainAddress(x)
    ensures Trim(" " + x) == x
  {
    assert (" " + x)[1..] == x;
    assert TrimStart(" " + x) == TrimStart(x);
  }

  lemma {:induction false} TrimNonEmptyAll(pieces: seq<string>, xs: seq<string>)
    requires |pieces| == |xs|
    requires forall i :: 0 <= i < |xs| ==> Trim(pieces[i]) == xs[i] && xs[i] != ""
    ensures TrimNonEmpty(pieces) == xs
  {
    if pieces != [] {
      TrimNonEmptyAll(pieces[1..], xs[1..]);
      assert xs == [xs[0]] + xs[1..];
    }
  }

  /** Recipients joined with ", " and parsed back are the same recipients, in order. */
  lemma ParseJoinedRecipients(xs: seq<string>)
    requires forall x :: x in xs ==> PlainAddress(x)
    ensures ParseRecipients(Join(xs, ", ")) == xs
  {
    if xs == [] {
      assert Split("", ',') == [""];
      assert TrimNonEmpty([""]) == [] by {
        assert [""][1..] == [];
      }
    } else {
      SplitJoinedList(xs);
      var p := Padded(xs);
      forall i | 0 <= i < |xs| ensures Trim(p[i]) == xs[i] && xs[i] != "" {
        assert xs[i] in xs;
        if i > 0 {
          TrimAfterSpace(xs[i]);
        }
      }
      TrimNonEmptyAll(p, xs);
    }
  }

  /** A reply-all sent with the prefilled Cc line copies the original's recipients, minus the site's own address. */
  lemma ReplyAllCcRoundTrip(orig: EmailRow, env: Env)
    requires forall x :: x in orig.to ==> PlainAddress(x)
    ensures ParseRecipients(InitialCc(Some(orig), Some(ReplyAll), env)) == Without(orig.to, OrElse(env.publicEmailAddress, ""))
  {
    ParseJoinedRecipients(Without(orig.to, OrElse(env.publicEmailAddress, "")));
  }

  // ---------------------------------------------------------------- subject and body

  /** `getInitialSubject`: empty without an original; otherwise the one-prefix rule of `ReplySubject`. */
  function InitialSubject(orig: Option<EmailRow>, kind: Option<ReplyType>): (r: string)
    ensures orig.None? ==> r == ""
    ensures orig.Some? && kind == Some(Forward) ==> r == "Fwd: " + StripReplyPrefix(orig.value.subject)
    ensures orig.Some? && kind != Some(Forward) ==> r == "Re: " + StripReplyPrefix(orig.value.subject)
  {
    if orig.None? then "" else ReplySubject(orig.value.subject, kind == Some(Forward))
  }

  /** Every line with "> " before it. */
  function QuoteLines(lines: seq<string>): (r: seq<string>)
    ensures |r| == |lines|
    ensures forall i :: 0 <= i < |lines| ==> r[i] == "> " + lines[i]
  {
    seq(|lines|, i requires 0 <= i < |lines| => "> " + lines[i])
  }

  /** `text.split("\n").map((line) => `> ${line}`).join("\n")`. */
  function Quote(text: string): string {
    Join(QuoteLines(Split(text, '\n')), "\n")
  }

  /** The quoted text has one line per line of the original, each being "> " and that line. */
  lemma QuoteLinesOf(text: string)
    ensures Split(Quote(text), '\n') == QuoteLines(Split(text, '\n'))
  {
    var q := QuoteLines(Split(text, '\n'));
    forall p | p in q ensures '\n' !in p {
      var i :| 0 <= i < |q| && q[i] == p;
      assert '\n' !in Split(text, '\n')[i];
    }
    SplitOfJoin(q, '\n');
  }

  /** Empty text quotes as one line holding "> ". */
  lemma QuoteEmpty()
    ensures Quote("") == "> "
  {
    assert Split("", '\n') == [""];
    assert QuoteLines([""]) == ["> " + ""];
  }

  /** Removes the "> " of each line. */
  function Unquote(quoted: string): string {
    var lines := Split(quoted, '\n');
    Join(seq(|lines|, i requires 0 <= i < |lines| => if |lines[i]| >= 2 then lines[i][2..] else lines[i]), "\n")
  }

  /** Quoting loses nothing: removing the marks gives back the original text. */
  lemma UnquoteQuote(text: string)
    ensures Unquote(Quote(text)) == text
  {
    QuoteLinesOf(text);
    var lines := Split(text, '\n');
    var q := Split(Quote(text), '\n');
    var back := seq(|q|, i requires 0 <= i < |q| => if |q[i]| >= 2 then q[i][2..] else q[i]);
    assert back == lines by {
      forall i | 0 <= i < |q| ensures back[i] == lines[i] {
        assert q[i] == "> " + lines[i];
      }
    }
    SplitJoin(text, '\n');
  }

  /** `fromName || from`. */
  function SenderLabel(orig: EmailRow): string {
    OrElse(orig.fromName, orig.from)
  }

  /** The attribution line of a reply. */
  function Attribution(date: string, who: string): string {
    "On " + date + ", " + who + " wrote:"
  }

  /** The header block of a forward. */
  function ForwardHeader(orig: EmailRow, date: string): string {
    "\n\n---------- Forwarded message ----------\nFrom: " + SenderLabel(orig) + "\nDate: " + date
    + "\nSubject: " + orig.subject + "\nTo: " + Join(orig.to, ", ") + "\n\n"
  }

  /** `getInitialBody`; `formatDate` is `new Date(date).toLocaleString()`, which is not interpreted. */
  function InitialBody(orig: Option<EmailRow>, kind: Option<ReplyType>, formatDate: int -> string): string {
    if orig.None? then ""
    else
      var o := orig.value;
      var date := formatDate(o.date);
      var text := OrElse(o.textBody, "");
      if kind == Some(Forward) then ForwardHeader(o, date) + text
      else "\n\n" + Attribution(date, SenderLabel(o)) + "\n" + Quote(text)
  }

  /**
   * A reply's body is two empty lines, the attribution line, and then the
   * original text line by line behind "> " (no line added or lost).
   */
  lemma ReplyBodyLines(orig: EmailRow, kind: Option<ReplyType>, formatDate: int -> string)
    requires kind != Some(Forward)
    requires '\n' !in formatDate(orig.date) && '\n' !in SenderLabel(orig)
    ensures Split(InitialBody(Some(orig), kind, formatDate), '\n')
         == ["", "", Attribution(formatDate(orig.date), SenderLabel(orig))] + QuoteLines(Split(OrElse(orig.textBody, ""), '\n'))
  {
    var a := Attribution(formatDate(orig.date), SenderLabel(orig));
    var q := Quote(OrElse(orig.textBody, ""));
    assert '\n' !in a;
    assert InitialBody(Some(orig), kind, formatDate) == "\n\n" + a + "\n" + q;
    SplitReply(a, q);
    QuoteLinesOf(OrElse(orig.textBody, ""));
  }

  /** Two line breaks, a line, a line break and a text split as two empty lines, that line, and the text's lines. */
  lemma SplitReply(a: string, q: string)
    requires '\n' !in a
    ensures Split("\n\n" + a + "\n" + q, '\n') == ["", "", a] + Split(q, '\n')
  {
    var s := a + ['\n'] + q;
    SplitAppend(a, q, '\n');
    SplitAppend("", s, '\n');
    SplitAppend("", "" + ['\n'] + s, '\n');
    assert "\n\n" + a + "\n" + q == "" + ['\n'] + ("" + ['\n'] + s);
  }

  /** A forward carries the original text unquoted after its header block. */
  lemma ForwardBodyEndsWithText(orig: EmailRow, formatDate: int -> string)
    ensures var body := InitialBody(Some(orig), Some(Forward), formatDate);
      var text := OrElse(orig.textBody, "");
      |text| <= |body| && body[|body| - |text|..] == text
      && StartsWith(body, "\n\n---------- Forwarded message ----------\nFrom: " + SenderLabel(orig))
  {
    var body := InitialBody(Some(orig), Some(Forward), formatDate);
    var h := ForwardHeader(orig, formatDate(orig.date));
    var p := "\n\n---------- Forwarded message ----------\nFrom: " + SenderLabel(orig);
    assert body == h + OrElse(orig.textBody, "");
    assert h[..|p|] == p;
  }

  // ---------------------------------------------------------------- request body

  /** The form's five fields. */
  datatype FormData = FormData(to: string, cc: string, bcc: string, subject: string, body: string)

  /** The References of a reply: the original's own chain, then the original's id. */
  function ReferencesFor(orig: EmailRow): (r: seq<string>)
    ensures |r| == |orig.references| + 1 && r[..|orig.references|] == orig.references && r[|r| - 1] == orig.messageId
  {
    orig.references + [orig.messageId]
  }

  /** A `cc` or `bcc` field as posted: its parsed list, or nothing for an empty field. */
  function OptionalList(field: string): (r: Option<seq<string>>)
    ensures r.Some? <==> field != ""
  {
    if field != "" then Some(ParseRecipients(field)) else None
  }

  /**
   * The posted members in order, `None` for one `JSON.stringify` leaves
   * out: `to` always; `cc` and `bcc` only when their field is non-empty;
   * the subject, the body with line breaks as `<br>` and the body as typed;
   * the threading headers whenever there is an original (forwards included).
   */
  function RequestMembers(form: FormData, orig: Option<EmailRow>): seq<(string, Option<Json>)> {
    [("to", Some(StrArray(ParseRecipients(form.to)))),
     ("cc", RecipientList(form.cc)),
     ("bcc", RecipientList(form.bcc)),
     ("subject", Some(JStr(form.subject))),
     ("html", Some(JStr(ReplaceChar(form.body, '\n', "<br>")))),
     ("text", Some(JStr(form.body))),
     ("inReplyTo", InReplyToMember(orig)),
     ("references", ReferencesMember(orig))]
  }

  /** A `cc` or `bcc` member: the parsed list, left out for an empty field. */
  function RecipientList(field: string): Option<Json> {
    if field != "" then Some(StrArray(ParseRecipients(field))) else None
  }

  function InReplyToMember(orig: Option<EmailRow>): Option<Json> {
    if orig.Some? then Some(JStr(orig.value.messageId)) else None
  }

  function ReferencesMember(orig: Option<EmailRow>): Option<Json> {
    if orig.Some? then Some(StrArray(ReferencesFor(orig.value))) else None
  }

  /** `JSON.stringify` of the posted body. */
  function RequestBody(form: FormData, orig: Option<EmailRow>): Json {
    JObj(Members(RequestMembers(form, orig)))
  }

  /** Any eight members under the request's keys, in its order, are each found under their own key. */
  lemma RequestKeysLookup(ms: seq<(string, Option<Json>)>)
    requires |ms| == 8
    requires && ms[0].0 == "to" && ms[1].0 == "cc" && ms[2].0 == "bcc" && ms[3].0 == "subject"
             && ms[4].0 == "html" && ms[5].0 == "text" && ms[6].0 == "inReplyTo" && ms[7].0 == "references"
    ensures var fs := Members(ms);
      && Lookup(fs, "to") == ms[0].1 && Lookup(fs, "cc") == ms[1].1 && Lookup(fs, "bcc") == ms[2].1
      && Lookup(fs, "subject") == ms[3].1 && Lookup(fs, "html") == ms[4].1 && Lookup(fs, "text") == ms[5].1
      && Lookup(fs, "inReplyTo") == ms[6].1 && Lookup(fs, "references") == ms[7].1
  {
    assert forall a, b :: 0 <= a < b < |ms| ==> ms[a].0 != ms[b].0;
    MembersLookup(ms, 0);
    MembersLookup(ms, 1);
    MembersLookup(ms, 2);
    MembersLookup(ms, 3);
    MembersLookup(ms, 4);
    MembersLookup(ms, 5);
    MembersLookup(ms, 6);
    MembersLookup(ms, 7);
  }

  /**
   * What each member of the posted body holds: the parsed recipient lists
   * (cc and bcc only when their field is non-empty), the body as text and
   * with line breaks as `<br>` as HTML, and the threading headers exactly
   * when there is an original, forwards included.
   */
  lemma RequestBodyMembers(form: FormData, orig: Option<EmailRow>)
    ensures var fs := RequestBody(form, orig).fields;
      && Lookup(fs, "to") == Some(StrArray(ParseRecipients(form.to)))
      && Lookup(fs, "cc") == (if form.cc != "" then Some(StrArray(ParseRecipients(form.cc))) else None)
      && Lookup(fs, "bcc") == (if form.bcc != "" then Some(StrArray(ParseRecipients(form.bcc))) else None)
      && Lookup(fs, "subject") == Some(JStr(form.subject))
      && Lookup(fs, "text") == Some(JStr(form.body))
      && Lookup(fs, "html") == Some(JStr(ReplaceChar(form.body, '\n', "<br>")))
      && '\n' !in ReplaceChar(form.body, '\n', "<br>")
      && Lookup(fs, "inReplyTo") == (if orig.Some? then Some(JStr(orig.value.messageId)) else None)
      && Lookup(fs, "references") == (if orig.Some? then Some(StrArray(ReferencesFor(orig.value))) else None)
  {
    RequestKeysLookup(RequestMembers(form, orig));
  }

  // ---------------------------------------------------------------- the form

  datatype Field = ToField | CcField | BccField | SubjectField | BodyField

  /** How the POST to `/api/admin/email` ends: accepted, answered with an error status (and maybe an `error` member), or thrown. */
  datatype SubmitResponse = Accepted | Rejected(error: Option<string>) | Thrown(message: string)

  function SentFolderPath(): string { "/admin/email?folder=Sent" }

  class ComposeForm {
    var form: FormData
    var loading: bool
    var error: string
    var success: bool
    /** The navigation scheduled after a successful send. */
    var redirect: Option<string>

    /** The form as it opens: prefilled from the original, not loading, no error. */
    constructor (orig: Option<EmailRow>, kind: Option<ReplyType>, env: Env, formatDate: int -> string)
      ensures form == FormData(InitialTo(orig, kind), InitialCc(orig, kind, env), "", InitialSubject(orig, kind),
                               InitialBody(orig, kind, formatDate))
      ensures !loading && error == "" && !success && redirect == None
    {
      form := FormData(InitialTo(orig, kind), InitialCc(orig, kind, env), "", InitialSubject(orig, kind),
                       InitialBody(orig, kind, formatDate));
      loading := false;
      error := "";
      success := false;
      redirect := None;
    }

    /** An `onChange` handler: one field takes the typed value, the others stay. */
    method Edit(field: Field, value: string)
      modifies this
      ensures form == match field
        case ToField => old(form).(to := value)
        case CcField => old(form).(cc := value)
        case BccField => old(form).(bcc := value)
        case SubjectField => old(form).(subject := value)
        case BodyField => old(form).(body := value)
      ensures loading == old(loading) && error == old(error) && success == old(success) && redirect == old(redirect)
    {
      match field {
        case ToField => form := form.(to := value);
        case CcField => form := form.(cc := value);
        case BccField => form := form.(bcc := value);
        case SubjectField => form := form.(subject := value);
        case BodyField => form := form.(body := value);
      }
    }

    /**
     * `handleSubmit`: posts the request body, then records success (and the
     * redirect to the Sent folder) or the error message; `loading` is false
     * again whatever happened.
     */
    method HandleSubmit(orig: Option<EmailRow>, post: Json -> SubmitResponse) returns (request: Json)
      modifies this
      ensures request == RequestBody(old(form), orig)
      ensures form == old(form) && !loading
      ensures var response := post(request);
        && (response.Accepted? ==> success && error == "" && redirect == Some(SentFolderPath()))
        && (response.Rejected? ==> success == old(success) && error == OrElse(response.error, "Failed to send email") && redirect == old(redirect))
        && (response.Thrown? ==> success == old(success) && error == response.message && redirect == old(redirect))
    {
      error := "";
      loading := true;
      request := RequestBody(form, orig);
      var response := post(request);
      if response.Accepted? {
        success := true;
        redirect := Some(SentFolderPath());
      } else if response.Rejected? {
        error := OrElse(response.error, "Failed to send email");
      } else {
        error := response.message;
      }
      loading := false;
    }
  }

  // ---------------------------------------------------------------- the page

  /** The query string of `/admin/email/compose`. */
  datatype ComposeQuery = ComposeQuery(replyTo: Option<string>, replyAll: Option<string>, forward: Option<string>)

  datatype ComposePage = RedirectToLogin | Render(title: string, original: Option<EmailRow>, kind: Option<ReplyType>)

  /** `findUnique({ where: { id } })`; row ids are written in decimal. */
  function FindById(emails: seq<EmailRow>, id: string): (r: Option<EmailRow>)
    ensures r.Some? ==> r.value in emails && NatToString(r.value.id) == id
    ensures r.None? ==> forall e :: e in emails ==> NatToString(e.id) != id
  {
    if emails == [] then None
    else if NatToString(emails[0].id) == id then Some(emails[0])
    else FindById(emails[1..], id)
  }

  /** The page title for each reply type. */
  function Title(kind: Option<ReplyType>): (r: string)
    ensures kind == Some(Forward) <==> r == "Forward Email"
    ensures kind == Some(Reply) || kind == Some(ReplyAll) <==> r == "Reply"
    ensures kind.None? <==> r == "Compose Email"
  {
    match kind
    case Some(Forward) => "Forward Email"
    case Some(_) => "Reply"
    case None => "Compose Email"
  }

  /**
   * `ComposePage`: without a session, the login redirect; otherwise
   * `replyTo` wins over `replyAll`, which wins over `forward`. The chosen
   * parameter sets the type even when no row has that id.
   */
  method OpenComposePage(store: Store, session: bool, q: ComposeQuery) returns (page: ComposePage)
    ensures !session <==> page == RedirectToLogin
    ensures session ==> page.Render? && page.title == Title(page.kind)
    ensures page.Render? ==>
      && (page.kind == Some(Reply) <==> Truthy(q.replyTo))
      && (page.kind == Some(ReplyAll) <==> !Truthy(q.replyTo) && Truthy(q.replyAll))
      && (page.kind == Some(Forward) <==> !Truthy(q.replyTo) && !Truthy(q.replyAll) && Truthy(q.forward))
      && (page.kind.None? ==> page.original.None?)
      && (page.kind == Some(Reply) ==> page.original == FindById(store.emails, q.replyTo.value))
      && (page.kind == Some(ReplyAll) ==> page.original == FindById(store.emails, q.replyAll.value))
      && (page.kind == Some(Forward) ==> page.original == FindById(store.emails, q.forward.value))
  {
    if !session {
      return RedirectToLogin;
    }
    var original: Option<EmailRow> := None;
    var kind: Option<ReplyType> := None;
    if Truthy(q.replyTo) {
      original := FindById(store.emails, q.replyTo.value);
      kind := Some(Reply);
    } else if Truthy(q.replyAll) {
      original := FindById(store.emails, q.replyAll.value);
      kind := Some(ReplyAll);
    } else if Truthy(q.forward) {
      original := FindById(store.emails, q.forward.value);
      kind := Some(Forward);
    }
    page := Render(Title(kind), original, kind);
  }
}

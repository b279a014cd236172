/**
 * The mirrored-mail data model: what the MIME parser yields for one message,
 * what the IMAP server reports about it, and the row the mirror stores.
 * Message flags are the system flags of section 2.3.2 of RFC 3501.
 */
module Mail {
  import opened Wrappers
  import opened Strings

  // ---------------------------------------------------------------- IMAP side

  datatype Flag = Seen | Answered | Flagged | Deleted | Draft | Keyword(name: string)

  /** The raw RFC 5322 text of a message; its content is opaque to the mirror. */
  type Source = seq<bv8>

  /** One message as `fetch` yields it: its UID, its flags and (when returned) its source. */
  datatype RemoteMessage = RemoteMessage(uid: nat, flags: set<Flag>, source: Option<Source>)

  // ---------------------------------------------------------------- parser side

  /** One mailbox of an address header; either part may be missing. */
  datatype Address = Address(address: Option<string>, name: Option<string>)

  /** An address header as the parser returns it; `value` may be absent. */
  datatype AddressObject = AddressObject(value: Option<seq<Address>>)

  /** The parser gives no header, one address object, or an array of them. */
  datatype AddressField = NoAddress | OneAddress(obj: AddressObject) | AddressList(objs: seq<AddressObject>)

  /** `References` is absent, one string, or an array of strings. */
  datatype References = NoReferences | OneReference(id: string) | ReferenceList(ids: seq<string>)

  datatype ParsedAttachment = ParsedAttachment(filename: Option<string>, contentType: string, size: nat, cid: Option<string>)

  /** The fields of the parser's result the mirror reads; `html` is `None` when it is not a string. */
  datatype ParsedMail = ParsedMail(
    messageId: Option<string>,
    from: Option<AddressObject>,
    to: AddressField,
    cc: AddressField,
    subject: Option<string>,
    text: Option<string>,
    html: Option<string>,
    attachments: seq<ParsedAttachment>,
    inReplyTo: Option<string>,
    references: References,
    date: Option<int>
  )

  /** The MIME parser is not interpreted. */
  type Parser = Source -> ParsedMail

  // ---------------------------------------------------------------- store side

  /** A stored message. `uid` is 0 for rows written by the outbound path; dates are milliseconds. */
  datatype EmailRow = EmailRow(
    id: nat,
    messageId: string,
    uid: nat,
    folder: string,
    from: string,
    fromName: Option<string>,
    to: seq<string>,
    cc: seq<string>,
    subject: string,
    textBody: Option<string>,
    htmlBody: Option<string>,
    snippet: string,
    isRead: bool,
    isStarred: bool,
    isDeleted: bool,
    hasAttachments: bool,
    inReplyTo: Option<string>,
    references: seq<string>,
    date: int
  )

  datatype AttachmentRow = AttachmentRow(emailId: nat, filename: string, contentType: string, size: nat, cid: Option<string>)

  /** Per-folder cursor: the highest mirrored UID, the UIDVALIDITY it belongs to, the last completed sync. */
  datatype SyncState = SyncState(lastUid: nat, uidValidity: Option<int>, lastSyncAt: Option<int>)

  /** The snippet length used by both the mirror and the outbound path. */
  const SnippetLength: nat := 200

  // ---------------------------------------------------------------- derivation

  /** The addresses of one header object: each mailbox's address, or "" when it has none. */
  function ObjectAddresses(a: AddressObject): (r: seq<string>)
    ensures a.value.None? ==> r == []
    ensures a.value.Some? ==> |r| == |a.value.value|
    ensures a.value.Some? ==> forall k :: 0 <= k < |r| ==> r[k] == OrElse(a.value.value[k].address, "")
  {
    match a.value
    case None => []
    case Some(vs) => seq(|vs|, k requires 0 <= k < |vs| => OrElse(vs[k].address, ""))
  }

  /** `flatMap` of `ObjectAddresses` over a list of header objects. */
  function FlatAddresses(objs: seq<AddressObject>): seq<string> {
    if objs == [] then [] else ObjectAddresses(objs[0]) + FlatAddresses(objs[1..])
  }

  /** `extractAddresses`: an absent header gives no address; one object is treated as a list of one. */
  function ExtractAddresses(field: AddressField): seq<string> {
    match field
    case NoAddress => []
    case OneAddress(o) => FlatAddresses([o])
    case AddressList(os) => FlatAddresses(os)
  }

  /** The flattening keeps every address, in order: its length is the sum of the per-object counts. */
  lemma {:induction false} FlatAddressesAppend(xs: seq<AddressObject>, ys: seq<AddressObject>)
    ensures FlatAddresses(xs + ys) == FlatAddresses(xs) + FlatAddresses(ys)
  {
    if xs == [] {
      assert xs + ys == ys;
    } else {
      assert (xs + ys)[0] == xs[0];
      assert (xs + ys)[1..] == xs[1..] + ys;
      FlatAddressesAppend(xs[1..], ys);
      calc {
        FlatAddresses(xs + ys);
        ObjectAddresses(xs[0]) + FlatAddresses(xs[1..] + ys);
        ObjectAddresses(xs[0]) + (FlatAddresses(xs[1..]) + FlatAddresses(ys));
        (ObjectAddresses(xs[0]) + FlatAddresses(xs[1..])) + FlatAddresses(ys);
        FlatAddresses(xs) + FlatAddresses(ys);
      }
    }
  }

  /** A single object and a one-element list give the same addresses; no header gives none. */
  lemma ExtractAddressesShapes(o: AddressObject)
    ensures ExtractAddresses(OneAddress(o)) == ObjectAddresses(o)
    ensures ExtractAddresses(AddressList([o])) == ObjectAddresses(o)
    ensures ExtractAddresses(NoAddress) == []
  {
    assert [o][1..] == [];
    assert FlatAddresses([o]) == ObjectAddresses(o) + FlatAddresses([]);
  }

  /** Every flattened address comes from some header object: nothing is invented. */
  lemma {:induction false} FlatAddressesFrom(objs: seq<AddressObject>, s: string)
    requires s in FlatAddresses(objs)
    ensures exists k :: 0 <= k < |objs| && s in ObjectAddresses(objs[k])
  {
    if s in ObjectAddresses(objs[0]) {
      assert 0 < |objs|;
    } else {
      FlatAddressesFrom(objs[1..], s);
      var k :| 0 <= k < |objs[1..]| && s in ObjectAddresses(objs[1..][k]);
      assert objs[1..][k] == objs[k + 1];
    }
  }

  /** The first mailbox of the `From` header, when the header and its list exist and are non-empty. */
  function FirstSender(from: Option<AddressObject>): Option<Address> {
    if from.Some? && from.value.value.Some? && |from.value.value.value| > 0
    then Some(from.value.value.value[0]) else None
  }

  /** `Array.isArray(refs) ? refs : refs ? [refs] : []`. */
  function NormalizeReferences(refs: References): (r: seq<string>)
    ensures refs.ReferenceList? ==> r == refs.ids
    ensures refs.OneReference? && refs.id != "" ==> r == [refs.id]
    ensures refs.NoReferences? || (refs.OneReference? && refs.id == "") ==> r == []
  {
    match refs
    case NoReferences => []
    case OneReference(id) => if id != "" then [id] else []
    case ReferenceList(ids) => ids
  }

  /** The fallback identifier `${folder}-${uid}-${now}` for a message without `Message-ID`. */
  function FallbackMessageId(folder: string, uid: nat, now: nat): string {
    folder + "-" + NatToString(uid) + "-" + NatToString(now)
  }

  function EffectiveMessageId(parsed: ParsedMail, folder: string, uid: nat, now: nat): (r: string)
    ensures Truthy(parsed.messageId) ==> r == parsed.messageId.value
    ensures !Truthy(parsed.messageId) ==> r == FallbackMessageId(folder, uid, now)
  {
    OrElse(parsed.messageId, FallbackMessageId(folder, uid, now))
  }

  /** The row the mirror stores for a fetched message (the store assigns `id`). */
  function DeriveRow(folder: string, m: RemoteMessage, parsed: ParsedMail, now: nat): EmailRow {
    var sender := FirstSender(parsed.from);
    EmailRow(
      id := 0,
      messageId := EffectiveMessageId(parsed, folder, m.uid, now),
      uid := m.uid,
      folder := folder,
      from := if sender.Some? then OrElse(sender.value.address, "") else "",
      fromName := if sender.Some? then OrNull(sender.value.name) else None,
      to := ExtractAddresses(parsed.to),
      cc := ExtractAddresses(parsed.cc),
      subject := OrElse(parsed.subject, "(No Subject)"),
      textBody := OrNull(parsed.text),
      htmlBody := parsed.html,
      snippet := Take(OrElse(parsed.text, ""), SnippetLength),
      isRead := Seen in m.flags,
      isStarred := Flagged in m.flags,
      isDeleted := false,
      hasAttachments := |parsed.attachments| > 0,
      inReplyTo := OrNull(parsed.inReplyTo),
      references := NormalizeReferences(parsed.references),
      date := parsed.date.GetOr(now)
    )
  }

  /** What every mirrored row satisfies, field by field. */
  lemma DeriveRowFields(folder: string, m: RemoteMessage, parsed: ParsedMail, now: nat)
    ensures var r := DeriveRow(folder, m, parsed, now);
      && r.uid == m.uid && r.folder == folder && !r.isDeleted
      && (r.isRead <==> Seen in m.flags)
      && (r.isStarred <==> Flagged in m.flags)
      && (r.hasAttachments <==> parsed.attachments != [])
      && r.subject != ""
      && (!Truthy(parsed.subject) ==> r.subject == "(No Subject)")
      && |r.snippet| <= SnippetLength
      && (Truthy(parsed.text) ==> StartsWith(parsed.text.value, r.snippet) && r.textBody == parsed.text)
      && (!Truthy(parsed.text) ==> r.snippet == "" && r.textBody.None?)
      && r.to == ExtractAddresses(parsed.to) && r.cc == ExtractAddresses(parsed.cc)
      && r.messageId != ""
  {
    var r := DeriveRow(folder, m, parsed, now);
    if !Truthy(parsed.messageId) {
      assert |r.messageId| >= |folder + "-"|;
    }
  }
}

/**
 * The database tables the mirror reads and writes (`email`,
 * `emailAttachment`, `emailSyncState`), first as a value with the
 * operations the mirror issues, then as an object whose methods perform
 * those operations in place.
 */
module MailStore {
  import opened Wrappers
  import opened Mail

  datatype Tables = Tables(
    emails: seq<EmailRow>,
    attachments: seq<AttachmentRow>,
    syncStates: map<string, SyncState>,
    nextId: nat
  )

  datatype StoreError = UniqueViolation

  // ---------------------------------------------------------------- queries

  /** `findFirst({ where: { uid, folder } })` finds a row. */
  predicate HasUidInFolder(emails: seq<EmailRow>, uid: nat, folder: string) {
    exists i :: 0 <= i < |emails| && emails[i].uid == uid && emails[i].folder == folder
  }

  /** `findUnique({ where: { messageId } })` finds a row, in any folder. */
  predicate HasMessageId(emails: seq<EmailRow>, messageId: string) {
    exists i :: 0 <= i < |emails| && emails[i].messageId == messageId
  }

  /** `messageId` is a unique column. */
  predicate UniqueMessageIds(emails: seq<EmailRow>) {
    forall i, j :: 0 <= i < j < |emails| ==> emails[i].messageId != emails[j].messageId
  }

  /** No two mirrored rows (UID above 0) share a UID in the same folder. */
  predicate UniqueMirrorKeys(emails: seq<EmailRow>) {
    forall i, j :: 0 <= i < j < |emails| && emails[i].uid > 0 ==>
      emails[i].uid != emails[j].uid || emails[i].folder != emails[j].folder
  }

  /** Row ids are assigned in increasing order and stay below the next id. */
  predicate IdsOrdered(emails: seq<EmailRow>, nextId: nat) {
    && (forall i, j :: 0 <= i < j < |emails| ==> emails[i].id < emails[j].id)
    && (forall i :: 0 <= i < |emails| ==> emails[i].id < nextId)
  }

  predicate HasRowId(emails: seq<EmailRow>, id: nat) {
    exists i :: 0 <= i < |emails| && emails[i].id == id
  }

  /** Every attachment row belongs to an existing email row. */
  predicate AttachmentsOwned(t: Tables) {
    forall k :: 0 <= k < |t.attachments| ==> HasRowId(t.emails, t.attachments[k].emailId)
  }

  /** The constraints the tables keep. */
  predicate Valid(t: Tables) {
    UniqueMessageIds(t.emails) && UniqueMirrorKeys(t.emails) && IdsOrdered(t.emails, t.nextId) && AttachmentsOwned(t)
  }

  // ---------------------------------------------------------------- writes

  /** `email.create`: the row gets the next id; a duplicate `messageId` violates the unique constraint. */
  function InsertEmail(t: Tables, row: EmailRow): (r: Result<(Tables, EmailRow), StoreError>)
    ensures r.Err? <==> HasMessageId(t.emails, row.messageId)
    ensures r.Ok? ==> (r.value.1 == row.(id := t.nextId)
                        && r.value.0 == t.(emails := t.emails + [r.value.1], nextId := t.nextId + 1))
  {
    if HasMessageId(t.emails, row.messageId) then Err(UniqueViolation)
    else
      var stored := row.(id := t.nextId);
      Ok((t.(emails := t.emails + [stored], nextId := t.nextId + 1), stored))
  }

  /** An insert that succeeds keeps every constraint, given a fresh mirror key. */
  lemma InsertEmailValid(t: Tables, row: EmailRow)
    requires Valid(t)
    requires !HasMessageId(t.emails, row.messageId)
    requires row.uid > 0 ==> !HasUidInFolder(t.emails, row.uid, row.folder)
    ensures InsertEmail(t, row).Ok? && Valid(InsertEmail(t, row).value.0)
  {
    var t2 := InsertEmail(t, row).value.0;
    var e := t2.emails;
    assert forall i :: 0 <= i < |t.emails| ==> e[i] == t.emails[i];
    forall k | 0 <= k < |t2.attachments| ensures HasRowId(e, t2.attachments[k].emailId) {
      var i :| 0 <= i < |t.emails| && t.emails[i].id == t.attachments[k].emailId;
      assert e[i] == t.emails[i];
    }
  }

  /** The attachment row written for one parsed attachment. */
  function AttachmentFor(emailId: nat, a: ParsedAttachment): (r: AttachmentRow)
    ensures r.emailId == emailId && r.contentType == a.contentType && r.size == a.size
    ensures r.filename != ""
    ensures r.cid.Some? ==> r.cid.value != ""
  {
    AttachmentRow(emailId, Strings.OrElse(a.filename, "attachment"), a.contentType, a.size, Strings.OrNull(a.cid))
  }

  /** The attachment rows of one message, in the parser's order. */
  function AttachmentRows(emailId: nat, atts: seq<ParsedAttachment>): (r: seq<AttachmentRow>)
    ensures |r| == |atts|
    ensures forall k :: 0 <= k < |atts| ==> r[k] == AttachmentFor(emailId, atts[k])
  {
    seq(|atts|, k requires 0 <= k < |atts| => AttachmentFor(emailId, atts[k]))
  }

  /** Rows of `folder` are removed; their attachments go with them. */
  function DeleteFolder(t: Tables, folder: string): Tables {
    var kept := KeepOtherFolders(t.emails, folder);
    t.(emails := kept, attachments := KeepOwned(t.attachments, kept))
  }

  /** `deleteMany({ where: { folder } })` on the email rows. */
  function KeepOtherFolders(emails: seq<EmailRow>, folder: string): (r: seq<EmailRow>)
    ensures |r| <= |emails|
    ensures forall i :: 0 <= i < |r| ==> r[i].folder != folder
  {
    if emails == [] then []
    else
      var rest := KeepOtherFolders(emails[1..], folder);
      if emails[0].folder == folder then rest else [emails[0]] + rest
  }

  /** The attachments whose email row survives. */
  function KeepOwned(atts: seq<AttachmentRow>, emails: seq<EmailRow>): (r: seq<AttachmentRow>)
    ensures forall k :: 0 <= k < |r| ==> HasRowId(emails, r[k].emailId)
    ensures forall a :: a in r <==> a in atts && HasRowId(emails, a.emailId)
  {
    if atts == [] then []
    else
      var rest := KeepOwned(atts[1..], emails);
      if HasRowId(emails, atts[0].emailId) then [atts[0]] + rest else rest
  }

  /** Deleting a folder keeps the rows of every other folder, in their order: kept rows `i < j` sit at `i' < j'` in the input. */
  lemma {:induction false} KeepOtherFoldersOrder(emails: seq<EmailRow>, folder: string, i: nat, j: nat) returns (i': nat, j': nat)
    requires i < j < |KeepOtherFolders(emails, folder)|
    ensures i' < j' < |emails|
    ensures emails[i'] == KeepOtherFolders(emails, folder)[i] && emails[j'] == KeepOtherFolders(emails, folder)[j]
  {
    var kept := KeepOtherFolders(emails, folder);
    var rest := KeepOtherFolders(emails[1..], folder);
    if emails[0].folder == folder {
      assert kept == rest;
      var a, b := KeepOtherFoldersOrder(emails[1..], folder, i, j);
      assert emails[1..][a] == emails[a + 1] && emails[1..][b] == emails[b + 1];
      i', j' := a + 1, b + 1;
    } else if i == 0 {
      assert kept == [emails[0]] + rest;
      var b := KeptIndex(emails[1..], folder, j - 1);
      assert emails[1..][b] == emails[b + 1];
      assert kept[j] == rest[j - 1];
      i', j' := 0, b + 1;
    } else {
      assert kept == [emails[0]] + rest;
      var a, b := KeepOtherFoldersOrder(emails[1..], folder, i - 1, j - 1);
      assert emails[1..][a] == emails[a + 1] && emails[1..][b] == emails[b + 1];
      assert kept[j] == rest[j - 1] && kept[i] == rest[i - 1];
      i', j' := a + 1, b + 1;
    }
  }

  /** Exactly the rows of other folders survive. */
  lemma {:induction false} KeepOtherFoldersMembers(emails: seq<EmailRow>, folder: string, e: EmailRow)
    ensures e in KeepOtherFolders(emails, folder) <==> e in emails && e.folder != folder
  {
    if emails != [] {
      KeepOtherFoldersMembers(emails[1..], folder, e);
      assert emails == [emails[0]] + emails[1..];
    }
  }

  /** Where a kept row sits in the input. */
  lemma {:induction false} KeptIndex(emails: seq<EmailRow>, folder: string, i: nat) returns (i': nat)
    requires i < |KeepOtherFolders(emails, folder)|
    ensures i' < |emails| && emails[i'] == KeepOtherFolders(emails, folder)[i]
  {
    var kept := KeepOtherFolders(emails, folder);
    var rest := KeepOtherFolders(emails[1..], folder);
    if emails[0].folder == folder {
      assert kept == rest;
      var a := KeptIndex(emails[1..], folder, i);
      i' := a + 1;
    } else if i == 0 {
      i' := 0;
    } else {
      assert kept == [emails[0]] + rest;
      var a := KeptIndex(emails[1..], folder, i - 1);
      i' := a + 1;
    }
  }

  /** Deleting a folder keeps every constraint and cascades to the attachments. */
  lemma DeleteFolderValid(t: Tables, folder: string)
    requires Valid(t)
    ensures Valid(DeleteFolder(t, folder))
    ensures forall e :: e in DeleteFolder(t, folder).emails <==> e in t.emails && e.folder != folder
  {
    var e := KeepOtherFolders(t.emails, folder);
    forall i, j | 0 <= i < j < |e|
      ensures e[i].messageId != e[j].messageId
      ensures e[i].id < e[j].id
      ensures e[i].uid > 0 ==> e[i].uid != e[j].uid || e[i].folder != e[j].folder
    {
      var i', j' := KeepOtherFoldersOrder(t.emails, folder, i, j);
    }
    forall i | 0 <= i < |e| ensures e[i].id < t.nextId {
      var i' := KeptIndex(t.emails, folder, i);
    }
    forall r ensures r in e <==> r in t.emails && r.folder != folder {
      KeepOtherFoldersMembers(t.emails, folder, r);
    }
  }

  /** The sync state of `folder`, created with cursor 0 when there is none. */
  function EnsureSyncState(t: Tables, folder: string): (r: Tables)
    ensures folder in r.syncStates
    ensures folder in t.syncStates ==> r == t
    ensures folder !in t.syncStates ==> r == t.(syncStates := t.syncStates[folder := SyncState(0, None, None)])
  {
    if folder in t.syncStates then t else t.(syncStates := t.syncStates[folder := SyncState(0, None, None)])
  }

  /** `emailSyncState.update`: replaces the state of one folder. */
  function WriteSyncState(t: Tables, folder: string, s: SyncState): (r: Tables)
    ensures r.syncStates == t.syncStates[folder := s]
    ensures r.emails == t.emails && r.attachments == t.attachments && r.nextId == t.nextId
  {
    t.(syncStates := t.syncStates[folder := s])
  }

  // ---------------------------------------------------------------- the store object

  class Store {
    var emails: seq<EmailRow>
    var attachments: seq<AttachmentRow>
    var syncStates: map<string, SyncState>
    var nextId: nat

    function Snapshot(): Tables
      reads this
    {
      Tables(emails, attachments, syncStates, nextId)
    }

    constructor(t: Tables)
      ensures Snapshot() == t
    {
      emails := t.emails;
      attachments := t.attachments;
      syncStates := t.syncStates;
      nextId := t.nextId;
    }

    method FindByUidAndFolder(uid: nat, folder: string) returns (found: bool)
      ensures found == HasUidInFolder(emails, uid, folder)
    {
      found := exists i | 0 <= i < |emails| :: emails[i].uid == uid && emails[i].folder == folder;
    }

    method FindByMessageId(messageId: string) returns (found: bool)
      ensures found == HasMessageId(emails, messageId)
    {
      found := exists i | 0 <= i < |emails| :: emails[i].messageId == messageId;
    }

    method FindSyncState(folder: string) returns (s: Option<SyncState>)
      ensures s == if folder in syncStates then Some(syncStates[folder]) else None
    {
      s := if folder in syncStates then Some(syncStates[folder]) else None;
    }

    method CreateEmail(row: EmailRow) returns (r: Result<EmailRow, StoreError>)
      modifies this
      ensures var ins := InsertEmail(old(Snapshot()), row);
        && (r.Ok? <==> ins.Ok?)
        && (ins.Ok? ==> r.value == ins.value.1 && Snapshot() == ins.value.0)
        && (ins.Err? ==> r == Err(ins.error) && Snapshot() == old(Snapshot()))
    {
      var ins := InsertEmail(Snapshot(), row);
      if ins.Ok? {
        emails := ins.value.0.emails;
        nextId := ins.value.0.nextId;
        r := Ok(ins.value.1);
      } else {
        r := Err(ins.error);
      }
    }

    method CreateAttachment(a: AttachmentRow)
      modifies this
      ensures Snapshot() == old(Snapshot()).(attachments := old(attachments) + [a])
    {
      attachments := attachments + [a];
    }

    method DeleteManyByFolder(folder: string)
      modifies this
      ensures Snapshot() == DeleteFolder(old(Snapshot()), folder)
    {
      var kept := KeepOtherFolders(emails, folder);
      attachments := KeepOwned(attachments, kept);
      emails := kept;
    }

    method CreateSyncState(folder: string) returns (s: SyncState)
      modifies this
      ensures s == SyncState(0, None, None)
      ensures Snapshot() == old(Snapshot()).(syncStates := old(syncStates)[folder := s])
    {
      s := SyncState(0, None, None);
      syncStates := syncStates[folder := s];
    }

    method UpdateSyncState(folder: string, s: SyncState)
      modifies this
      ensures Snapshot() == WriteSyncState(old(Snapshot()), folder, s)
    {
      syncStates := syncStates[folder := s];
    }
  }
}

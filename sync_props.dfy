/**
 * What one `syncFolder` call guarantees, proved about `Sync.Run` and
 * `Sync.SyncSpec`: the count is bounded by the batch size, the cursor is
 * the largest UID actually stored, a changed UIDVALIDITY wipes the folder
 * and nothing else, a failed fetch leaves the cursor alone, the store's
 * constraints survive, and a completed sync repeated at the same instant
 * changes nothing.
 */
module SyncProperties {
  import opened Wrappers
  import opened Strings
  import opened Config
  import opened Mail
  import opened MailStore
  import opened Imap
  import opened Sync

  /** `Math.max` folded over the UIDs of some rows, from a starting cursor. */
  function MaxUid(start: nat, rows: seq<EmailRow>): nat
    decreases |rows|
  {
    if rows == [] then start else MaxUid(Max(start, rows[0].uid), rows[1..])
  }

  /** `MaxUid` is the maximum of the start and every row's UID. */
  lemma {:induction false} MaxUidIsMax(start: nat, rows: seq<EmailRow>)
    ensures MaxUid(start, rows) >= start
    ensures forall k :: 0 <= k < |rows| ==> MaxUid(start, rows) >= rows[k].uid
    ensures MaxUid(start, rows) == start || exists k :: 0 <= k < |rows| && MaxUid(start, rows) == rows[k].uid
    decreases |rows|
  {
    if rows != [] {
      MaxUidIsMax(Max(start, rows[0].uid), rows[1..]);
      var r := MaxUid(start, rows);
      forall k | 0 <= k < |rows| ensures r >= rows[k].uid {
        if k > 0 { assert rows[1..][k - 1] == rows[k]; }
      }
      if r != start && r != rows[0].uid {
        var k :| 0 <= k < |rows[1..]| && r == rows[1..][k].uid;
        assert rows[k + 1] == rows[1..][k];
      }
    }
  }

  /** A row stored from fetched message `j` (at or after `i`) of the window. */
  predicate MirroredFrom(row: EmailRow, ctx: Ctx, w: seq<RemoteMessage>, i: nat) {
    exists j :: i <= j < |w| && w[j].source.Some? && w[j].uid > ctx.cursor && row == RowFor(ctx, w[j]).(id := row.id)
  }

  // ---------------------------------------------------------------- the loop

  /** `a` is `acc` with rows appended, one per counted message, the sync states untouched and the cursor not lowered. */
  predicate Extends(acc: Acc, a: Acc) {
    && |acc.t.emails| <= |a.t.emails|
    && a.t.emails[..|acc.t.emails|] == acc.t.emails
    && a.t.syncStates == acc.t.syncStates
    && a.count == acc.count + (|a.t.emails| - |acc.t.emails|)
    && a.t.nextId == acc.t.nextId + (|a.t.emails| - |acc.t.emails|)
    && a.lastUid >= acc.lastUid
  }

  lemma ExtendsTransitive(a: Acc, b: Acc, c: Acc)
    requires Extends(a, b) && Extends(b, c)
    ensures Extends(a, c)
  {
    assert c.t.emails[..|a.t.emails|] == c.t.emails[..|b.t.emails|][..|a.t.emails|];
  }

  /** The loop only appends rows, one per counted message, and never touches the sync states. */
  lemma {:induction false} RunExtends(acc: Acc, ctx: Ctx, w: seq<RemoteMessage>, i: nat, drop: Option<nat>)
    requires i <= |w|
    ensures Extends(acc, Run(acc, ctx, w, i, drop).acc)
    decreases |w| - i
  {
    if drop == Some(i) || i == |w| {
      assert acc.t.emails[..|acc.t.emails|] == acc.t.emails;
    } else if Skipped(acc.t.emails, ctx, w[i]) {
      RunExtends(acc, ctx, w, i + 1, drop);
    } else {
      var next := Acc(Admit(acc.t, ctx, w[i]), Max(acc.lastUid, w[i].uid), acc.count + 1);
      assert next.t.emails[..|acc.t.emails|] == acc.t.emails;
      if !BatchReached(next.count, ctx.batch) {
        RunExtends(next, ctx, w, i + 1, drop);
        ExtendsTransitive(acc, next, Run(next, ctx, w, i + 1, drop).acc);
      }
    }
  }

  /** A row appended while scanning the window from `i`: of this folder, above the cursor, derived from a fetched message, with a fresh id. */
  predicate NewRow(row: EmailRow, ctx: Ctx, w: seq<RemoteMessage>, i: nat, firstId: nat) {
    && row.folder == ctx.folder
    && row.uid > ctx.cursor
    && row.id >= firstId
    && MirroredFrom(row, ctx, w, i)
  }

  lemma NewRowEarlier(row: EmailRow, ctx: Ctx, w: seq<RemoteMessage>, i: nat, firstId: nat, laterId: nat)
    requires NewRow(row, ctx, w, i + 1, laterId) && laterId >= firstId
    ensures NewRow(row, ctx, w, i, firstId)
  {
    var j :| i + 1 <= j < |w| && w[j].source.Some? && w[j].uid > ctx.cursor && row == RowFor(ctx, w[j]).(id := row.id);
  }

  lemma NewRowsEarlier(rows: seq<EmailRow>, from: nat, ctx: Ctx, w: seq<RemoteMessage>, i: nat, firstId: nat)
    requires forall k :: from <= k < |rows| ==> NewRow(rows[k], ctx, w, i + 1, firstId)
    ensures forall k :: from <= k < |rows| ==> NewRow(rows[k], ctx, w, i, firstId)
  {
    forall k | from <= k < |rows| ensures NewRow(rows[k], ctx, w, i, firstId) {
      NewRowEarlier(rows[k], ctx, w, i, firstId, firstId);
    }
  }

  lemma AdmitNewRow(t: Tables, ctx: Ctx, w: seq<RemoteMessage>, i: nat)
    requires i < |w| && !Skipped(t.emails, ctx, w[i])
    ensures |Admit(t, ctx, w[i]).emails| == |t.emails| + 1
    ensures NewRow(Admit(t, ctx, w[i]).emails[|t.emails|], ctx, w, i, t.nextId)
  {
    var row := Admit(t, ctx, w[i]).emails[|t.emails|];
    assert row == RowFor(ctx, w[i]).(id := t.nextId);
  }

  /** Every appended row belongs to the folder, lies above the cursor, is derived from a fetched message, and has a new id. */
  lemma {:induction false} RunNewRows(acc: Acc, ctx: Ctx, w: seq<RemoteMessage>, i: nat, drop: Option<nat>) returns (a: Acc)
    requires i <= |w|
    ensures a == Run(acc, ctx, w, i, drop).acc
    ensures forall k :: |acc.t.emails| <= k < |a.t.emails| ==> NewRow(a.t.emails[k], ctx, w, i, acc.t.nextId)
    decreases |w| - i
  {
    a := Run(acc, ctx, w, i, drop).acc;
    if drop == Some(i) || i == |w| {
    } else if Skipped(acc.t.emails, ctx, w[i]) {
      var a' := RunNewRows(acc, ctx, w, i + 1, drop);
      NewRowsEarlier(a.t.emails, |acc.t.emails|, ctx, w, i, acc.t.nextId);
    } else {
      var next := Acc(Admit(acc.t, ctx, w[i]), Max(acc.lastUid, w[i].uid), acc.count + 1);
      if BatchReached(next.count, ctx.batch) {
        AdmitNewRow(acc.t, ctx, w, i);
      } else {
        var a' := RunNewRows(next, ctx, w, i + 1, drop);
        RunExtends(next, ctx, w, i + 1, drop);
        NewRowsAfterAdmit(acc.t, next.t, ctx, w, i, a.t.emails);
      }
    }
  }

  /** The rows after one admitted message: the admitted row, then rows new from the next message on. */
  lemma NewRowsAfterAdmit(t: Tables, t': Tables, ctx: Ctx, w: seq<RemoteMessage>, i: nat, rows: seq<EmailRow>)
    requires i < |w| && !Skipped(t.emails, ctx, w[i]) && t' == Admit(t, ctx, w[i])
    requires |t'.emails| <= |rows| && rows[..|t'.emails|] == t'.emails
    requires forall k :: |t'.emails| <= k < |rows| ==> NewRow(rows[k], ctx, w, i + 1, t'.nextId)
    ensures forall k :: |t.emails| <= k < |rows| ==> NewRow(rows[k], ctx, w, i, t.nextId)
  {
    AdmitNewRow(t, ctx, w, i);
    var n := |t.emails|;
    forall k | n <= k < |rows| ensures NewRow(rows[k], ctx, w, i, t.nextId) {
      if k == n {
        assert rows[k] == rows[..|t'.emails|][k];
      } else {
        NewRowEarlier(rows[k], ctx, w, i, t.nextId, t'.nextId);
      }
    }
  }

  /** The cursor the loop ends with is the largest of its start and the UIDs of the rows it stored. */
  lemma {:induction false} RunCursor(acc: Acc, ctx: Ctx, w: seq<RemoteMessage>, i: nat, drop: Option<nat>)
    requires i <= |w|
    ensures var a := Run(acc, ctx, w, i, drop).acc;
      |acc.t.emails| <= |a.t.emails| && a.lastUid == MaxUid(acc.lastUid, a.t.emails[|acc.t.emails|..])
    decreases |w| - i
  {
    if drop == Some(i) || i == |w| {
      assert acc.t.emails[|acc.t.emails|..] == [];
    } else if Skipped(acc.t.emails, ctx, w[i]) {
      RunCursor(acc, ctx, w, i + 1, drop);
    } else {
      var next := Acc(Admit(acc.t, ctx, w[i]), Max(acc.lastUid, w[i].uid), acc.count + 1);
      if !BatchReached(next.count, ctx.batch) {
        RunCursor(next, ctx, w, i + 1, drop);
        RunExtends(next, ctx, w, i + 1, drop);
      }
      CursorAfterAdmit(acc, next, Run(acc, ctx, w, i, drop).acc, w[i].uid);
    }
  }

  /** One admitted message's UID joins the cursor before the rows stored after it. */
  lemma CursorAfterAdmit(acc: Acc, next: Acc, a: Acc, uid: nat)
    requires |next.t.emails| == |acc.t.emails| + 1 && next.t.emails[|acc.t.emails|].uid == uid
    requires next.lastUid == Max(acc.lastUid, uid)
    requires |next.t.emails| <= |a.t.emails| && a.t.emails[..|next.t.emails|] == next.t.emails
    requires a.lastUid == MaxUid(next.lastUid, a.t.emails[|next.t.emails|..])
    ensures |acc.t.emails| <= |a.t.emails| && a.lastUid == MaxUid(acc.lastUid, a.t.emails[|acc.t.emails|..])
  {
    var n := |acc.t.emails|;
    assert a.t.emails[n] == a.t.emails[..|next.t.emails|][n];
    MaxUidStep(acc.lastUid, a.t.emails, n);
  }

  lemma MaxUidStep(start: nat, rows: seq<EmailRow>, n: nat)
    requires n < |rows|
    ensures MaxUid(start, rows[n..]) == MaxUid(Max(start, rows[n].uid), rows[n + 1..])
  {
    assert rows[n..][1..] == rows[n + 1..];
  }

  /** The loop stops as soon as the count reaches a numeric batch size (and never before the first stored row). */
  lemma {:induction false} RunCountBound(acc: Acc, ctx: Ctx, w: seq<RemoteMessage>, i: nat, drop: Option<nat>)
    requires i <= |w| && ctx.batch.Some?
    requires acc.count < CountLimit(ctx.batch.value)
    ensures Run(acc, ctx, w, i, drop).acc.count <= CountLimit(ctx.batch.value)
    decreases |w| - i
  {
    if drop == Some(i) || i == |w| {
    } else if Skipped(acc.t.emails, ctx, w[i]) {
      RunCountBound(acc, ctx, w, i + 1, drop);
    } else {
      var next := Acc(Admit(acc.t, ctx, w[i]), Max(acc.lastUid, w[i].uid), acc.count + 1);
      if !BatchReached(next.count, ctx.batch) {
        RunCountBound(next, ctx, w, i + 1, drop);
      }
    }
  }

  /** Appending a row that passed the guards keeps every constraint of the tables. */
  lemma AdmitValid(t: Tables, ctx: Ctx, m: RemoteMessage)
    requires Valid(t) && !Skipped(t.emails, ctx, m)
    ensures Valid(Admit(t, ctx, m))
  {
    var row := RowFor(ctx, m);
    InsertEmailValid(t, row);
    var t1 := InsertEmail(t, row).value.0;
    var r := Admit(t, ctx, m);
    assert r.emails == t1.emails;
    var last := |r.emails| - 1;
    assert r.emails[last].id == t.nextId;
    forall k | 0 <= k < |r.attachments| ensures HasRowId(r.emails, r.attachments[k].emailId) {
      if k >= |t.attachments| {
        assert r.attachments[k].emailId == t.nextId;
      }
    }
  }

  /** The loop keeps every constraint of the tables: no duplicate `messageId`, no duplicate UID per folder. */
  lemma {:induction false} RunValid(acc: Acc, ctx: Ctx, w: seq<RemoteMessage>, i: nat, drop: Option<nat>)
    requires i <= |w| && Valid(acc.t)
    ensures Valid(Run(acc, ctx, w, i, drop).acc.t)
    decreases |w| - i
  {
    if drop == Some(i) || i == |w| {
    } else if Skipped(acc.t.emails, ctx, w[i]) {
      RunValid(acc, ctx, w, i + 1, drop);
    } else {
      AdmitValid(acc.t, ctx, w[i]);
      var next := Acc(Admit(acc.t, ctx, w[i]), Max(acc.lastUid, w[i].uid), acc.count + 1);
      if !BatchReached(next.count, ctx.batch) {
        RunValid(next, ctx, w, i + 1, drop);
      }
    }
  }

  /** Adding rows never makes a guard let through a message it stopped. */
  lemma SkippedMonotone(e1: seq<EmailRow>, e2: seq<EmailRow>, ctx: Ctx, cursor: nat, m: RemoteMessage)
    requires |e1| <= |e2| && e2[..|e1|] == e1 && cursor >= ctx.cursor
    requires Skipped(e1, ctx, m)
    ensures Skipped(e2, Ctx(ctx.folder, cursor, ctx.parse, ctx.now, ctx.batch), m)
  {
    var ctx2 := Ctx(ctx.folder, cursor, ctx.parse, ctx.now, ctx.batch);
    if m.uid <= ctx.cursor {
    } else if HasUidInFolder(e1, m.uid, ctx.folder) {
      var k :| 0 <= k < |e1| && e1[k].uid == m.uid && e1[k].folder == ctx.folder;
      assert e2[k] == e1[k];
    } else if m.source.None? {
    } else {
      var k :| 0 <= k < |e1| && e1[k].messageId == MessageIdOf(ctx, m);
      assert e2[k] == e1[k];
      assert MessageIdOf(ctx2, m) == MessageIdOf(ctx, m);
    }
  }

  /**
   * When the loop ends without failing and below the batch size, every
   * message of the window would be skipped by a second pass that starts
   * from the final cursor and the final rows.
   */
  lemma {:induction false} RunCovers(acc: Acc, ctx: Ctx, w: seq<RemoteMessage>, i: nat, drop: Option<nat>)
    requires i <= |w| && acc.lastUid >= ctx.cursor
    requires Run(acc, ctx, w, i, drop).Done?
    requires !BatchReached(Run(acc, ctx, w, i, drop).acc.count, ctx.batch)
    ensures var a := Run(acc, ctx, w, i, drop).acc;
      forall j :: i <= j < |w| ==> Skipped(a.t.emails, Ctx(ctx.folder, a.lastUid, ctx.parse, ctx.now, ctx.batch), w[j])
    decreases |w| - i
  {
    RunExtends(acc, ctx, w, i, drop);
    var a := Run(acc, ctx, w, i, drop).acc;
    var ctx2 := Ctx(ctx.folder, a.lastUid, ctx.parse, ctx.now, ctx.batch);
    if i < |w| {
      if Skipped(acc.t.emails, ctx, w[i]) {
        RunCovers(acc, ctx, w, i + 1, drop);
        SkippedMonotone(acc.t.emails, a.t.emails, ctx, a.lastUid, w[i]);
      } else {
        var next := Acc(Admit(acc.t, ctx, w[i]), Max(acc.lastUid, w[i].uid), acc.count + 1);
        assert !BatchReached(next.count, ctx.batch);
        RunCovers(next, ctx, w, i + 1, drop);
        RunExtends(next, ctx, w, i + 1, drop);
        assert w[i].uid <= a.lastUid;
      }
    }
  }

  /** A window whose every message is skipped leaves everything as it was. */
  lemma {:induction false} RunAllSkipped(acc: Acc, ctx: Ctx, w: seq<RemoteMessage>, i: nat)
    requires i <= |w|
    requires forall j :: i <= j < |w| ==> Skipped(acc.t.emails, ctx, w[j])
    ensures Run(acc, ctx, w, i, None) == Done(acc)
    decreases |w| - i
  {
    if i < |w| {
      RunAllSkipped(acc, ctx, w, i + 1);
    }
  }

  // ---------------------------------------------------------------- the whole call

  /** The IMAP session: without configuration or connection nothing is sent; otherwise it starts with a login and always ends with a logout. */
  lemma SyncSession(t: Tables, env: Env, parseInt: ParseInt, reachable: bool, mailboxes: map<string, Mailbox>,
                    folder: string, parse: Parser, now: nat, drop: Option<nat>)
    ensures var o := SyncSpec(t, env, parseInt, reachable, mailboxes, folder, parse, now, drop);
      && (o.sent == [] <==> GetImapConfig(env, parseInt).Err? || !reachable)
      && (o.sent == [] ==> o.t == t && o.result.Err?)
      && (GetImapConfig(env, parseInt).Err? ==> o.result == Err(ConfigMissing(ConfigMissingMessage)))
      && (o.sent != [] ==> o.sent[0] == Login && o.sent[1] == Select(folder) && o.sent[|o.sent| - 1] == Logout)
      && (o.result.Ok? ==> folder in mailboxes && |o.sent| == 4)
  {
    var o := SyncSpec(t, env, parseInt, reachable, mailboxes, folder, parse, now, drop);
    if GetImapConfig(env, parseInt).Ok? && reachable && folder in mailboxes {
      var ctx := ContextFor(t, env, parseInt, folder, mailboxes[folder].uidValidity, parse, now);
      assert o.sent == [Login, Select(folder), Fetch(CriteriaFor(ctx.cursor)), Logout];
    }
  }

  /** The number returned never exceeds the batch size (or 1, for a batch size below 1). */
  lemma SyncCountBounded(t: Tables, env: Env, parseInt: ParseInt, reachable: bool, mailboxes: map<string, Mailbox>,
                         folder: string, parse: Parser, now: nat, drop: Option<nat>)
    requires BatchSize(env, parseInt).Some?
    ensures var o := SyncSpec(t, env, parseInt, reachable, mailboxes, folder, parse, now, drop);
      o.result.Ok? ==> o.result.value <= CountLimit(BatchSize(env, parseInt).value)
  {
    if GetImapConfig(env, parseInt).Ok? && reachable && folder in mailboxes {
      var mb := mailboxes[folder];
      var ctx := ContextFor(t, env, parseInt, folder, mb.uidValidity, parse, now);
      var w := Search(mb.messages, CriteriaFor(ctx.cursor));
      RunCountBound(Acc(Prepared(t, folder, mb.uidValidity), ctx.cursor, 0), ctx, w, 0, drop);
    }
  }

  /** With `EMAIL_SYNC_BATCH_SIZE` unset, at most 100 rows are stored per call. */
  lemma SyncDefaultBatch(t: Tables, env: Env, parseInt: ParseInt, reachable: bool, mailboxes: map<string, Mailbox>,
                         folder: string, parse: Parser, now: nat, drop: Option<nat>)
    requires !Truthy(env.syncBatchSize) && parseInt("100") == Some(100)
    ensures var o := SyncSpec(t, env, parseInt, reachable, mailboxes, folder, parse, now, drop);
      o.result.Ok? ==> o.result.value <= 100
  {
    SyncCountBounded(t, env, parseInt, reachable, mailboxes, folder, parse, now, drop);
  }

  /**
   * Once the folder is open the store ends as the prepared store plus the
   * rows this call created; a successful call returns their number, each
   * one is a row of this folder derived from a fetched message above the
   * cursor, and the cursor written is the largest of the starting cursor
   * and their UIDs.
   */
  lemma SyncCreatedRows(t: Tables, env: Env, parseInt: ParseInt, mailboxes: map<string, Mailbox>,
                        folder: string, parse: Parser, now: nat, drop: Option<nat>)
    requires GetImapConfig(env, parseInt).Ok? && folder in mailboxes
    ensures var o := SyncSpec(t, env, parseInt, true, mailboxes, folder, parse, now, drop);
      var token := mailboxes[folder].uidValidity;
      var t2 := Prepared(t, folder, token);
      var ctx := ContextFor(t, env, parseInt, folder, token, parse, now);
      var w := Search(mailboxes[folder].messages, CriteriaFor(ctx.cursor));
      && |t2.emails| <= |o.t.emails| && o.t.emails[..|t2.emails|] == t2.emails
      && (o.result.Ok? ==> o.result.value == |o.t.emails| - |t2.emails|)
      && (o.result.Ok? ==> o.t.syncStates == t2.syncStates[folder :=
            SyncState(MaxUid(ctx.cursor, o.t.emails[|t2.emails|..]), Some(token), Some(now))])
      && (forall k :: |t2.emails| <= k < |o.t.emails| ==> NewRow(o.t.emails[k], ctx, w, 0, t.nextId))
  {
    var token := mailboxes[folder].uidValidity;
    var t2 := Prepared(t, folder, token);
    var ctx := ContextFor(t, env, parseInt, folder, token, parse, now);
    var w := Search(mailboxes[folder].messages, CriteriaFor(ctx.cursor));
    var acc := Acc(t2, ctx.cursor, 0);
    RunExtends(acc, ctx, w, 0, drop);
    var a := RunNewRows(acc, ctx, w, 0, drop);
    RunCursor(acc, ctx, w, 0, drop);
  }

  /** The cursor never moves backwards while the folder's UIDVALIDITY is unchanged, and skipped messages do not advance it. */
  lemma SyncCursorMonotone(t: Tables, env: Env, parseInt: ParseInt, mailboxes: map<string, Mailbox>,
                           folder: string, parse: Parser, now: nat, drop: Option<nat>)
    requires GetImapConfig(env, parseInt).Ok? && folder in mailboxes && folder in t.syncStates
    requires !ResetNeeded(t.syncStates[folder].uidValidity, mailboxes[folder].uidValidity)
    ensures var o := SyncSpec(t, env, parseInt, true, mailboxes, folder, parse, now, drop);
      o.result.Ok? ==> o.t.syncStates[folder].lastUid >= t.syncStates[folder].lastUid
  {
    SyncCreatedRows(t, env, parseInt, mailboxes, folder, parse, now, drop);
    var o := SyncSpec(t, env, parseInt, true, mailboxes, folder, parse, now, drop);
    var t2 := Prepared(t, folder, mailboxes[folder].uidValidity);
    MaxUidIsMax(t.syncStates[folder].lastUid, o.t.emails[|t2.emails|..]);
  }

  /** A fetch that fails mid-stream leaves the sync states exactly as they were before the loop; rows stored so far stay. */
  lemma SyncFailureKeepsCursor(t: Tables, env: Env, parseInt: ParseInt, mailboxes: map<string, Mailbox>,
                               folder: string, parse: Parser, now: nat, drop: Option<nat>)
    requires GetImapConfig(env, parseInt).Ok? && folder in mailboxes
    ensures var o := SyncSpec(t, env, parseInt, true, mailboxes, folder, parse, now, drop);
      var t2 := Prepared(t, folder, mailboxes[folder].uidValidity);
      o.result == Err(StreamFailed) ==> o.t.syncStates == t2.syncStates
  {
    var token := mailboxes[folder].uidValidity;
    var ctx := ContextFor(t, env, parseInt, folder, token, parse, now);
    var w := Search(mailboxes[folder].messages, CriteriaFor(ctx.cursor));
    RunExtends(Acc(Prepared(t, folder, token), ctx.cursor, 0), ctx, w, 0, drop);
  }

  /**
   * A remembered, truthy UIDVALIDITY that differs from the server's wipes
   * the folder before anything is fetched: every row of the folder after
   * the call was created by it, and the other folders keep their rows.
   */
  lemma SyncResetWipesFolder(t: Tables, env: Env, parseInt: ParseInt, mailboxes: map<string, Mailbox>,
                             folder: string, parse: Parser, now: nat, drop: Option<nat>)
    requires Valid(t)
    requires GetImapConfig(env, parseInt).Ok? && folder in mailboxes && folder in t.syncStates
    requires ResetNeeded(t.syncStates[folder].uidValidity, mailboxes[folder].uidValidity)
    ensures var o := SyncSpec(t, env, parseInt, true, mailboxes, folder, parse, now, drop);
      && (forall e :: e in o.t.emails && e.folder == folder ==> e.id >= t.nextId)
      && (forall e :: e in t.emails && e.folder == folder ==> e !in o.t.emails)
      && (forall e :: e in t.emails && e.folder != folder ==> e in o.t.emails)
  {
    var o := SyncSpec(t, env, parseInt, true, mailboxes, folder, parse, now, drop);
    var t2 := Prepared(t, folder, mailboxes[folder].uidValidity);
    assert t2.emails == KeepOtherFolders(t.emails, folder);
    SyncCreatedRows(t, env, parseInt, mailboxes, folder, parse, now, drop);
    WipedRows(t.emails, t2.emails, o.t.emails, folder, t.nextId);
  }

  /**
   * Rows that keep the other folders' rows of `before` and append rows of
   * `folder` numbered from `nextId` on hold none of the folder's earlier
   * rows and all of the others.
   */
  lemma WipedRows(before: seq<EmailRow>, kept: seq<EmailRow>, after: seq<EmailRow>, folder: string, nextId: nat)
    requires IdsOrdered(before, nextId) && kept == KeepOtherFolders(before, folder)
    requires |kept| <= |after| && after[..|kept|] == kept
    requires forall k :: |kept| <= k < |after| ==> after[k].folder == folder && after[k].id >= nextId
    ensures forall e :: e in after && e.folder == folder ==> e.id >= nextId
    ensures forall e :: e in before && e.folder == folder ==> e !in after
    ensures forall e :: e in before && e.folder != folder ==> e in after
  {
    forall e | e in after && e.folder == folder ensures e.id >= nextId {
      var k :| 0 <= k < |after| && after[k] == e;
      if k < |kept| {
        assert e in kept;
        KeepOtherFoldersMembers(before, folder, e);
      }
    }
    PrefixMembers(kept, after);
    forall e | e in before && e.folder != folder ensures e in after {
      KeepOtherFoldersMembers(before, folder, e);
    }
    forall e | e in before && e.folder == folder ensures e !in after {
      var k :| 0 <= k < |before| && before[k] == e;
    }
  }

  /** After such a reset the whole mailbox is fetched again. */
  lemma SyncResetRefetches(t: Tables, env: Env, parseInt: ParseInt, mailboxes: map<string, Mailbox>,
                           folder: string, parse: Parser, now: nat, drop: Option<nat>)
    requires GetImapConfig(env, parseInt).Ok? && folder in mailboxes && folder in t.syncStates
    requires ResetNeeded(t.syncStates[folder].uidValidity, mailboxes[folder].uidValidity)
    ensures SyncSpec(t, env, parseInt, true, mailboxes, folder, parse, now, drop).sent[2] == Fetch(All)
  {
  }

  lemma PrefixMembers<T>(a: seq<T>, b: seq<T>)
    requires |a| <= |b| && b[..|a|] == a
    ensures forall x :: x in a ==> x in b
  {
    forall x | x in a ensures x in b {
      var k :| 0 <= k < |a| && a[k] == x;
      assert b[k] == x;
    }
  }

  /** A null, zero or equal stored UIDVALIDITY never wipes anything: every existing row is still there, in place. */
  lemma SyncWithoutResetKeepsRows(t: Tables, env: Env, parseInt: ParseInt, mailboxes: map<string, Mailbox>,
                                  folder: string, parse: Parser, now: nat, drop: Option<nat>)
    requires GetImapConfig(env, parseInt).Ok? && folder in mailboxes
    requires folder in t.syncStates ==> !ResetNeeded(t.syncStates[folder].uidValidity, mailboxes[folder].uidValidity)
    ensures var o := SyncSpec(t, env, parseInt, true, mailboxes, folder, parse, now, drop);
      |t.emails| <= |o.t.emails| && o.t.emails[..|t.emails|] == t.emails
  {
    SyncCreatedRows(t, env, parseInt, mailboxes, folder, parse, now, drop);
  }

  /** Every call keeps the store's constraints: no two rows share a `messageId`, none share a UID in a folder. */
  lemma SyncKeepsValid(t: Tables, env: Env, parseInt: ParseInt, reachable: bool, mailboxes: map<string, Mailbox>,
                       folder: string, parse: Parser, now: nat, drop: Option<nat>)
    requires Valid(t)
    ensures Valid(SyncSpec(t, env, parseInt, reachable, mailboxes, folder, parse, now, drop).t)
  {
    if GetImapConfig(env, parseInt).Ok? && reachable && folder in mailboxes {
      var token := mailboxes[folder].uidValidity;
      var t1 := EnsureSyncState(t, folder);
      DeleteFolderValid(t1, folder);
      var t2 := Prepared(t, folder, token);
      assert Valid(t2);
      var ctx := ContextFor(t, env, parseInt, folder, token, parse, now);
      var w := Search(mailboxes[folder].messages, CriteriaFor(ctx.cursor));
      RunValid(Acc(t2, ctx.cursor, 0), ctx, w, 0, drop);
    }
  }

  /**
   * A call that finds the cursor written at this instant for the server's
   * UIDVALIDITY, and every message above it already mirrored or unusable,
   * changes nothing and returns 0.
   */
  lemma QuietSync(t: Tables, env: Env, parseInt: ParseInt, mailboxes: map<string, Mailbox>,
                  folder: string, parse: Parser, now: nat, cursor: nat)
    requires GetImapConfig(env, parseInt).Ok? && folder in mailboxes && Ascending(mailboxes[folder].messages)
    requires folder in t.syncStates && t.syncStates[folder] == SyncState(cursor, Some(mailboxes[folder].uidValidity), Some(now))
    requires forall m :: m in mailboxes[folder].messages && m.uid > cursor ==>
      Skipped(t.emails, Ctx(folder, cursor, parse, now, BatchSize(env, parseInt)), m)
    ensures var again := SyncSpec(t, env, parseInt, true, mailboxes, folder, parse, now, None);
      again.t == t && again.result == Ok(0)
  {
    var mb := mailboxes[folder];
    assert Prepared(t, folder, mb.uidValidity) == t;
    var ctx := ContextFor(t, env, parseInt, folder, mb.uidValidity, parse, now);
    var w := Search(mb.messages, CriteriaFor(cursor));
    WindowCoversCursor(mb.messages, cursor);
    forall j | 0 <= j < |w| ensures Skipped(t.emails, ctx, w[j]) {
      assert w[j] in w;
    }
    RunAllSkipped(Acc(t, cursor, 0), ctx, w, 0);
    assert t.syncStates[folder := SyncState(cursor, Some(mb.uidValidity), Some(now))] == t.syncStates;
  }

  /**
   * A sync that completed below the batch size, repeated at the same
   * instant against the same mailbox, stores nothing, returns 0 and leaves
   * the store exactly as it was.
   */
  lemma SyncIdempotent(t: Tables, env: Env, parseInt: ParseInt, mailboxes: map<string, Mailbox>,
                       folder: string, parse: Parser, now: nat, drop: Option<nat>)
    requires ValidMailboxes(mailboxes)
    requires var o := SyncSpec(t, env, parseInt, true, mailboxes, folder, parse, now, drop);
      o.result.Ok? && !BatchReached(o.result.value, BatchSize(env, parseInt))
    ensures var o := SyncSpec(t, env, parseInt, true, mailboxes, folder, parse, now, drop);
      var again := SyncSpec(o.t, env, parseInt, true, mailboxes, folder, parse, now, None);
      again.t == o.t && again.result == Ok(0)
  {
    var o := SyncSpec(t, env, parseInt, true, mailboxes, folder, parse, now, drop);
    var mb := mailboxes[folder];
    var token := mb.uidValidity;
    var ctx := ContextFor(t, env, parseInt, folder, token, parse, now);
    var w := Search(mb.messages, CriteriaFor(ctx.cursor));
    var acc := Acc(Prepared(t, folder, token), ctx.cursor, 0);
    var a := Run(acc, ctx, w, 0, drop).acc;
    assert o.t == WriteSyncState(a.t, folder, SyncState(a.lastUid, Some(token), Some(now)));
    RunExtends(acc, ctx, w, 0, drop);
    RunCovers(acc, ctx, w, 0, drop);
    WindowCoversCursor(mb.messages, ctx.cursor);
    var later := Ctx(folder, a.lastUid, parse, now, BatchSize(env, parseInt));
    assert o.t.emails == a.t.emails;
    CoveredLater(mb.messages, w, o.t.emails, later, ctx.cursor);
    QuietSync(o.t, env, parseInt, mailboxes, folder, parse, now, a.lastUid);
  }

  /** Messages of the window that a later cursor skips, and every message above the earlier cursor is in the window. */
  lemma CoveredLater(msgs: seq<RemoteMessage>, w: seq<RemoteMessage>, rows: seq<EmailRow>, later: Ctx, cursor: nat)
    requires later.cursor >= cursor
    requires forall m :: m in msgs && m.uid > cursor ==> m in w
    requires forall j :: 0 <= j < |w| ==> Skipped(rows, later, w[j])
    ensures forall m :: m in msgs && m.uid > later.cursor ==> Skipped(rows, later, m)
  {
    forall m | m in msgs && m.uid > later.cursor ensures Skipped(rows, later, m) {
      var k :| 0 <= k < |w| && w[k] == m;
    }
  }
}

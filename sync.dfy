/**
 * `syncFolder`: mirrors one IMAP folder into the store. The folder is wiped
 * when the server's UIDVALIDITY differs from a remembered non-zero one
 * (section 2.3.1.1 of RFC 3501), messages above the cursor are fetched,
 * four guards skip messages already mirrored or unusable, each remaining
 * message becomes a row (plus its attachment rows), the loop stops at the
 * batch size, and the cursor is written only after the loop.
 *
 * `Run` and `SyncSpec` state the whole effect as values; `SyncFolder` is
 * the step-by-step procedure, proved to have exactly that effect.
 */
module Sync {
  import opened Wrappers
  import opened Strings
  import opened Config
  import opened Mail
  import opened MailStore
  import opened Imap

  function Max(a: nat, b: nat): nat {
    if a < b then b else a
  }

  /** `parseInt(EMAIL_SYNC_BATCH_SIZE || "100")`; `None` is `NaN`. */
  function BatchSize(env: Env, parseInt: ParseInt): Option<int> {
    IntSetting(env.syncBatchSize, "100", parseInt)
  }

  /** `syncedCount >= batchSize`; a comparison with `NaN` is false. */
  predicate BatchReached(count: nat, batch: Option<int>) {
    batch.Some? && count >= batch.value
  }

  /** The largest count a run can reach: the loop always admits one message before testing the bound. */
  function CountLimit(b: int): nat {
    if b < 1 then 1 else b
  }

  /** What one sync run works with: folder, cursor, parser, clock and batch bound. */
  datatype Ctx = Ctx(folder: string, cursor: nat, parse: Parser, now: nat, batch: Option<int>)

  function MessageIdOf(ctx: Ctx, m: RemoteMessage): string
    requires m.source.Some?
  {
    EffectiveMessageId(ctx.parse(m.source.value), ctx.folder, m.uid, ctx.now)
  }

  function RowFor(ctx: Ctx, m: RemoteMessage): (r: EmailRow)
    requires m.source.Some?
    ensures r.messageId == MessageIdOf(ctx, m) && r.uid == m.uid && r.folder == ctx.folder
  {
    DeriveRow(ctx.folder, m, ctx.parse(m.source.value), ctx.now)
  }

  /** The four guards: at or below the cursor, already mirrored in the folder, no source, or a known `messageId`. */
  predicate Skipped(emails: seq<EmailRow>, ctx: Ctx, m: RemoteMessage) {
    || m.uid <= ctx.cursor
    || HasUidInFolder(emails, m.uid, ctx.folder)
    || m.source.None?
    || HasMessageId(emails, MessageIdOf(ctx, m))
  }

  /** Storing a message that passed the guards: its row, then its attachment rows. */
  function Admit(t: Tables, ctx: Ctx, m: RemoteMessage): (r: Tables)
    requires !Skipped(t.emails, ctx, m)
    ensures r.emails == t.emails + [RowFor(ctx, m).(id := t.nextId)]
    ensures r.nextId == t.nextId + 1 && r.syncStates == t.syncStates
    ensures r.attachments == t.attachments + AttachmentRows(t.nextId, ctx.parse(m.source.value).attachments)
  {
    var ins := InsertEmail(t, RowFor(ctx, m));
    var t1 := ins.value.0;
    t1.(attachments := t1.attachments + AttachmentRows(ins.value.1.id, ctx.parse(m.source.value).attachments))
  }

  datatype Acc = Acc(t: Tables, lastUid: nat, count: nat)

  /** The loop ends normally (`Done`) or because the fetch stream failed (`Failed`); rows written so far stay. */
  datatype Outcome = Done(acc: Acc) | Failed(acc: Acc)

  /**
   * The fetch loop from message `i` of the window on. `drop == Some(k)`
   * makes the stream fail just before it would deliver message `k`.
   */
  function Run(acc: Acc, ctx: Ctx, w: seq<RemoteMessage>, i: nat, drop: Option<nat>): Outcome
    requires i <= |w|
    decreases |w| - i
  {
    if drop == Some(i) then Failed(acc)
    else if i == |w| then Done(acc)
    else if Skipped(acc.t.emails, ctx, w[i]) then Run(acc, ctx, w, i + 1, drop)
    else
      var next := Acc(Admit(acc.t, ctx, w[i]), Max(acc.lastUid, w[i].uid), acc.count + 1);
      if BatchReached(next.count, ctx.batch) then Done(next) else Run(next, ctx, w, i + 1, drop)
  }

  // ---------------------------------------------------------------- the whole call

  /** `syncState.uidValidity && syncState.uidValidity !== uidValidity`: only a truthy (non-null, non-zero) token resets. */
  predicate ResetNeeded(stored: Option<int>, token: int) {
    stored.Some? && stored.value != 0 && stored.value != token
  }

  /** The store just before the fetch: the cursor exists, and the folder is wiped if its token changed. */
  function Prepared(t: Tables, folder: string, token: int): (r: Tables)
    ensures folder in r.syncStates
  {
    var t1 := EnsureSyncState(t, folder);
    var s := t1.syncStates[folder];
    if ResetNeeded(s.uidValidity, token)
    then WriteSyncState(DeleteFolder(t1, folder), folder, s.(lastUid := 0, uidValidity := Some(token)))
    else t1
  }

  datatype SyncOutcome = SyncOutcome(t: Tables, sent: seq<Command>, result: Result<nat, ImapError>)

  function ContextFor(t: Tables, env: Env, parseInt: ParseInt, folder: string, token: int, parse: Parser, now: nat): Ctx {
    Ctx(folder, Prepared(t, folder, token).syncStates[folder].lastUid, parse, now, BatchSize(env, parseInt))
  }

  /** The effect of one `syncFolder(folder)` call on the store, the commands it sends, and what it returns. */
  function SyncSpec(t: Tables, env: Env, parseInt: ParseInt, reachable: bool, mailboxes: map<string, Mailbox>,
                    folder: string, parse: Parser, now: nat, drop: Option<nat>): SyncOutcome
  {
    var cfg := GetImapConfig(env, parseInt);
    if cfg.Err? then SyncOutcome(t, [], Err(ConfigMissing(cfg.error)))
    else if !reachable then SyncOutcome(t, [], Err(ConnectFailed))
    else if folder !in mailboxes then SyncOutcome(EnsureSyncState(t, folder), [Login, Select(folder), Logout], Err(NoSuchMailbox))
    else MirrorSpec(t, env, parseInt, mailboxes[folder], folder, parse, now, drop)
  }

  /** `SyncSpec` once the folder is open: prepare, fetch, loop, then write the cursor. */
  function MirrorSpec(t: Tables, env: Env, parseInt: ParseInt, mb: Mailbox,
                      folder: string, parse: Parser, now: nat, drop: Option<nat>): SyncOutcome
  {
    var t2 := Prepared(t, folder, mb.uidValidity);
    var ctx := ContextFor(t, env, parseInt, folder, mb.uidValidity, parse, now);
    var c := CriteriaFor(ctx.cursor);
    var sent := [Login, Select(folder), Fetch(c), Logout];
    match Run(Acc(t2, ctx.cursor, 0), ctx, Search(mb.messages, c), 0, drop)
    case Failed(a) => SyncOutcome(a.t, sent, Err(StreamFailed))
    case Done(a) =>
      SyncOutcome(WriteSyncState(a.t, folder, SyncState(a.lastUid, Some(mb.uidValidity), Some(now))), sent, Ok(a.count))
  }

  // ---------------------------------------------------------------- the procedure

  /** `findUnique` the folder's sync state, creating it with cursor 0 when there is none. */
  method LoadCursor(store: Store, folder: string) returns (state: SyncState)
    modifies store
    ensures store.Snapshot() == EnsureSyncState(old(store.Snapshot()), folder)
    ensures state == store.syncStates[folder]
  {
    var st := store.FindSyncState(folder);
    if st.None? {
      state := store.CreateSyncState(folder);
    } else {
      state := st.value;
    }
  }

  /** Wipes the folder and resets its cursor when a remembered, truthy token differs from the server's. */
  method ResetIfInvalid(store: Store, folder: string, token: int, state: SyncState) returns (state': SyncState)
    requires folder in store.syncStates && state == store.syncStates[folder]
    modifies store
    ensures store.Snapshot() == Prepared(old(store.Snapshot()), folder, token)
    ensures state' == store.syncStates[folder]
  {
    state' := state;
    if state.uidValidity.Some? && state.uidValidity.value != 0 && state.uidValidity.value != token {
      store.DeleteManyByFolder(folder);
      state' := state.(lastUid := 0, uidValidity := Some(token));
      store.UpdateSyncState(folder, state');
    }
  }

  /** One iteration of the fetch loop: the four guards, then the row and its attachments. */
  method MirrorOne(store: Store, ctx: Ctx, m: RemoteMessage) returns (admitted: bool)
    modifies store
    ensures admitted == !Skipped(old(store.emails), ctx, m)
    ensures store.Snapshot() == if admitted then Admit(old(store.Snapshot()), ctx, m) else old(store.Snapshot())
  {
    admitted := false;
    if m.uid <= ctx.cursor {
      return;
    }
    var existing := store.FindByUidAndFolder(m.uid, ctx.folder);
    if existing || m.source.None? {
      return;
    }
    var parsed := ctx.parse(m.source.value);
    var messageId := EffectiveMessageId(parsed, ctx.folder, m.uid, ctx.now);
    var taken := store.FindByMessageId(messageId);
    if taken {
      return;
    }
    ghost var t1 := store.Snapshot();
    var created := store.CreateEmail(DeriveRow(ctx.folder, m, parsed, ctx.now));
    var email := created.value;
    ghost var base := store.Snapshot();
    var k := 0;
    while k < |parsed.attachments|
      invariant k <= |parsed.attachments|
      invariant store.Snapshot() == base.(attachments := base.attachments + AttachmentRows(email.id, parsed.attachments[..k]))
      modifies store
    {
      store.CreateAttachment(AttachmentFor(email.id, parsed.attachments[k]));
      k := k + 1;
      assert AttachmentRows(email.id, parsed.attachments[..k])
        == AttachmentRows(email.id, parsed.attachments[..k - 1]) + [AttachmentFor(email.id, parsed.attachments[k - 1])];
    }
    assert parsed.attachments[..k] == parsed.attachments;
    admitted := true;
  }

  /** The `for await` loop over the fetched window, with `Math.max` on the cursor and the batch break. */
  method FetchLoop(store: Store, ctx: Ctx, w: seq<RemoteMessage>, drop: Option<nat>)
    returns (lastUid: nat, count: nat, failed: bool)
    modifies store
    ensures var o := Run(Acc(old(store.Snapshot()), ctx.cursor, 0), ctx, w, 0, drop);
      o == if failed then Failed(Acc(store.Snapshot(), lastUid, count)) else Done(Acc(store.Snapshot(), lastUid, count))
  {
    ghost var final := Run(Acc(store.Snapshot(), ctx.cursor, 0), ctx, w, 0, drop);
    lastUid, count, failed := ctx.cursor, 0, false;
    var i := 0;
    var done := false;
    while !done
      invariant i <= |w|
      invariant !done ==> !failed && Run(Acc(store.Snapshot(), lastUid, count), ctx, w, i, drop) == final
      invariant done ==> final == if failed then Failed(Acc(store.Snapshot(), lastUid, count))
                                  else Done(Acc(store.Snapshot(), lastUid, count))
      modifies store
      decreases |w| - i + (if done then 0 else 1)
    {
      if drop == Some(i) {
        failed := true;
        done := true;
      } else if i == |w| {
        done := true;
      } else {
        var admitted := MirrorOne(store, ctx, w[i]);
        if admitted {
          lastUid := Max(lastUid, w[i].uid);
          count := count + 1;
          if BatchReached(count, ctx.batch) {
            done := true;
          }
        }
        i := i + 1;
      }
    }
  }

  method SyncFolder(store: Store, server: Server, env: Env, parseInt: ParseInt, folder: string,
                    parse: Parser, now: nat, drop: Option<nat>) returns (r: Result<nat, ImapError>)
    requires server.Valid() && server.selected == None
    modifies store, server
    ensures server.Valid() && server.mailboxes == old(server.mailboxes)
    ensures var o := SyncSpec(old(store.Snapshot()), env, parseInt, old(server.reachable), old(server.mailboxes),
                              folder, parse, now, drop);
      r == o.result && store.Snapshot() == o.t && server.log == old(server.log) + o.sent
  {
    var cfg := GetImapConfig(env, parseInt);
    if cfg.Err? {
      return Err(ConfigMissing(cfg.error));
    }
    var ok := server.Connect();
    if !ok {
      return Err(ConnectFailed);
    }
    r := OpenAndMirror(store, server, env, parseInt, folder, parse, now, drop);
    ghost var o := SyncSpec(old(store.Snapshot()), env, parseInt, true, old(server.mailboxes), folder, parse, now, drop);
    assert o.sent == [Login] + o.sent[1..];
  }

  /** `syncFolder` once connected: load the cursor, open the folder, mirror it. */
  method OpenAndMirror(store: Store, server: Server, env: Env, parseInt: ParseInt, folder: string,
                       parse: Parser, now: nat, drop: Option<nat>) returns (r: Result<nat, ImapError>)
    requires server.Valid() && server.selected == None && server.reachable
    requires GetImapConfig(env, parseInt).Ok?
    modifies store, server
    ensures server.Valid() && server.mailboxes == old(server.mailboxes)
    ensures var o := SyncSpec(old(store.Snapshot()), env, parseInt, true, old(server.mailboxes),
                              folder, parse, now, drop);
      && r == o.result && store.Snapshot() == o.t
      && |o.sent| >= 1 && o.sent[0] == Login && server.log == old(server.log) + o.sent[1..]
  {
    ghost var t0 := store.Snapshot();
    var state := LoadCursor(store, folder);
    var mb := server.Open(folder);
    if mb.None? {
      server.End();
      return Err(NoSuchMailbox);
    }
    ghost var log1 := server.log;
    MirrorSpecLoaded(t0, env, parseInt, mb.value, folder, parse, now, drop);
    r := Mirror(store, server, env, parseInt, folder, mb.value, state, parse, now, drop);
    ghost var o := MirrorSpec(t0, env, parseInt, mb.value, folder, parse, now, drop);
    assert o.sent[1..] == [Select(folder)] + o.sent[2..];
  }

  /** Creating the cursor first changes nothing in what mirroring the open folder does. */
  lemma MirrorSpecLoaded(t: Tables, env: Env, parseInt: ParseInt, mb: Mailbox, folder: string, parse: Parser,
                         now: nat, drop: Option<nat>)
    ensures var o := MirrorSpec(t, env, parseInt, mb, folder, parse, now, drop);
      && MirrorSpec(EnsureSyncState(t, folder), env, parseInt, mb, folder, parse, now, drop) == o
      && o.sent == [Login, Select(folder)] + o.sent[2..]
  {
    var t1 := EnsureSyncState(t, folder);
    assert EnsureSyncState(t1, folder) == t1;
    assert Prepared(t1, folder, mb.uidValidity) == Prepared(t, folder, mb.uidValidity);
  }

  /** The rest of `syncFolder` once the folder is open and its cursor loaded. */
  method Mirror(store: Store, server: Server, env: Env, parseInt: ParseInt, folder: string, mb: Mailbox,
                state: SyncState, parse: Parser, now: nat, drop: Option<nat>) returns (r: Result<nat, ImapError>)
    requires server.Valid() && server.selected == Some(folder) && folder in server.mailboxes
    requires mb == server.mailboxes[folder]
    requires folder in store.syncStates && state == store.syncStates[folder]
    modifies store, server
    ensures server.Valid() && server.mailboxes == old(server.mailboxes)
    ensures var o := MirrorSpec(old(store.Snapshot()), env, parseInt, mb, folder, parse, now, drop);
      r == o.result && store.Snapshot() == o.t && server.log == old(server.log) + o.sent[2..]
  {
    ghost var t1 := store.Snapshot();
    var token := mb.uidValidity;
    assert EnsureSyncState(t1, folder) == t1;
    var state' := ResetIfInvalid(store, folder, token, state);
    assert store.Snapshot() == Prepared(t1, folder, token);
    var ctx := Ctx(folder, state'.lastUid, parse, now, BatchSize(env, parseInt));
    assert ctx.cursor == ContextFor(t1, env, parseInt, folder, token, parse, now).cursor;
    var criteria := CriteriaFor(ctx.cursor);
    var w := server.FetchMessages(criteria);
    assert w == Search(mb.messages, criteria);
    var lastUid, count, failed := FetchLoop(store, ctx, w, drop);
    if failed {
      server.End();
      return Err(StreamFailed);
    }
    store.UpdateSyncState(folder, SyncState(lastUid, Some(token), Some(now)));
    server.End();
    r := Ok(count);
  }
}

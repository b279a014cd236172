/**
 * The IMAP side of the mirror: the connection settings read from the
 * environment, an abstract server holding mailboxes of messages in
 * ascending UID order (section 2.3.1.1 of RFC 3501), the `n:*` UID range
 * (section 6.4.8 and section 9, `seq-range`, of RFC 3501), and the two
 * remote mutations the admin pages trigger, flagging and moving to Trash.
 */
module Imap {
  import opened Wrappers
  import opened Strings
  import opened Config
  import opened Mail

  // ---------------------------------------------------------------- configuration

  datatype ImapConfig = ImapConfig(host: string, port: Option<int>, secure: bool, user: string, pass: string)

  const ConfigMissingMessage := "IMAP configuration missing. Set IMAP_HOST, IMAP_USER, IMAP_PASS"

  /** `getImapConfig`: host, user and password must all be non-empty; port 993 and TLS by default. */
  function GetImapConfig(env: Env, parseInt: ParseInt): (r: Result<ImapConfig, string>)
    ensures r.Err? <==> !Truthy(env.imapHost) || !Truthy(env.imapUser) || !Truthy(env.imapPass)
    ensures r.Err? ==> r.error == ConfigMissingMessage
    ensures r.Ok? ==> (r.value.host == env.imapHost.value && r.value.user == env.imapUser.value
                        && r.value.pass == env.imapPass.value)
    ensures r.Ok? ==> (r.value.secure <==> env.imapTls != Some("false"))
    ensures r.Ok? && !Truthy(env.imapPort) ==> r.value.port == parseInt("993")
    ensures r.Ok? && Truthy(env.imapPort) ==> r.value.port == parseInt(env.imapPort.value)
  {
    if !Truthy(env.imapHost) || !Truthy(env.imapUser) || !Truthy(env.imapPass) then Err(ConfigMissingMessage)
    else Ok(ImapConfig(
      env.imapHost.value,
      IntSetting(env.imapPort, "993", parseInt),
      env.imapTls != Some("false"),
      env.imapUser.value,
      env.imapPass.value))
  }

  // ---------------------------------------------------------------- mailboxes

  datatype Mailbox = Mailbox(uidValidity: int, messages: seq<RemoteMessage>)

  /** UIDs are non-zero and strictly ascending within a mailbox. */
  predicate Ascending(msgs: seq<RemoteMessage>) {
    && (forall i :: 0 <= i < |msgs| ==> msgs[i].uid > 0)
    && (forall i, j :: 0 <= i < j < |msgs| ==> msgs[i].uid < msgs[j].uid)
  }

  predicate ValidMailboxes(mailboxes: map<string, Mailbox>) {
    forall f :: f in mailboxes ==> Ascending(mailboxes[f].messages)
  }

  /** What `fetch` is asked for: `{ all: true }` or `{ uid: "n:*" }`. */
  datatype Criteria = All | UidFrom(n: nat)

  /** The messages whose UID is at least `lo`, in mailbox order. */
  function FromUid(msgs: seq<RemoteMessage>, lo: nat): (r: seq<RemoteMessage>)
    ensures forall m :: m in r <==> m in msgs && m.uid >= lo
  {
    if msgs == [] then []
    else (if msgs[0].uid >= lo then [msgs[0]] else []) + FromUid(msgs[1..], lo)
  }

  /** Filtering keeps the mailbox ordering. */
  lemma {:induction false} FromUidAscending(msgs: seq<RemoteMessage>, lo: nat)
    requires Ascending(msgs)
    ensures Ascending(FromUid(msgs, lo))
  {
    if msgs != [] {
      FromUidAscending(msgs[1..], lo);
      var rest := FromUid(msgs[1..], lo);
      if msgs[0].uid >= lo {
        forall m | m in rest ensures msgs[0].uid < m.uid {
          var k :| 0 <= k < |msgs[1..]| && msgs[1..][k] == m;
          assert msgs[k + 1] == m;
        }
        assert msgs[0].uid > 0;
        ConsAscending(msgs[0], rest);
        assert FromUid(msgs, lo) == [msgs[0]] + rest;
      } else {
        assert FromUid(msgs, lo) == rest;
      }
    }
  }

  lemma ConsAscending(m: RemoteMessage, msgs: seq<RemoteMessage>)
    requires Ascending(msgs) && m.uid > 0
    requires forall x :: x in msgs ==> m.uid < x.uid
    ensures Ascending([m] + msgs)
  {
    var r := [m] + msgs;
    forall i, j | 0 <= i < j < |r| ensures r[i].uid < r[j].uid {
      assert r[j] == msgs[j - 1];
      if i > 0 {
        assert r[i] == msgs[i - 1];
      } else {
        assert msgs[j - 1] in msgs;
      }
    }
  }

  /**
   * The messages `fetch` returns. `n:*` covers the UIDs between `n` and the
   * largest UID in the mailbox, in either order, so it always contains the
   * last message, even when `n` is above every UID.
   */
  function Search(msgs: seq<RemoteMessage>, c: Criteria): seq<RemoteMessage> {
    match c
    case All => msgs
    case UidFrom(n) =>
      if msgs == [] then []
      else
        var top := msgs[|msgs| - 1].uid;
        FromUid(msgs, if n <= top then n else top)
  }

  /** The criteria `syncFolder` builds from its cursor. */
  function CriteriaFor(lastUid: nat): Criteria {
    if lastUid > 0 then UidFrom(lastUid + 1) else All
  }

  /** Every message above the cursor is in the window, and the window holds nothing else but the top message. */
  lemma WindowCoversCursor(msgs: seq<RemoteMessage>, lastUid: nat)
    requires Ascending(msgs)
    ensures forall m :: m in msgs && m.uid > lastUid ==> m in Search(msgs, CriteriaFor(lastUid))
    ensures forall m :: m in Search(msgs, CriteriaFor(lastUid)) ==> m in msgs
    ensures forall m :: m in Search(msgs, CriteriaFor(lastUid)) ==> m.uid > lastUid || m == msgs[|msgs| - 1]
  {
    if lastUid > 0 && msgs != [] {
      var top := msgs[|msgs| - 1];
      forall m | m in msgs ensures m.uid <= top.uid {
        var k :| 0 <= k < |msgs| && msgs[k] == m;
        assert k == |msgs| - 1 || msgs[k].uid < top.uid;
      }
    }
  }

  /** Past the top UID, `n:*` still yields the last message (and only it). */
  lemma WindowBeyondTop(msgs: seq<RemoteMessage>, lastUid: nat)
    requires Ascending(msgs) && msgs != []
    requires lastUid >= msgs[|msgs| - 1].uid
    ensures Search(msgs, CriteriaFor(lastUid)) == [msgs[|msgs| - 1]]
  {
    var top := msgs[|msgs| - 1].uid;
    FromUidLast(msgs, top);
  }

  lemma {:induction false} FromUidLast(msgs: seq<RemoteMessage>, top: nat)
    requires Ascending(msgs) && msgs != [] && top == msgs[|msgs| - 1].uid
    ensures FromUid(msgs, top) == [msgs[|msgs| - 1]]
  {
    if |msgs| > 1 {
      assert msgs[0].uid < top;
      assert Ascending(msgs[1..]);
      assert msgs[1..][|msgs[1..]| - 1] == msgs[|msgs| - 1];
      FromUidLast(msgs[1..], top);
    }
  }

  // ---------------------------------------------------------------- remote mutations

  /** Adds (`on`) or removes a flag on the message with `uid`; other messages are left as they are. */
  function SetFlag(msgs: seq<RemoteMessage>, uid: nat, flag: Flag, on: bool): (r: seq<RemoteMessage>)
    ensures |r| == |msgs|
    ensures forall i :: 0 <= i < |msgs| ==> r[i].uid == msgs[i].uid && r[i].source == msgs[i].source
    ensures forall i :: 0 <= i < |msgs| && msgs[i].uid != uid ==> r[i] == msgs[i]
    ensures forall i :: 0 <= i < |msgs| && msgs[i].uid == uid ==>
      r[i].flags == (if on then msgs[i].flags + {flag} else msgs[i].flags - {flag})
  {
    seq(|msgs|, i requires 0 <= i < |msgs| =>
      if msgs[i].uid == uid
      then msgs[i].(flags := if on then msgs[i].flags + {flag} else msgs[i].flags - {flag})
      else msgs[i])
  }

  /** After `SetFlag`, the message with `uid` has the flag exactly when `on`; UIDs stay ascending. */
  lemma SetFlagEffect(msgs: seq<RemoteMessage>, uid: nat, flag: Flag, on: bool)
    requires Ascending(msgs)
    ensures Ascending(SetFlag(msgs, uid, flag, on))
    ensures forall m :: m in SetFlag(msgs, uid, flag, on) && m.uid == uid ==> (flag in m.flags <==> on)
  {
    var r := SetFlag(msgs, uid, flag, on);
    forall m | m in r && m.uid == uid ensures flag in m.flags <==> on {
      var i :| 0 <= i < |r| && r[i] == m;
      assert msgs[i].uid == uid;
    }
  }

  /** The UID the next message appended to a mailbox receives. */
  function NextUid(msgs: seq<RemoteMessage>): (u: nat)
    ensures u > 0
    ensures forall i :: 0 <= i < |msgs| && Ascending(msgs) ==> msgs[i].uid < u
  {
    if msgs == [] then 1 else msgs[|msgs| - 1].uid + 1
  }

  /** The messages without `uid`. */
  function WithoutUid(msgs: seq<RemoteMessage>, uid: nat): (r: seq<RemoteMessage>)
    ensures forall m :: m in r <==> m in msgs && m.uid != uid
  {
    if msgs == [] then []
    else (if msgs[0].uid != uid then [msgs[0]] else []) + WithoutUid(msgs[1..], uid)
  }

  /** The message with `uid`, if any. */
  function FindUid(msgs: seq<RemoteMessage>, uid: nat): (r: Option<RemoteMessage>)
    ensures r.Some? ==> r.value in msgs && r.value.uid == uid
    ensures r.None? ==> forall m :: m in msgs ==> m.uid != uid
  {
    if msgs == [] then None
    else if msgs[0].uid == uid then Some(msgs[0])
    else FindUid(msgs[1..], uid)
  }

  /**
   * `messageMove({ uid }, dest)`: the message leaves `folder` and is appended
   * to `dest` under a moved UID (section 3 of RFC 6851). Without such a
   * message or without the destination mailbox nothing changes.
   */
  function Move(mailboxes: map<string, Mailbox>, folder: string, uid: nat, dest: string): map<string, Mailbox>
    requires folder in mailboxes
  {
    var m := FindUid(mailboxes[folder].messages, uid);
    if m.None? || dest !in mailboxes then mailboxes
    else
      var moved := m.value.(uid := NextUid(mailboxes[dest].messages));
      var src := mailboxes[folder].(messages := WithoutUid(mailboxes[folder].messages, uid));
      var after := mailboxes[folder := src];
      after[dest := after[dest].(messages := after[dest].messages + [moved])]
  }

  /** A moved message is gone from its folder, present in the destination with its flags and source, and nothing else is touched. */
  lemma MoveEffect(mailboxes: map<string, Mailbox>, folder: string, uid: nat, dest: string)
    requires folder in mailboxes && dest in mailboxes && folder != dest
    requires FindUid(mailboxes[folder].messages, uid).Some?
    ensures var r := Move(mailboxes, folder, uid, dest);
      var m := FindUid(mailboxes[folder].messages, uid).value;
      && r.Keys == mailboxes.Keys
      && (forall x :: x in r[folder].messages ==> x.uid != uid)
      && (exists x :: x in r[dest].messages && x.flags == m.flags && x.source == m.source)
      && (forall f :: f in mailboxes && f != folder && f != dest ==> r[f] == mailboxes[f])
      && r[folder].uidValidity == mailboxes[folder].uidValidity
      && r[dest].uidValidity == mailboxes[dest].uidValidity
  {
    var r := Move(mailboxes, folder, uid, dest);
    var m := FindUid(mailboxes[folder].messages, uid).value;
    var moved := m.(uid := NextUid(mailboxes[dest].messages));
    assert moved in r[dest].messages;
  }

  /** Moving keeps every mailbox in ascending UID order. */
  lemma MoveKeepsAscending(mailboxes: map<string, Mailbox>, folder: string, uid: nat, dest: string)
    requires folder in mailboxes && ValidMailboxes(mailboxes)
    ensures ValidMailboxes(Move(mailboxes, folder, uid, dest))
  {
    var m := FindUid(mailboxes[folder].messages, uid);
    if m.Some? && dest in mailboxes {
      var msgs := mailboxes[folder].messages;
      WithoutUidAscending(msgs, uid);
      var d := mailboxes[dest].messages;
      var base := if folder == dest then WithoutUid(d, uid) else d;
      var u := NextUid(d);
      forall x | x in base ensures x.uid < u {
        var k :| 0 <= k < |d| && d[k] == x;
      }
      AppendAscending(base, m.value.(uid := u));
    }
  }

  lemma {:induction false} WithoutUidAscending(msgs: seq<RemoteMessage>, uid: nat)
    requires Ascending(msgs)
    ensures Ascending(WithoutUid(msgs, uid))
  {
    if msgs != [] {
      WithoutUidAscending(msgs[1..], uid);
      var rest := WithoutUid(msgs[1..], uid);
      if msgs[0].uid != uid {
        forall m | m in rest ensures msgs[0].uid < m.uid {
          var k :| 0 <= k < |msgs[1..]| && msgs[1..][k] == m;
          assert msgs[k + 1] == m;
        }
        assert msgs[0].uid > 0;
        ConsAscending(msgs[0], rest);
        assert WithoutUid(msgs, uid) == [msgs[0]] + rest;
      } else {
        assert WithoutUid(msgs, uid) == rest;
      }
    }
  }

  lemma AppendAscending(msgs: seq<RemoteMessage>, m: RemoteMessage)
    requires Ascending(msgs) && m.uid > 0
    requires forall x :: x in msgs ==> x.uid < m.uid
    ensures Ascending(msgs + [m])
  {
    var r := msgs + [m];
    forall i, j | 0 <= i < j < |r| ensures r[i].uid < r[j].uid {
      if j == |msgs| {
        assert r[i] in msgs;
      }
    }
  }

  // ---------------------------------------------------------------- the server object

  /** What the client sends, in order. */
  datatype Command =
    | Login
    | Select(folder: string)
    | Fetch(criteria: Criteria)
    | StoreFlag(uid: nat, flag: Flag, on: bool)
    | MoveTo(uid: nat, dest: string)
    | Logout

  class Server {
    var mailboxes: map<string, Mailbox>
    var selected: Option<string>
    var reachable: bool
    /** The commands this server has received. */
    var log: seq<Command>

    ghost predicate Valid()
      reads this
    {
      ValidMailboxes(mailboxes) && (selected.Some? ==> selected.value in mailboxes)
    }

    constructor(boxes: map<string, Mailbox>, up: bool)
      requires ValidMailboxes(boxes)
      ensures Valid() && mailboxes == boxes && reachable == up && selected == None && log == []
    {
      mailboxes := boxes;
      reachable := up;
      selected := None;
      log := [];
    }

    method Connect() returns (ok: bool)
      modifies this
      ensures ok == reachable
      ensures log == old(log) + (if ok then [Login] else [])
      ensures mailboxes == old(mailboxes) && selected == old(selected) && reachable == old(reachable)
    {
      ok := reachable;
      if ok {
        log := log + [Login];
      }
    }

    /** `mailboxOpen`: selects the mailbox, or fails when it does not exist. */
    method Open(folder: string) returns (mb: Option<Mailbox>)
      requires Valid()
      modifies this
      ensures Valid()
      ensures mb == if folder in mailboxes then Some(mailboxes[folder]) else None
      ensures selected == if folder in mailboxes then Some(folder) else old(selected)
      ensures log == old(log) + [Select(folder)]
      ensures mailboxes == old(mailboxes) && reachable == old(reachable)
    {
      log := log + [Select(folder)];
      if folder in mailboxes {
        selected := Some(folder);
        mb := Some(mailboxes[folder]);
      } else {
        mb := None;
      }
    }

    method FetchMessages(c: Criteria) returns (msgs: seq<RemoteMessage>)
      requires Valid() && selected.Some?
      modifies this
      ensures mailboxes == old(mailboxes) && selected == old(selected) && reachable == old(reachable)
      ensures msgs == Search(old(mailboxes)[old(selected).value].messages, c)
      ensures log == old(log) + [Fetch(c)]
    {
      log := log + [Fetch(c)];
      msgs := Search(mailboxes[selected.value].messages, c);
    }

    method StoreFlags(uid: nat, flag: Flag, on: bool)
      requires Valid() && selected.Some?
      modifies this
      ensures Valid()
      ensures selected == old(selected) && reachable == old(reachable)
      ensures var f := old(selected).value;
        mailboxes == old(mailboxes)[f := old(mailboxes)[f].(messages := SetFlag(old(mailboxes)[f].messages, uid, flag, on))]
      ensures log == old(log) + [StoreFlag(uid, flag, on)]
    {
      var f := selected.value;
      SetFlagEffect(mailboxes[f].messages, uid, flag, on);
      mailboxes := mailboxes[f := mailboxes[f].(messages := SetFlag(mailboxes[f].messages, uid, flag, on))];
      log := log + [StoreFlag(uid, flag, on)];
    }

    method MoveMessage(uid: nat, dest: string)
      requires Valid() && selected.Some?
      modifies this
      ensures Valid()
      ensures selected == old(selected) && reachable == old(reachable)
      ensures mailboxes == Move(old(mailboxes), old(selected).value, uid, dest)
      ensures log == old(log) + [MoveTo(uid, dest)]
    {
      MoveKeepsAscending(mailboxes, selected.value, uid, dest);
      mailboxes := Move(mailboxes, selected.value, uid, dest);
      log := log + [MoveTo(uid, dest)];
    }

    method End()
      modifies this
      ensures log == old(log) + [Logout]
      ensures selected == None
      ensures mailboxes == old(mailboxes) && reachable == old(reachable)
    {
      log := log + [Logout];
      selected := None;
    }
  }

  // ---------------------------------------------------------------- markEmailRead / deleteEmailOnServer

  datatype ImapError = ConfigMissing(message: string) | ConnectFailed | NoSuchMailbox | StreamFailed

  /** The result, the commands sent and the new mailboxes of a one-shot remote operation. */
  datatype RemoteOutcome = RemoteOutcome(result: Result<(), ImapError>, sent: seq<Command>, mailboxes: map<string, Mailbox>)

  /** Connect, open `folder`, run `cmd`, log out: the shape of both remote mutations. */
  function RemoteSpec(env: Env, parseInt: ParseInt, reachable: bool, mailboxes: map<string, Mailbox>,
                      folder: string, cmd: Command): RemoteOutcome
    requires cmd.StoreFlag? || cmd.MoveTo?
  {
    var cfg := GetImapConfig(env, parseInt);
    if cfg.Err? then RemoteOutcome(Err(ConfigMissing(cfg.error)), [], mailboxes)
    else if !reachable then RemoteOutcome(Err(ConnectFailed), [], mailboxes)
    else if folder !in mailboxes then RemoteOutcome(Err(NoSuchMailbox), [Login, Select(folder), Logout], mailboxes)
    else
      var after := match cmd
        case StoreFlag(uid, flag, on) =>
          mailboxes[folder := mailboxes[folder].(messages := SetFlag(mailboxes[folder].messages, uid, flag, on))]
        case MoveTo(uid, dest) => Move(mailboxes, folder, uid, dest);
      RemoteOutcome(Ok(()), [Login, Select(folder), cmd, Logout], after)
  }

  /** `markEmailRead`: `\Seen` is added when `read` holds and removed otherwise. */
  function MarkReadSpec(env: Env, parseInt: ParseInt, reachable: bool, mailboxes: map<string, Mailbox>,
                        uid: nat, folder: string, read: bool): RemoteOutcome
  {
    RemoteSpec(env, parseInt, reachable, mailboxes, folder, StoreFlag(uid, Seen, read))
  }

  /** `deleteEmailOnServer`: the message is moved to "Trash". */
  function DeleteOnServerSpec(env: Env, parseInt: ParseInt, reachable: bool, mailboxes: map<string, Mailbox>,
                              uid: nat, folder: string): RemoteOutcome
  {
    RemoteSpec(env, parseInt, reachable, mailboxes, folder, MoveTo(uid, "Trash"))
  }

  /** Once connected, every outcome ends with a logout; without configuration nothing is sent and nothing changes. */
  lemma RemoteLogsOut(env: Env, parseInt: ParseInt, reachable: bool, mailboxes: map<string, Mailbox>,
                      folder: string, cmd: Command)
    requires cmd.StoreFlag? || cmd.MoveTo?
    ensures var o := RemoteSpec(env, parseInt, reachable, mailboxes, folder, cmd);
      && (o.sent != [] <==> GetImapConfig(env, parseInt).Ok? && reachable)
      && (o.sent != [] ==> o.sent[0] == Login && o.sent[|o.sent| - 1] == Logout)
      && (o.result.Err? ==> o.mailboxes == mailboxes)
      && (o.result.Ok? <==> o.sent == [Login, Select(folder), cmd, Logout])
  {
  }

  /** After a successful `markEmailRead`, the message's `\Seen` flag equals `read`. */
  lemma MarkReadEffect(env: Env, parseInt: ParseInt, reachable: bool, mailboxes: map<string, Mailbox>,
                       uid: nat, folder: string, read: bool)
    requires ValidMailboxes(mailboxes)
    ensures var o := MarkReadSpec(env, parseInt, reachable, mailboxes, uid, folder, read);
      && (o.result.Ok? <==> GetImapConfig(env, parseInt).Ok? && reachable && folder in mailboxes)
      && ValidMailboxes(o.mailboxes)
      && (o.result.Ok? ==> forall m :: m in o.mailboxes[folder].messages && m.uid == uid ==> (Seen in m.flags <==> read))
      && (forall f :: f in mailboxes && f != folder ==> f in o.mailboxes && o.mailboxes[f] == mailboxes[f])
  {
    var o := MarkReadSpec(env, parseInt, reachable, mailboxes, uid, folder, read);
    if o.result.Ok? {
      SetFlagEffect(mailboxes[folder].messages, uid, Seen, read);
    }
  }

  /** After a successful `deleteEmailOnServer` from a folder other than Trash, the UID is gone from the folder. */
  lemma DeleteOnServerEffect(env: Env, parseInt: ParseInt, reachable: bool, mailboxes: map<string, Mailbox>,
                             uid: nat, folder: string)
    requires ValidMailboxes(mailboxes)
    requires folder != "Trash" && "Trash" in mailboxes
    ensures var o := DeleteOnServerSpec(env, parseInt, reachable, mailboxes, uid, folder);
      && ValidMailboxes(o.mailboxes)
      && (o.result.Ok? ==> forall m :: m in o.mailboxes[folder].messages ==> m.uid != uid)
  {
    var o := DeleteOnServerSpec(env, parseInt, reachable, mailboxes, uid, folder);
    if o.result.Ok? {
      MoveKeepsAscending(mailboxes, folder, uid, "Trash");
      if FindUid(mailboxes[folder].messages, uid).Some? {
        MoveEffect(mailboxes, folder, uid, "Trash");
      }
    }
  }

  /** `markEmailRead` and `deleteEmailOnServer`, as the client session runs them. */
  method RunRemote(server: Server, env: Env, parseInt: ParseInt, folder: string, cmd: Command)
    returns (r: Result<(), ImapError>)
    requires server.Valid() && server.selected == None
    requires cmd.StoreFlag? || cmd.MoveTo?
    modifies server
    ensures server.Valid()
    ensures var o := RemoteSpec(env, parseInt, old(server.reachable), old(server.mailboxes), folder, cmd);
      r == o.result && server.log == old(server.log) + o.sent && server.mailboxes == o.mailboxes
  {
    var cfg := GetImapConfig(env, parseInt);
    if cfg.Err? {
      return Err(ConfigMissing(cfg.error));
    }
    var ok := server.Connect();
    if !ok {
      return Err(ConnectFailed);
    }
    var mb := server.Open(folder);
    if mb.None? {
      server.End();
      return Err(NoSuchMailbox);
    }
    match cmd {
      case StoreFlag(uid, flag, on) => server.StoreFlags(uid, flag, on);
      case MoveTo(uid, dest) => server.MoveMessage(uid, dest);
    }
    server.End();
    r := Ok(());
  }

  method MarkEmailRead(server: Server, env: Env, parseInt: ParseInt, uid: nat, folder: string, read: bool)
    returns (r: Result<(), ImapError>)
    requires server.Valid() && server.selected == None
    modifies server
    ensures server.Valid()
    ensures var o := MarkReadSpec(env, parseInt, old(server.reachable), old(server.mailboxes), uid, folder, read);
      r == o.result && server.log == old(server.log) + o.sent && server.mailboxes == o.mailboxes
  {
    r := RunRemote(server, env, parseInt, folder, StoreFlag(uid, Seen, read));
  }

  method DeleteEmailOnServer(server: Server, env: Env, parseInt: ParseInt, uid: nat, folder: string)
    returns (r: Result<(), ImapError>)
    requires server.Valid() && server.selected == None
    modifies server
    ensures server.Valid()
    ensures var o := DeleteOnServerSpec(env, parseInt, old(server.reachable), old(server.mailboxes), uid, folder);
      r == o.result && server.log == old(server.log) + o.sent && server.mailboxes == o.mailboxes
  {
    r := RunRemote(server, env, parseInt, folder, MoveTo(uid, "Trash"));
  }
}

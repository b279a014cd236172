# ITL Solutions site: a Dafny model of its mail and API core

This project models, in Dafny, the logic at the core of the ITL Solutions
web site (a Next.js application with an admin panel):

- the **IMAP folder mirror** (`syncFolder` in `src/lib/imap.ts`). It loads
  or creates the folder's cursor of `lastUid` and `uidValidity`. A changed
  UIDVALIDITY wipes the folder. It fetches `lastUid+1:*`, skips what is not
  new, and derives each row's fields and `\Seen`/`\Flagged` state. It counts
  up to the batch bound and writes the cursor back once, after the loop. The
  remote flag and trash mutations are modelled too;
- the **outbound mail path** (`src/lib/email.ts`): the transporter guard,
  the outgoing message, and the "Sent" row stored after delivery. It also
  covers the tag-stripping text fallback, the 200-character snippet and the
  notification helpers;
- **reply and forward composition** (`ComposeEmail.tsx` and the compose
  page). This covers subject prefixing, `> ` quoting, the forward block,
  comma-list recipients, In-Reply-To/References chaining (section 3.6.4 of
  RFC 5322) and the form's submit state;
- the **mailbox query side**: the list and search filters, skip/take
  pagination with `ceil` page counts, folder counts, the client's page range
  and links, and the list, send and search API routes;
- the **admin and public API routes**: the FAQ, services, blog, team,
  portfolio, contact, chat-inquiry and upload routes. Each one's schema
  becomes a parser with its defaults, and each route's status codes and
  store effect are modelled;
- **small UI logic**: the language switcher, the admin sidebar highlight,
  the data table's dotted-key cells and delete state, the FAQ table's modal,
  and the chat widget;
- the **JSON-LD documents** the site embeds.

Each module covers one part of the program:

- `Wrappers`, `Strings`, `Json`, `Schema` and `Ordering` hold the
  JavaScript, JSON, Zod and ORM semantics the rest relies on;
- `Mail`, `Subjects`, `MailStore`, `Imap`, `Sync` and `SyncProperties` hold
  the mirror;
- `Config` and `Outbound` hold sending;
- `Compose` holds composition;
- `MailboxQuery`, `EmailClient` and `EmailApi` hold the mailbox;
- `Faq`, `FaqTable`, `ContentApi`, `PublicForms` and `Upload` hold the
  routes;
- `LocaleSwitch`, `AdminSidebar`, `DataTable` and `ChatWidget` hold the UI;
- `JsonLd` holds the structured data.

State the source changes in place is modelled by classes with `modifies`
clauses: the mail store, the IMAP server, the compose form, the FAQ table,
the data table, the chat widget, the mailbox client and the submission
tables. Each state-changing method's ensures give the new state, often
through a specification function, and the properties are lemmas about those
functions.

The model's parameters stand for:

- the outside world: the IMAP server's mailbox, the store's availability
  (`available`) and the transport's outcome;
- the clock (`now`) and the random part of an upload's name;
- values the code takes from libraries: email validity (`isEmail`),
  `parseInt` and the MIME parse of a message.

Integers are unbounded, and JavaScript numbers that matter (batch size,
page numbers) are read through the `parseInt` parameter. NaN is `None`.

The fetch `lastUid+1:*` follows section 6.4.8 of RFC 3501. There, `*` is
the largest UID in the mailbox, and a range's ends may come in either
order. So when nothing is new, the server still returns the last message,
and the code's `uid <= lastUid` guard skips it.

## Model

| member | source | states |
|---|---|---|
| Outbound.GetTransporter | src/lib/email.ts:23-37 | a transport exists exactly when SMTP host, user and password are all non-empty; it carries them, is secure unless SMTP_SECURE is "false", and its port is parseInt of SMTP_PORT, or of "465" when that is empty |
| Outbound.SenderAddress | src/lib/email.ts:50 | the From address is SMTP_FROM when non-empty, SMTP_USER otherwise |
| Outbound.StripTags | src/lib/email.ts:191 | the stripped text is no longer than the input and every character of it comes from the input |
| Outbound.StripTagsLeavesNoTag | src/lib/email.ts:191 | after the global `<[^>]*>` replacement no `<` is followed anywhere later by a `>` |
| Outbound.StripTagsKeepsTagFree | src/lib/email.ts:191 | text with nothing the pattern matches passes unchanged, stray `<` and `>` included |
| Outbound.StripTagsIdempotent | src/lib/email.ts:191 | stripping a second time removes nothing more |
| Outbound.StripTagsMarkup | src/lib/email.ts:191 | `<b>Hi</b>` becomes `Hi` |
| Outbound.StripTagsUnclosed | src/lib/email.ts:191 | a `<` that no `>` closes is kept (`a<b` stays `a<b`) |
| Outbound.PlainText | src/lib/email.ts:191 | the plain-text part is `text` when non-empty, otherwise the html with its tags stripped, which then holds no tag |
| Outbound.SendEmail | src/lib/email.ts:176-218 | the store afterwards, the messages handed to the transport and the result are those of the send specification: guard on configuration, deliver, then record the Sent row |
| Outbound.SendNeedsConfiguration | src/lib/email.ts:177-180 | the send throws "SMTP not configured" exactly when host, user or password is missing, and then nothing is sent or stored |
| Outbound.SendStoresOnlyAfterDelivery | src/lib/email.ts:184-215 | any failure leaves the store unchanged; success happens exactly when configured, the transport accepts and the message id is new, and appends exactly one row; a delivery failure has handed over exactly the one message |
| Outbound.SentRowFields | src/lib/email.ts:197-215 | the stored row has UID 0, folder "Sent", is read, from "ITL Solutions", the next id, the sent plain text as body (the stripped, tag-free html when `text` is empty), a snippet that is the body's first 200 characters, the transport's message id when it gave one and a non-empty `sent-` id otherwise, `[]` for absent cc and references, null for an absent inReplyTo, and the request's `to` and html |
| Outbound.OutgoingFields | src/lib/email.ts:184-194 | recipient lists are joined with ", " (cc and bcc only when given), references with one space, and the html and the same plain text as stored are sent |
| Outbound.ContactSubject | src/lib/email.ts:52 | "New Contact: " and the subject, or "Contact Form Submission" when the subject is empty |
| Outbound.Notify | src/lib/email.ts:42-46 | a notification helper resolves to `null` exactly when SMTP is unconfigured or the transport rejects, and otherwise to the transport's answer; it never throws |
| Outbound.NotificationRouting | src/lib/email.ts:39-174 | the contact notice goes to EMAIL_TO (default info@itlsolutions.net) with the default subject when none is given, the confirmation to the visitor, the inquiry notice is titled "Chat Inquiry: " and the name, and a notice the transport would accept fails only for want of configuration |
| Imap.GetImapConfig | src/lib/imap.ts:5-20 | configuration fails with the missing-configuration message exactly when IMAP host, user or password is empty; otherwise it carries them, TLS is on unless IMAP_TLS is "false", and the port is parseInt of IMAP_PORT when it is set and of "993" when it is empty |
| Imap.FromUid | src/lib/imap.ts:68-70 | the messages kept are exactly those of the mailbox whose UID is at least the bound |
| Imap.FromUidAscending | src/lib/imap.ts:68-70 | restricting a mailbox to UIDs from a bound keeps it in strictly ascending UID order |
| Imap.WindowCoversCursor | src/lib/imap.ts:68-75 | the fetch window `lastUid+1:*` holds every message above the cursor, nothing outside the mailbox, and nothing at or below the cursor except the top message |
| Imap.WindowBeyondTop | src/lib/imap.ts:68-75 | when the cursor is at or past the top UID, the window is exactly the top message, which the cursor guard then skips |
| Imap.FromUidLast | src/lib/imap.ts:68-70 | from the top UID of an ascending mailbox only the top message remains |
| Imap.SetFlag | src/lib/imap.ts:164-169 | flag storage keeps length, UIDs and sources, leaves every message with another UID unchanged, and sets or clears the flag on the message with that UID |
| Imap.SetFlagEffect | src/lib/imap.ts:164-169 | after a flag store the mailbox is still ascending and the addressed message has the flag exactly when it was added |
| Imap.NextUid | src/lib/imap.ts:182 | the UID a moved message receives in its destination is positive and above every UID already there |
| Imap.WithoutUid | src/lib/imap.ts:182 | the messages left in the source folder are exactly those with a different UID |
| Imap.FindUid | src/lib/imap.ts:182 | a message found by UID is in the mailbox with that UID; none found means no message has it |
| Imap.MoveEffect | src/lib/imap.ts:182 | a move leaves the folder without the UID, puts a message with the same flags and source into the destination, keeps every validity token, and touches no other mailbox |
| Imap.MoveKeepsAscending | src/lib/imap.ts:182 | every mailbox stays in strictly ascending UID order after a move |
| Imap.WithoutUidAscending | src/lib/imap.ts:182 | removing one UID keeps a mailbox ascending |
| Imap.AppendAscending | src/lib/imap.ts:182 | appending a message whose UID is above all others keeps a mailbox ascending |
| Imap.Server.constructor | src/lib/imap.ts:22-26 | a new client session over valid mailboxes has nothing selected and an empty command log |
| Imap.Server.Connect | src/lib/imap.ts:22-26 | connecting succeeds exactly when the server is reachable and logs a login only then; mailboxes are untouched |
| Imap.Server.Open | src/lib/imap.ts:57-58 | opening returns the mailbox and selects it when it exists, returns none otherwise, and logs the select either way |
| Imap.Server.FetchMessages | src/lib/imap.ts:75 | fetching returns the search of the selected mailbox under the criteria and changes nothing but the log |
| Imap.Server.StoreFlags | src/lib/imap.ts:164-169 | the selected mailbox's messages become their flag-stored version; nothing else changes but the log |
| Imap.Server.MoveMessage | src/lib/imap.ts:182 | the mailboxes become the result of the move and stay valid |
| Imap.Server.End | src/lib/imap.ts:151 | logout is logged and deselects, leaving the mailboxes as they are |
| Imap.RemoteLogsOut | src/lib/imap.ts:157-186 | commands are sent exactly when configuration and connection succeed; any sent sequence starts with login and ends with logout; a failure changes no mailbox; success means exactly login, select, the command, logout |
| Imap.MarkReadEffect | src/lib/imap.ts:157-173 | marking succeeds exactly when configured, reachable and the folder exists; mailboxes stay valid; afterwards the message's `\Seen` flag equals `read`; other folders are untouched |
| Imap.DeleteOnServerEffect | src/lib/imap.ts:175-186 | deleting keeps the mailboxes valid and, on success, leaves no message with that UID in the folder |
| Imap.RunRemote | src/lib/imap.ts:157-186 | the session's result, command log and mailboxes are those of the connect, open, command, logout specification |
| Imap.MarkEmailRead | src/lib/imap.ts:157-173 | result, log and mailboxes equal the `\Seen` store specification |
| Imap.DeleteEmailOnServer | src/lib/imap.ts:175-186 | result, log and mailboxes equal the move-to-Trash specification |
| Mail.ObjectAddresses | src/lib/imap.ts:39 | one header object gives one address per mailbox, in order, "" for a mailbox without one, and none when its list is missing |
| Mail.FlatAddressesAppend | src/lib/imap.ts:39 | flattening distributes over concatenation of header lists, so every address is kept in order |
| Mail.ExtractAddressesShapes | src/lib/imap.ts:36-40 | a single header object and a one-element list give the same addresses; an absent header gives none |
| Mail.FlatAddressesFrom | src/lib/imap.ts:39 | every flattened address comes from one of the header objects |
| Mail.NormalizeReferences | src/lib/imap.ts:116 | a list of references is kept, a single non-empty one becomes a list of one, and none or an empty one becomes the empty list |
| Mail.EffectiveMessageId | src/lib/imap.ts:93 | the parsed Message-ID when non-empty, otherwise `folder-uid-now` |
| Mail.DeriveRowFields | src/lib/imap.ts:93-118 | a mirrored row has the message's UID and folder, is not deleted, is read iff `\Seen` and starred iff `\Flagged`, has attachments iff the parse found any, has a non-empty subject ("(No Subject)" by default), a snippet of at most 200 characters that starts the text body (empty without one), the flattened to/cc lists and a non-empty Message-ID |
| Subjects.PrefixLength | src/lib/imap.ts:30 | the prefix match is empty exactly when the subject starts with none of `Re:`, `Fwd:`, `Fw:` in any case, and otherwise ends at a colon inside the subject |
| Subjects.StripIsSuffix | src/lib/imap.ts:30 | stripping the reply prefix leaves a suffix of the subject, and leaves a subject without one unchanged |
| Subjects.StripOnce | src/lib/imap.ts:30 | below a `Re:`, `Fwd:` or `Fw:` only the white space after the colon goes; further prefixes stay |
| Subjects.ComputeThreadId | src/lib/imap.ts:28-34 | the thread id is never empty: it is the stripped, lower-cased, trimmed subject when that is non-empty, and "no-subject" exactly when that is empty |
| Subjects.ThreadIdIgnoresReplyPrefix | src/lib/imap.ts:28-34 | a composed reply or forward has the thread id of its original subject |
| Subjects.StripOfReply | src/app/admin/email/compose/ComposeEmail.tsx:31-36 | stripping the composer's prefix gives back an unprefixed original subject |
| Subjects.StripHasNoLeadingSpace | src/lib/imap.ts:30 | a subject without leading white space keeps none after the strip |
| Subjects.PrefixesDoNotStack | src/app/admin/email/compose/ComposeEmail.tsx:31-36 | replying to or forwarding a reply or forward yields the same subject as replying to or forwarding the original: prefixes never stack |
| Subjects.ReplyToPrefixed | src/app/admin/email/compose/ComposeEmail.tsx:31-36 | a prefixed subject gets "Re: " on reply and "Fwd: " on forward in place of its first prefix, so "Re: Re: X" keeps one inner "Re: " |
| MailStore.InsertEmail | src/lib/imap.ts:120 | an insert fails exactly when the Message-ID is already stored; otherwise the row gets the next id and is appended, and the next id advances by one |
| MailStore.InsertEmailValid | src/lib/imap.ts:85-120 | inserting a row that passed the UID-in-folder and Message-ID guards keeps unique Message-IDs, unique mirror keys, ordered ids and owned attachments |
| MailStore.AttachmentFor | src/lib/imap.ts:124-132 | an attachment row belongs to its email, copies content type and size, and has a non-empty file name ("attachment" by default) and no empty content id |
| MailStore.AttachmentRows | src/lib/imap.ts:122-134 | one attachment row per parsed attachment, in the parser's order |
| MailStore.KeepOtherFolders | src/lib/imap.ts:61 | `deleteMany` by folder leaves no row of that folder and never adds rows |
| MailStore.KeepOwned | src/lib/imap.ts:61 | the attachments kept are exactly those whose email row survives |
| MailStore.KeepOtherFoldersOrder | src/lib/imap.ts:61 | surviving rows keep their relative order |
| MailStore.KeepOtherFoldersMembers | src/lib/imap.ts:61 | a row survives exactly when it was stored and belongs to another folder |
| MailStore.KeptIndex | src/lib/imap.ts:61 | every surviving row is a row of the input |
| MailStore.DeleteFolderValid | src/lib/imap.ts:61 | wiping a folder keeps every store constraint and removes exactly that folder's rows |
| MailStore.EnsureSyncState | src/lib/imap.ts:47-55 | afterwards the folder has a sync state; an existing one is left as it is, a missing one is created with cursor 0 and no token |
| MailStore.WriteSyncState | src/lib/imap.ts:62-65 | `emailSyncState.update` replaces the folder's state and touches no email or attachment row |
| MailStore.Store.constructor | src/lib/imap.ts:47 | a store handle starts with the given tables |
| MailStore.Store.FindByUidAndFolder | src/lib/imap.ts:85-88 | the lookup finds a row exactly when one has that UID in that folder |
| MailStore.Store.FindByMessageId | src/lib/imap.ts:95-98 | the lookup finds a row exactly when one in any folder has that Message-ID |
| MailStore.Store.FindSyncState | src/lib/imap.ts:47-49 | returns the folder's sync state when it has one |
| MailStore.Store.CreateEmail | src/lib/imap.ts:120 | the tables become the insert's result on success and stay as they were on a unique-constraint failure |
| MailStore.Store.CreateAttachment | src/lib/imap.ts:124-132 | appends one attachment row and changes nothing else |
| MailStore.Store.DeleteManyByFolder | src/lib/imap.ts:61 | the tables become the folder-wiped tables |
| MailStore.Store.CreateSyncState | src/lib/imap.ts:52-54 | creates the folder's state with cursor 0 and returns it |
| MailStore.Store.UpdateSyncState | src/lib/imap.ts:62-65 | replaces the folder's sync state |
| Sync.RowFor | src/lib/imap.ts:93-118 | the row for a fetched message carries its effective Message-ID, its UID and the folder |
| Sync.Admit | src/lib/imap.ts:120-134 | a message that passed the guards adds its row with the next id, then its attachment rows under that id, and leaves the sync states alone |
| Sync.Prepared | src/lib/imap.ts:47-66 | before the fetch the folder always has a sync state |
| Sync.LoadCursor | src/lib/imap.ts:47-55 | the store gains the folder's state only if it had none, and the state returned is the stored one |
| Sync.ResetIfInvalid | src/lib/imap.ts:60-66 | the store becomes the prepared store: wiped and reset to cursor 0 with the new token exactly when a truthy stored token differs |
| Sync.MirrorOne | src/lib/imap.ts:82-134 | a message is admitted exactly when none of the four guards holds, and the store becomes the admitted store or stays unchanged |
| Sync.FetchLoop | src/lib/imap.ts:75-140 | the loop's final cursor, count, failure flag and store are those of the loop specification, including the batch break and a stream failure at any message |
| Sync.SyncFolder | src/lib/imap.ts:42-155 | the call's result, the store afterwards and the commands sent are those of the sync specification; the remote mailboxes are not changed |
| Sync.OpenAndMirror | src/lib/imap.ts:46-152 | once configured and connected, the call does what the sync specification says |
| Sync.MirrorSpecLoaded | src/lib/imap.ts:47-58 | creating the cursor before opening the folder does not change the outcome, and the first two commands are the login and the select |
| Sync.Mirror | src/lib/imap.ts:57-152 | after the folder is open: reset, fetch, loop and cursor write match the mirror specification |
| SyncProperties.MaxUidIsMax | src/lib/imap.ts:136 | folding `Math.max` over row UIDs yields the maximum of the start and every UID, and is one of them |
| SyncProperties.RunExtends | src/lib/imap.ts:75-140 | the fetch loop only appends rows, one per counted message, advances the row ids by the same number, never touches the sync states and never lowers the cursor |
| SyncProperties.AdmitNewRow | src/lib/imap.ts:93-120 | an admitted message adds exactly one row, of this folder, above the cursor, derived from that message, with a fresh id |
| SyncProperties.RunNewRows | src/lib/imap.ts:75-140 | every row the loop appends belongs to the folder, lies above the cursor, derives from a fetched message and has an id not used before |
| SyncProperties.RunCursor | src/lib/imap.ts:136 | the loop's final cursor is the largest of its start and the UIDs of the rows it stored, so skipped messages never advance it |
| SyncProperties.RunCountBound | src/lib/imap.ts:137-139 | the count never exceeds the batch size, or 1 for a batch size below 1, because the bound is checked after each stored row |
| SyncProperties.AdmitValid | src/lib/imap.ts:85-120 | storing a message that passed the guards keeps unique Message-IDs, unique UIDs per folder and ordered ids |
| SyncProperties.RunValid | src/lib/imap.ts:75-140 | the loop keeps every store constraint: no duplicate Message-ID, no duplicate UID in a folder |
| SyncProperties.SkippedMonotone | src/lib/imap.ts:83-98 | adding rows or raising the cursor never lets through a message a guard stopped |
| SyncProperties.RunCovers | src/lib/imap.ts:75-140 | a loop that ended normally below the batch size leaves every message of the window skipped by a second pass from the final cursor and rows |
| SyncProperties.RunAllSkipped | src/lib/imap.ts:82-98 | a window whose every message is skipped changes nothing and counts nothing |
| SyncProperties.SyncSession | src/lib/imap.ts:42-152 | without configuration or connection nothing is sent and nothing is stored (missing configuration fails with its message); otherwise the session starts with login and select and ends with logout on every path; success sends exactly four commands |
| SyncProperties.SyncCountBounded | src/lib/imap.ts:72-139 | the number returned never exceeds the numeric batch size (or 1 below 1) |
| SyncProperties.SyncDefaultBatch | src/lib/imap.ts:72 | with EMAIL_SYNC_BATCH_SIZE unset at most 100 rows are created per call |
| SyncProperties.SyncCreatedRows | src/lib/imap.ts:57-149 | the store ends as the prepared store plus the created rows; a success returns their number and writes the cursor as the largest of the starting cursor and their UIDs with the server's token; each created row is of this folder, above the cursor and derived from a fetched message |
| SyncProperties.SyncCursorMonotone | src/lib/imap.ts:136-149 | while the token is unchanged the written cursor never goes below the stored one |
| SyncProperties.SyncFailureKeepsCursor | src/lib/imap.ts:142-149 | a fetch that fails mid-stream writes no sync state: the states are those before the loop |
| SyncProperties.SyncResetWipesFolder | src/lib/imap.ts:60-66 | a truthy stored token that differs from the server's removes every earlier row of the folder, keeps every row of the other folders, and leaves only rows this call created in the folder |
| SyncProperties.WipedRows | src/lib/imap.ts:60-66 | rows built from the other folders' rows plus newly numbered rows of the folder hold none of the folder's earlier rows and all the others |
| SyncProperties.SyncResetRefetches | src/lib/imap.ts:60-70 | after such a reset the cursor is 0, so the whole mailbox is fetched |
| SyncProperties.SyncWithoutResetKeepsRows | src/lib/imap.ts:60 | a missing, zero or equal stored token never wipes: every stored row is still there, in place |
| SyncProperties.SyncKeepsValid | src/lib/imap.ts:42-155 | every call keeps the store's constraints |
| SyncProperties.QuietSync | src/lib/imap.ts:68-149 | a call whose cursor was written for the server's token and with every message above it skipped stores nothing and returns 0 |
| SyncProperties.SyncIdempotent | src/lib/imap.ts:42-155 | a sync that completed below the batch size, repeated at the same instant against the same mailbox, stores nothing, returns 0 and leaves the store unchanged |
| SyncProperties.CoveredLater | src/lib/imap.ts:68-83 | messages above the earlier cursor are all in the window, so a window skipped entirely leaves every message above the later cursor skipped |
| Compose.InitialTo | src/app/admin/email/compose/ComposeEmail.tsx:19-23 | the To line is empty without an original, without a type or for a forward, and is the original sender for a reply or reply-all |
| Compose.Without | src/app/admin/email/compose/ComposeEmail.tsx:28 | filtering keeps exactly the recipients other than the given address |
| Compose.InitialCc | src/app/admin/email/compose/ComposeEmail.tsx:25-29 | the Cc line is empty unless replying to all; then it is the original recipients minus NEXT_PUBLIC_EMAIL_ADDRESS, joined with ", " |
| Compose.Padded | src/app/admin/email/compose/ComposeEmail.tsx:76 | pieces of a ", "-joined list: the first item, then each later item behind one space |
| Compose.SplitJoinedList | src/app/admin/email/compose/ComposeEmail.tsx:76 | splitting a ", "-joined list of comma-free items on "," gives those pieces |
| Compose.PaddedCons | src/app/admin/email/compose/ComposeEmail.tsx:76 | the pieces of a list with one more item in front |
| Compose.ParseRecipientsClean | src/app/admin/email/compose/ComposeEmail.tsx:75-78 | every parsed recipient is non-empty and holds no comma |
| Compose.TrimNonEmptyFrom | src/app/admin/email/compose/ComposeEmail.tsx:77-78 | trimming and dropping empty pieces yields only non-empty, comma-free entries |
| Compose.TrimAfterSpace | src/app/admin/email/compose/ComposeEmail.tsx:77 | trimming a plain address behind one space gives the address back |
| Compose.TrimNonEmptyAll | src/app/admin/email/compose/ComposeEmail.tsx:77-78 | pieces that each trim to a non-empty address yield exactly those addresses |
| Compose.ParseJoinedRecipients | src/app/admin/email/compose/ComposeEmail.tsx:28-78 | plain addresses joined with ", " and parsed back are the same addresses, in order |
| Compose.ReplyAllCcRoundTrip | src/app/admin/email/compose/ComposeEmail.tsx:25-84 | a reply-all sent with the prefilled Cc line posts the original's recipients minus the site's own address |
| Compose.InitialSubject | src/app/admin/email/compose/ComposeEmail.tsx:31-36 | the subject is empty without an original, otherwise "Fwd: " for a forward and "Re: " for anything else before the subject stripped of one earlier prefix |
| Compose.QuoteLines | src/app/admin/email/compose/ComposeEmail.tsx:51 | one quoted line per line, each "> " before the line |
| Compose.QuoteLinesOf | src/app/admin/email/compose/ComposeEmail.tsx:49-52 | the quoted text has exactly the original's lines, each behind "> " |
| Compose.QuoteEmpty | src/app/admin/email/compose/ComposeEmail.tsx:49-52 | empty text quotes as "> " |
| Compose.UnquoteQuote | src/app/admin/email/compose/ComposeEmail.tsx:49-52 | removing the marks again gives back the original text, so quoting loses nothing |
| Compose.ReplyBodyLines | src/app/admin/email/compose/ComposeEmail.tsx:38-54 | a reply body is two empty lines, "On <date>, <fromName or from> wrote:", and the original text line by line behind "> " |
| Compose.SplitReply | src/app/admin/email/compose/ComposeEmail.tsx:44-54 | the reply header and quoted text split into two empty lines, the attribution, and the text's lines |
| Compose.ForwardBodyEndsWithText | src/app/admin/email/compose/ComposeEmail.tsx:41-54 | a forward body starts with the "Forwarded message" block and its From line and ends with the original text unquoted |
| Compose.ReferencesFor | src/app/admin/email/compose/ComposeEmail.tsx:96 | the References are the original's chain followed by the original's Message-ID |
| Compose.OptionalList | src/app/admin/email/compose/ComposeEmail.tsx:79-90 | a cc or bcc list is sent exactly when its field is non-empty |
| Compose.RequestKeysLookup | src/app/admin/email/compose/ComposeEmail.tsx:74-98 | each of the eight request members is found under its own key |
| Compose.RequestBodyMembers | src/app/admin/email/compose/ComposeEmail.tsx:74-98 | the posted body holds the parsed To list, Cc and Bcc only for non-empty fields, the subject, the body as text and with every line break as `<br>` as HTML (no line break left), and In-Reply-To and References exactly when there is an original, forwards included |
| Compose.ComposeForm.constructor | src/app/admin/email/compose/ComposeEmail.tsx:15-63 | the form opens prefilled with the initial To, Cc, empty Bcc, subject and body, not loading, without error or success |
| Compose.ComposeForm.Edit | src/app/admin/email/compose/ComposeEmail.tsx:148-196 | an input changes its own field and leaves the others |
| Compose.ComposeForm.HandleSubmit | src/app/admin/email/compose/ComposeEmail.tsx:65-116 | the request posted is the request body of the form; afterwards loading is off; an accepted send records success with the redirect to the Sent folder, a refused one the server's error or "Failed to send email", a thrown one its message |
| Compose.FindById | src/app/admin/email/compose/page.tsx:25-37 | a row found by id is stored with that id; none found means no row has it |
| Compose.Title | src/app/admin/email/compose/page.tsx:41-45 | the title is "Forward Email" exactly for a forward, "Reply" exactly for a reply or reply-all, and "Compose Email" exactly without a type |
| Compose.OpenComposePage | src/app/admin/email/compose/page.tsx:14-45 | without a session the login redirect; otherwise replyTo wins over replyAll, which wins over forward; the chosen parameter sets the type even when no row has the id; with none, original and type are null |
| EmailApi.ParseSendBody | src/app/api/admin/email/route.ts:56-65 | an accepted body is an object whose `to` is an array of valid addresses (possibly empty) and whose subject and html are non-empty strings, read as those values |
| EmailApi.StringItemsAccepted | src/app/api/admin/email/route.ts:57-59 | every element of an accepted array satisfies the element check |
| EmailApi.ParseByLookups | src/app/api/admin/email/route.ts:56-65 | an object holding an acceptable request is read as exactly that request, absent optional keys as absent fields |
| EmailApi.ListsByLookups | src/app/api/admin/email/route.ts:57-64 | the array members of such an object are read as the request's lists |
| EmailApi.SendBodyRoundTrip | src/app/api/admin/email/route.ts:56-65 | writing an acceptable request as JSON and reading it with the schema gives it back |
| EmailApi.ParseRefusesByLookups | src/app/api/admin/email/route.ts:56-65 | the schema refuses an object holding a request with an invalid address in to, cc or bcc, or an empty subject or html |
| EmailApi.RefusesList | src/app/api/admin/email/route.ts:57-59 | one invalid element makes an address array fail, required or optional |
| EmailApi.SendBodyRejects | src/app/api/admin/email/route.ts:56-65 | a request with an invalid `to` address or an empty subject or html is refused |
| EmailApi.ComposeRequestParses | src/app/api/admin/email/route.ts:56-65 | what the compose form posts is accepted exactly when every parsed recipient is valid and subject and body are non-empty, and is then read as the form's lists, subject, `<br>` html, text and thread headers |
| EmailApi.PostEmail | src/app/api/admin/email/route.ts:67-93 | the POST handler's response, the messages handed to the transport and the store afterwards are those of its specification |
| EmailApi.PostStatusCodes | src/app/api/admin/email/route.ts:67-93 | 401 exactly without a session; with one, 400 exactly for a body the schema refuses; 401 and 400 send and store nothing; 201 exactly when the send resolves, having appended one row; 500 stores nothing |
| MailboxQuery.Filter | src/app/admin/email/page.tsx:22-47 | the rows read are exactly the stored rows that match the where-object, each at most as often as stored |
| MailboxQuery.SortByDate | src/app/admin/email/page.tsx:40 | `orderBy: { date: "desc" }` yields a permutation of the rows with dates descending |
| MailboxQuery.Window | src/app/admin/email/page.tsx:41-42 | `skip`/`take` keeps at most `take` rows, exactly those from position `skip` on |
| MailboxQuery.WindowsAdjoin | src/app/admin/email/page.tsx:41-42 | consecutive pages of one size neither overlap nor leave a gap |
| MailboxQuery.FindMany | src/app/api/admin/email/route.ts:27-37 | a read succeeds exactly when the store answers, the skip is a non-negative number and the take is a number (of either sign) |
| MailboxQuery.WindowFromEnd | src/app/api/admin/email/route.ts:30-31 | a negative take `-n` keeps at most `n` rows, exactly those that end `skip` rows before the end of the list |
| MailboxQuery.WindowFromEndIsReversedWindow | src/app/api/admin/email/route.ts:29-31 | the backward read is the forward read of the reversed order, reversed back |
| MailboxQuery.WindowOfSorted | src/app/admin/email/page.tsx:38-46 | any stretch of a date-ordered permutation of the matches holds only matching stored rows, dates descending |
| MailboxQuery.ForwardWindowOfSorted | src/app/admin/email/page.tsx:38-46 | a forward read of the date-ordered matches holds only matching stored rows, dates descending |
| MailboxQuery.BackwardWindowOfSorted | src/app/api/admin/email/route.ts:27-37 | a backward read of the date-ordered matches holds only matching stored rows, dates descending |
| MailboxQuery.FindManyWindow | src/app/api/admin/email/route.ts:27-37 | a successful read of the date-ordered matches is the forward window (the `skip`-th to `(skip+take-1)`-th) for a non-negative take and the backward window (the last `-take` ending `skip` rows before the end) for a negative one |
| MailboxQuery.WindowFromEndAtEnd | src/app/api/admin/email/route.ts:30-31 | with skip 0, a take of `-n` reads the last `n` rows |
| MailboxQuery.FindManyResult | src/app/admin/email/page.tsx:38-46 | a successful read returns only matching stored rows, at most `\|take\|`, dates descending |
| MailboxQuery.OffsetIsProduct | src/app/api/admin/email/route.ts:30 | the computed skip is `(page - 1) * limit` |
| MailboxQuery.CeilDivIsCeiling | src/app/admin/email/page.tsx:68 | the page count is the fewest pages of `limit` rows that hold every row: `ceil(total / limit)` |
| MailboxQuery.PageCountIsCeiling | src/app/api/admin/email/route.ts:47 | `Math.ceil(total / limit)` is written as a number exactly for a non-zero limit, and is then the least integer at or above `total / limit` for either sign; a zero limit gives `null` |
| MailboxQuery.PageOfRow | src/app/admin/email/page.tsx:41-68 | every matching row lies on exactly one page between 1 and the page count |
| MailboxQuery.ParamOr | src/app/admin/email/page.tsx:17-19 | an absent or empty query parameter takes the fallback, any other is kept |
| MailboxQuery.PageWhereMeaning | src/app/admin/email/page.tsx:22-35 | a page admits no deleted row; a non-empty search matches subject, from, fromName or snippet case-insensitively in any folder; otherwise only the folder's rows |
| MailboxQuery.MailboxPageOutcome | src/app/admin/email/page.tsx:10-50 | without a session the login redirect; with one the page fails exactly when the store fails or the page number is not a number or below 1 |
| MailboxQuery.MailboxPageRows | src/app/admin/email/page.tsx:17-46 | a rendered page shows at most 50 admitted stored rows, dates descending, exactly the `(page-1)*50`-th onward in date order, for folder (default "INBOX") and search |
| MailboxQuery.MailboxPageView | src/app/admin/email/page.tsx:17-46 | a rendered page is the store's read of its where-object at skip `(page-1)*50`, take 50 |
| MailboxQuery.MailboxPageCounts | src/app/admin/email/page.tsx:47-70 | the page carries the total and `ceil(total/50)`, the Inbox unread count whatever folder is open, 0 for Sent and Trash, and the Inbox cursor's last sync time or none |
| MailboxQuery.SearchIgnoresFolder | src/app/admin/email/page.tsx:22-31 | with a non-empty search the folder parameter changes nothing but the highlighted folder name |
| MailboxQuery.ListEmailsOutcome | src/app/api/admin/email/route.ts:7-54 | 401 exactly without a session; with one, 500 exactly when the store fails, page or limit is not a number, or the skip `(page-1)*limit` is negative; a negative limit on page 1 is answered |
| MailboxQuery.ListEmailsRows | src/app/api/admin/email/route.ts:13-48 | a listed page has at most `\|limit\|` rows, dates descending, each a stored, non-deleted row of the folder (default "INBOX"), unread when `unread=true`, with their total and `Math.ceil(total/limit)` pages |
| MailboxQuery.ListEmailsNegativeLimit | src/app/api/admin/email/route.ts:15-31 | a negative limit on page 1 lists the `-limit` oldest rows of the folder, newest first |
| MailboxQuery.ListEmailsView | src/app/api/admin/email/route.ts:13-48 | a listed page is the store's read of the folder at skip `(page-1)*limit`, take `limit`, with its count |
| MailboxQuery.EmptySearchSkipsStore | src/app/api/admin/email/search/route.ts:12-18 | an empty query answers with no rows whatever the store holds and whether it answers |
| MailboxQuery.SearchEmailsShows | src/app/api/admin/email/search/route.ts:5-46 | 401 exactly without a session; 500 exactly when the store fails or the limit is not a number; otherwise at most `\|limit\|` stored, non-deleted rows, dates descending, each containing the query case-insensitively in subject, from, fromName, text body or snippet, and in the folder when one is given |
| EmailClient.IntText | src/app/admin/email/EmailClient.tsx:263-274 | a page number in a link is written with at least one character |
| EmailClient.PageLinkAsWritten | src/app/admin/email/EmailClient.tsx:261-277 | the Previous and Next targets as written carry the folder and page but never the search |
| EmailClient.PageLink | src/app/admin/email/EmailClient.tsx:261-277 | the corrected targets carry the folder, the page number, and the search exactly when one is active |
| EmailClient.ShownRangeCountsRows | src/app/admin/email/EmailClient.tsx:255-257 | "Showing first - last of total" counts the page's rows: when it has rows they are exactly rows first to last, with last within the total; otherwise last is below first |
| EmailClient.ButtonsStayInRange | src/app/admin/email/EmailClient.tsx:252-277 | Previous is enabled only above page 1 and Next only below the last page, so an enabled button leads within the list; both are disabled exactly when the bar is not drawn |
| EmailClient.AsWrittenNextLosesSearch | src/app/admin/email/EmailClient.tsx:271-277 | on a page of search results, the page the written Next button opens is never a search page |
| EmailClient.NextOpens | src/app/admin/email/EmailClient.tsx:271-277 | the corrected Next opens the following page of the same folder or search, over the same matches |
| EmailClient.NextKeepsSearch | src/app/admin/email/EmailClient.tsx:271-277 | from any rendered page the corrected Next opens the following page of the same folder or search with the same total |
| EmailClient.FolderLinks | src/app/admin/email/EmailClient.tsx:111-140 | one link per folder, in order |
| EmailClient.FolderHighlight | src/app/admin/email/EmailClient.tsx:111-140 | during a search no folder is highlighted; otherwise at most one is, the Inbox when it is open; the Inbox has a badge exactly when it has unread rows, Sent and Trash never |
| EmailClient.PaneOf | src/app/admin/email/EmailClient.tsx:179-195 | the empty pane shows exactly for a page without rows, says "No emails match your search" exactly during a search, and offers the sync button exactly for the Inbox without a search |
| EmailClient.SearchTarget | src/app/admin/email/EmailClient.tsx:78-85 | the search target carries no folder or page, and the untrimmed text when it searches |
| EmailClient.SearchTargetBlank | src/app/admin/email/EmailClient.tsx:80 | the form searches exactly when the text has a non-white-space character |
| EmailClient.SearchOpens | src/app/admin/email/EmailClient.tsx:78-85 | a non-blank text opens the first page of that search, spaces included; a blank one the first page of the Inbox |
| EmailClient.MailboxClient.constructor | src/app/admin/email/EmailClient.tsx:61-62 | not syncing, the search box holding the page's search, nothing pushed or refreshed |
| EmailClient.MailboxClient.EditSearch | src/app/admin/email/EmailClient.tsx:62 | typing changes only the search box |
| EmailClient.MailboxClient.HandleSearch | src/app/admin/email/EmailClient.tsx:78-85 | submitting pushes the search target of the box and changes nothing else |
| EmailClient.MailboxClient.HandleSync | src/app/admin/email/EmailClient.tsx:64-76 | the sync request goes to the open folder while `syncing` is set; afterwards `syncing` is clear on every path, the page refreshes only on an OK answer, and a rejected request is passed on |
| Faq.SortBySortOrder | src/app/api/faq/route.ts:8 | `orderBy: { sortOrder: "asc" }` yields a permutation of the rows with sort orders ascending |
| Faq.ActiveOnly | src/app/api/faq/route.ts:7 | the rows kept are exactly the active ones, each at most as often as stored |
| Faq.Project | src/app/api/faq/route.ts:9-16 | a visitor sees id, question, answer, the Russian texts and the category of a row, and nothing else |
| Faq.ProjectAll | src/app/api/faq/route.ts:9-16 | every row is projected, in order |
| Faq.PublicRead | src/app/api/faq/route.ts:4-27 | the public read fails with "Failed to fetch FAQ" exactly when the store fails |
| Faq.PublicReadContents | src/app/api/faq/route.ts:6-19 | a successful read is, entry by entry, the projection of the active rows in ascending sort order, each from a stored active row |
| Faq.ActiveShown | src/app/api/faq/route.ts:6-19 | every active row reaches a visitor |
| Faq.InactiveHidden | src/app/api/faq/route.ts:7 | an inactive row never reaches a visitor |
| Faq.NullableString | src/app/api/admin/faq/route.ts:9-11 | the corrected optional text, read as the update route's `.optional().nullable()` reads it: it reads absent and null as no value, a string as itself, and refuses anything else |
| Faq.ParseFaqMeaning | src/app/api/admin/faq/route.ts:6-14 | an accepted item has the body's non-empty question and answer, sort order 0 and active when those are absent; a missing question or answer is refused, and the schema as written refuses null for any optional text |
| Faq.AdminList | src/app/api/admin/faq/route.ts:16-27 | 401 exactly without a session; otherwise every row, active or not, in ascending sort order |
| Faq.Row | src/app/api/admin/faq/route.ts:39-41 | the created row holds the parsed input under the assigned id |
| Faq.AdminCreateOutcome | src/app/api/admin/faq/route.ts:29-58 | 401 exactly without a session, 400 exactly for a body the schema refuses, 201 exactly for an accepted body stored, 500 for a body that is not JSON or a failed insert; 201 returns the created row |
| FaqTable.EmptyForm | src/app/admin/faq/FaqTable.tsx:22-30 | the empty form has empty texts, sort order 0 and is active |
| FaqTable.EditForm | src/app/admin/faq/FaqTable.tsx:42-50 | editing copies the item's fields, with a null Russian text or category shown as "" |
| FaqTable.NullIfEmpty | src/app/admin/faq/FaqTable.tsx:77-79 | an optional text is sent as null exactly when it is empty, and as itself otherwise |
| FaqTable.ItemUrl | src/app/admin/faq/FaqTable.tsx:69 | an item's URL is the collection URL, a slash and the id |
| FaqTable.ToggleRequest | src/app/admin/faq/FaqTable.tsx:99-106 | toggling sends a PATCH to the item whose body holds only `isActive`, flipped |
| FaqTable.DeleteRequest | src/app/admin/faq/FaqTable.tsx:92-97 | a DELETE to the item is sent exactly when the confirmation is accepted |
| FaqTable.SortOrderInput | src/app/admin/faq/FaqTable.tsx:318 | a sort-order input that does not parse gives 0, and a parsed number gives that number (so 0 stays 0) |
| FaqTable.SubmitBodyLookups | src/app/admin/faq/FaqTable.tsx:75-80 | the submitted body holds the form's texts, sort order and flag, with null for exactly the empty optional texts |
| FaqTable.SubmitTarget | src/app/admin/faq/FaqTable.tsx:69-81 | a submit is a PATCH to the item exactly when an id is being edited, a POST to the collection otherwise, carrying the form's body |
| FaqTable.EditRoundTrip | src/app/admin/faq/FaqTable.tsx:42-80 | saving an opened item unchanged sends null for an optional text exactly when the item's was null or empty, and the item's own text otherwise |
| FaqTable.TextOf | src/app/admin/faq/FaqTable.tsx:77-79 | an optional form text stands for no value exactly when it is empty |
| FaqTable.SubmitParses | src/app/admin/faq/FaqTable.tsx:75-80 | a schema accepting null reads every submitted body with a question and answer back as the form's input, empty optional texts as no value, and refuses one without them |
| FaqTable.ReadSubmitted | src/app/admin/faq/FaqTable.tsx:75-80 | any object holding a form's members under their keys reads back as that form's input |
| FaqTable.SaveUnchangedKeepsItem | src/app/admin/faq/FaqTable.tsx:42-80 | saving an existing item unchanged gives back its row, an empty optional text becoming null |
| FaqTable.AsWrittenCreateRefusesEmptyOptional | src/app/admin/faq/FaqTable.tsx:75-80 | creating through the collection route as written fails with 400 whenever an optional text was left empty |
| FaqTable.AsWrittenNewItemRefused | src/app/admin/faq/FaqTable.tsx:51-80 | a new item's form, however its required texts are filled in, is refused by the collection route as written |
| FaqTable.CreateAcceptsSubmit | src/app/admin/faq/FaqTable.tsx:64-81 | with null accepted for the optional texts, a new item with question and answer is created from exactly what the form holds |
| FaqTable.TableState.constructor | src/app/admin/faq/FaqTable.tsx:34-37 | closed, no id, the empty form, not submitting |
| FaqTable.TableState.OpenModal | src/app/admin/faq/FaqTable.tsx:39-56 | opening an item sets its id and its edit form; opening for a new item sets no id and the empty form with sort order equal to the item count; the modal is open |
| FaqTable.TableState.CloseModal | src/app/admin/faq/FaqTable.tsx:58-62 | closed, no id, the empty form |
| FaqTable.TableState.SetSortOrder | src/app/admin/faq/FaqTable.tsx:318 | the sort-order input changes only the form's sort order |
| FaqTable.TableState.HandleSubmit | src/app/admin/faq/FaqTable.tsx:64-90 | the request for the current id and form is sent while submitting; whatever the status the modal closes, resets and refreshes; a thrown fetch leaves the modal as it was; submitting is cleared either way |
| ChatWidget.GetQuestion | src/components/chat/ChatWidget.tsx:34-39 | the Russian question exactly in the "ru" locale with a non-empty Russian question, the English one otherwise |
| ChatWidget.GetAnswer | src/components/chat/ChatWidget.tsx:41-46 | the same fallback for the answer |
| ChatWidget.NeverBlank | src/components/chat/ChatWidget.tsx:34-46 | an item with an English question and answer shows non-empty texts in every locale, the English ones outside "ru" |
| ChatWidget.Toggle | src/components/chat/ChatWidget.tsx:48-50 | clicking the open item collapses it, clicking any other opens it in its place |
| ChatWidget.ToggleTwice | src/components/chat/ChatWidget.tsx:48-50 | clicking one item twice restores it when it was open, and leaves nothing open otherwise |
| ChatWidget.ServerResponse | src/app/api/faq/route.ts:4-27 | the widget receives the `{ error: "Failed to fetch FAQ" }` object exactly when the store fails, and otherwise the projected active items in ascending order |
| ChatWidget.StoredAsWritten | src/components/chat/ChatWidget.tsx:27-30 | `setFaqs(data)` stores a served list and also the error object of a 500 reply; a rejection leaves the state as it was |
| ChatWidget.StoredChecked | src/components/chat/ChatWidget.tsx:27-30 | with a `res.ok` check only a served list is stored, and every other response leaves the state as it was |
| ChatWidget.AsWrittenErrorBreaksWidget | src/components/chat/ChatWidget.tsx:25-32 | after a store failure the stored object cannot render as a list, the effect's condition is false, and a rejection leaves it in place, so the list is never requested again |
| ChatWidget.CheckedKeepsWidget | src/components/chat/ChatWidget.tsx:25-32 | with the check the state stays an array; after a store failure it is still empty and the open widget asks again; a served list is the endpoint's active items |
| ChatWidget.StoredAgreeOffError | src/components/chat/ChatWidget.tsx:27-30 | the written and the checked effect store the same for a list or a rejection |
| ChatWidget.Widget.constructor | src/components/chat/ChatWidget.tsx:18-21 | closed, an empty array of items, nothing expanded, no form |
| ChatWidget.Widget.LoadingOrCta | src/components/chat/ChatWidget.tsx:97-144 | the list part shows exactly one of the loading text, the contact call to action (exactly when items are loaded) and a render failure (exactly when a non-array was stored) |
| ChatWidget.Widget.AtMostOneAnswer | src/components/chat/ChatWidget.tsx:103-125 | with distinct ids at most one answer is shown, the expanded one's |
| ChatWidget.Widget.Open | src/components/chat/ChatWidget.tsx:55 | the launcher opens the widget and changes nothing else |
| ChatWidget.Widget.Close | src/components/chat/ChatWidget.tsx:78 | the close button closes it and changes nothing else |
| ChatWidget.Widget.ToggleFaq | src/components/chat/ChatWidget.tsx:48-50 | clicking a question toggles the expanded id and changes nothing else |
| ChatWidget.Widget.ShowForm | src/components/chat/ChatWidget.tsx:138 | the call to action opens the inquiry form |
| ChatWidget.Widget.Back | src/components/chat/ChatWidget.tsx:147 | the form's back button returns to the list |
| ChatWidget.Widget.Effect | src/components/chat/ChatWidget.tsx:25-32 | the list is requested exactly when the widget is open and holds an empty array; then the state becomes what `setFaqs` stores as written (a list or the error object), and a rejection changes nothing |
| ChatWidget.Widget.EffectChecked | src/components/chat/ChatWidget.tsx:25-32 | the same request condition; with the `res.ok` check only a served list replaces the state |
| DataTable.ArrayIndex | src/components/admin/DataTable.tsx:46 | an index key is the canonical decimal writing of the index it reads |
| DataTable.ArrayIndexOf | src/components/admin/DataTable.tsx:46 | the decimal writing of every natural number reads back as that index |
| DataTable.Step | src/components/admin/DataTable.tsx:46 | a step from undefined or null gives undefined, and from an object gives its member |
| DataTable.GetValue | src/components/admin/DataTable.tsx:42-49 | the loop's value is the path of the key's dot-separated segments from the item |
| DataTable.PathAppend | src/components/admin/DataTable.tsx:45-47 | following a path in two parts is following the first, then the second |
| DataTable.PathFromUndefined | src/components/admin/DataTable.tsx:45-47 | once a step gives undefined, every further step does |
| DataTable.DottedKey | src/components/admin/DataTable.tsx:42-49 | a dotted key follows its first segment and then the rest; a missing intermediate value gives undefined; a key without a dot is a single member lookup |
| DataTable.ValueText | src/components/admin/DataTable.tsx:92 | `String(value ?? "")` renders null and undefined as "" and a string as itself |
| DataTable.CellText | src/components/admin/DataTable.tsx:90-92 | a cell shows the column's renderer when it has one, else the text of the value at its key |
| DataTable.TableBody | src/components/admin/DataTable.tsx:70-94 | empty data gives one "No items found" row spanning every column plus the actions column; otherwise one row per item with one cell per column |
| DataTable.TableState.constructor | src/components/admin/DataTable.tsx:28 | nothing is being deleted |
| DataTable.TableState.HandleDelete | src/components/admin/DataTable.tsx:30-40 | the callback runs exactly with `onDelete` and an accepted confirmation, with `deleting` the id during the call and cleared afterwards whether it resolved or threw; otherwise nothing changes |
| AdminSidebar.ActiveExamples | src/components/admin/AdminSidebar.tsx:46-48 | the Dashboard is highlighted on exactly "/admin"; Email on its compose page and, by prefix, on "/admin/emailx"; the Dashboard not on "/admin/email" |
| AdminSidebar.PrefixExclusive | src/components/admin/AdminSidebar.tsx:46-48 | a path starting with one link cannot start with a second link unrelated to the first by prefix |
| AdminSidebar.HrefsUnnested | src/components/admin/AdminSidebar.tsx:19-27 | no link other than the Dashboard's begins with another's |
| AdminSidebar.AtMostOneActive | src/components/admin/AdminSidebar.tsx:19-48 | on every path at most one sidebar item is highlighted |
| LocaleSwitch.StripAsWritten | src/components/layout/LanguageSwitcher.tsx:14 | the regular expression removes a leading "/en" or "/ru" whatever follows it, and leaves any other path alone |
| LocaleSwitch.AsWrittenExamples | src/components/layout/LanguageSwitcher.tsx:12-17 | a Russian page switched to Russian and an English page to English stay put; "/ru" switched to English becomes "/" |
| LocaleSwitch.AsWrittenBreaksEnterprise | src/components/layout/LanguageSwitcher.tsx:14-15 | switched to English, "/enterprise" becomes "terprise" and "/russia" becomes "ssia" |
| LocaleSwitch.StripLocale | src/components/layout/LanguageSwitcher.tsx:13-14 | the corrected strip removes only a whole first segment "en" or "ru", leaving "" or a rooted rest |
| LocaleSwitch.SwitchLocaleRooted | src/components/layout/LanguageSwitcher.tsx:12-17 | switching a rooted path gives a rooted path, the page itself for English and `/ru` + page for Russian, a locale segment being replaced rather than repeated |
| LocaleSwitch.SwitchLastWins | src/components/layout/LanguageSwitcher.tsx:12-17 | switching twice equals switching once to the second locale, so switching is idempotent and en/ru round-trip |
| LocaleSwitch.SwitchKeepsEnterprise | src/components/layout/LanguageSwitcher.tsx:14-15 | the corrected switch keeps "/enterprise" for English and gives "/ru/enterprise" for Russian |
| LocaleSwitch.AgreesOnSegments | src/components/layout/LanguageSwitcher.tsx:14-15 | the corrected and the written switch agree on every path whose start is a whole locale segment or no locale at all |
| Upload.Extension | src/app/api/admin/upload/route.ts:40 | the extension is never empty and contains no dot unless it is the default "jpg" |
| Upload.ExtensionAfterLastDot | src/app/api/admin/upload/route.ts:40 | the extension of `base.ext` is the text after the last dot |
| Upload.ExtensionWithoutDot | src/app/api/admin/upload/route.ts:40 | a name without a dot is its own extension, the empty name gets "jpg" |
| Upload.ExtensionTrailingDot | src/app/api/admin/upload/route.ts:40 | a name ending in a dot gets "jpg" |
| Upload.CheckOrder | src/app/api/admin/upload/route.ts:10-37 | 401 without a session, then 400 for no file, for a type outside JPEG/PNG/WebP/GIF, for a size over 5 MiB, in that order; an upload happens only when every check passes |
| Upload.SizeBoundary | src/app/api/admin/upload/route.ts:8-37 | a file of exactly 5 MiB is accepted and one byte more is refused as too large |
| Upload.LocalUrl | src/app/api/admin/upload/route.ts:19-80 | local storage answers `/uploads/<folder>/<filename>`, with folder "general" when none or "" is given and filename `<now>-<random>.<ext>` |
| Upload.RemoteUrl | src/app/api/admin/upload/route.ts:42-67 | remote storage answers the storage service's public URL of `folder/filename` |
| PublicForms.ParseContactMeaning | src/app/api/contact/route.ts:6-12 | an accepted contact has non-empty names, a valid email, the body's own message of at least 10 characters and a subject exactly when the body has one; a shorter message is refused |
| PublicForms.ContactReply | src/app/api/contact/route.ts:14-62 | the reply is a success exactly when its status is 201 |
| PublicForms.ContactStored | src/app/api/contact/route.ts:19-24 | a submission is stored exactly when the reply is 201, and it is the parsed body |
| PublicForms.ContactRefused | src/app/api/contact/route.ts:41-51 | a body the schema refuses is answered 400 "Validation error" and stores nothing |
| PublicForms.ParseInquiryLocale | src/app/api/chat-inquiry/route.ts:6-11 | an accepted inquiry's locale is "en" or "ru", "en" when the body has none, any other locale is refused; name, email and message meet the schema |
| PublicForms.InquiryReply | src/app/api/chat-inquiry/route.ts:13-50 | the reply is a success exactly when its status is 201 |
| PublicForms.InquiryStored | src/app/api/chat-inquiry/route.ts:16-25 | an inquiry is stored exactly when the reply is 201, and it is the parsed body |
| PublicForms.Submissions.constructor | src/app/api/contact/route.ts:22 | no submissions, inquiries or messages handed to the SMTP transport |
| PublicForms.Submissions.Contact | src/app/api/contact/route.ts:14-62 | the reply is the route's; a stored contact is appended, the notice and the confirmation are handed to the SMTP transport exactly when SMTP host, user and password are set, and inquiries are unchanged |
| PublicForms.Submissions.ChatInquiry | src/app/api/chat-inquiry/route.ts:13-50 | the reply is the route's; a stored inquiry is appended, its notice is handed to the SMTP transport exactly when SMTP host, user and password are set, and contacts are unchanged |
| ContentApi.ParseServiceMeaning | src/app/api/admin/services/route.ts:6-13 | an accepted service has four non-empty texts, the body's slug and features, and an order exactly when the body has one; a body without features is refused |
| ContentApi.FindBySlug | src/app/api/admin/services/route.ts:38-40 | the lookup finds a row of the table with that slug, and finds nothing exactly when no row has it |
| ContentApi.ServiceTable.constructor | src/app/api/admin/services/route.ts:21-23 | the table holds the given rows |
| ContentApi.ServiceTable.Post | src/app/api/admin/services/route.ts:28-70 | the look-up-then-insert gives the reply and the new table of the create's specification |
| ContentApi.ServicePostKeepsSlugsUnique | src/app/api/admin/services/route.ts:38-54 | a create keeps the slugs of a table with unique slugs unique |
| ContentApi.ServicePostOutcome | src/app/api/admin/services/route.ts:28-70 | 401 exactly without a session; 201 exactly for a parsed body with a free slug and an available store, appending a row with the given id, the slug and `order ?? 0`; every other reply leaves the table; a taken slug is 400 "A service with this slug already exists" |
| ContentApi.ServiceOrderDefault | src/app/api/admin/services/route.ts:52 | a service created without an order gets order 0 |
| ContentApi.ServiceList | src/app/api/admin/services/route.ts:15-26 | 401 exactly without a session; otherwise every service exactly once, by order ascending |
| ContentApi.CreateReply | src/app/api/admin/blog/route.ts:30-55 | 401 without a session, 400 for a body the schema refuses, 500 for a body that is not JSON or a failed insert, 201 with the built row otherwise |
| ContentApi.BlogCreateDefaults | src/app/api/admin/blog/route.ts:6-46 | a created post is published exactly when the body says `true`, carries a publication time exactly when published and that time is its creation time; its read time is at least 1 and its texts are non-empty |
| ContentApi.BlogList | src/app/api/admin/blog/route.ts:17-28 | 401 exactly without a session; otherwise every post exactly once, newest first |
| ContentApi.TeamCreateDefaults | src/app/api/admin/team/route.ts:6-43 | a created member takes the body's order or 0, keeps a link exactly when it is given, and has non-empty name and slug |
| ContentApi.TeamList | src/app/api/admin/team/route.ts:18-29 | 401 exactly without a session; otherwise every member exactly once, by order ascending |
| ContentApi.ProjectCreateDefaults | src/app/api/admin/portfolio/route.ts:6-42 | a created project is featured exactly when the body says `true` and keeps the body's technologies; title and slug are non-empty |
| ContentApi.ProjectList | src/app/api/admin/portfolio/route.ts:17-28 | 401 exactly without a session; otherwise every project exactly once, newest first |
| JsonLd.StrIfTruthy | src/components/seo/JsonLd.tsx:128 | a conditionally spread text member is present exactly when the text is non-empty, and holds it |
| JsonLd.ListItemLookups | src/components/seo/JsonLd.tsx:206-211 | a breadcrumb entry is a "ListItem" at position index + 1 with the item's name and URL |
| JsonLd.BreadcrumbEntries | src/components/seo/JsonLd.tsx:202-220 | the breadcrumb list has one entry per item in order, the k-th at position k + 1 carrying the k-th item's name and URL |
| JsonLd.ReadCrumbsAll | src/components/seo/JsonLd.tsx:206-211 | entries that each read back as the matching item read back as the whole list |
| JsonLd.BreadcrumbRoundTrip | src/components/seo/JsonLd.tsx:206-211 | reading the entries back gives the items: nothing is lost or reordered |
| JsonLd.OfferLookups | src/components/seo/JsonLd.tsx:149-157 | each offer is at its index + 1 and offers a "Service" of that name |
| JsonLd.OrganizationOptional | src/components/seo/JsonLd.tsx:66-104 | the contact point and `sameAs` are present exactly when given and hold what was given; the address is always present |
| JsonLd.ContactPointMembers | src/components/seo/JsonLd.tsx:86-94 | a contact point is a customer service point with the given telephone and email, in English and Russian |
| JsonLd.LocalBusinessKeysDistinct | src/components/seo/JsonLd.tsx:121-165 | the business document names no member twice |
| JsonLd.LocalBusinessOptional | src/components/seo/JsonLd.tsx:124-143 | the `@id` is the URL followed by "#organization"; image, telephone, email and price range are present exactly when non-empty |
| JsonLd.LocalBusinessGiven | src/components/seo/JsonLd.tsx:133-165 | geo, opening hours, area served and the offer catalogue are present exactly when given, the catalogue built from the service types |
| JsonLd.CatalogOffers | src/components/seo/JsonLd.tsx:145-165 | the catalogue lists one offer per service type, in order, numbered from 1 |
| JsonLd.UrlTemplate | src/components/seo/JsonLd.tsx:187 | the search template is the site URL followed by "/search?q={search_term_string}" |
| JsonLd.WebsiteSearchTarget | src/components/seo/JsonLd.tsx:170-199 | the website's URL is the given one and its search action targets that URL's search path with the required query input |
| JsonLd.ServiceOptional | src/components/seo/JsonLd.tsx:223-249 | `areaServed` is present exactly when given, `serviceType` exactly when non-empty, and the provider carries the given name |
| JsonLd.ArticleOptional | src/components/seo/JsonLd.tsx:252-299 | the image and modification date are present exactly when non-empty; the publication date always |
| JsonLd.SiteUrl | src/components/seo/JsonLd.tsx:304 | the configured site URL when non-empty, else "https://itlsolutions.net" |
| JsonLd.TextsForLocale | src/components/seo/JsonLd.tsx:303 | the Russian texts exactly for "ru", the English ones for every other locale |
| JsonLd.SiteOrganizationLookups | src/components/seo/JsonLd.tsx:306-316 | the site organization's `@id` is the site URL with "#organization" and its description is the locale's |
| JsonLd.SiteWebsitePublisher | src/components/seo/JsonLd.tsx:428-442 | the site website's publisher refers to `siteUrl#organization` |
| JsonLd.SiteLocalBusinessLookups | src/components/seo/JsonLd.tsx:338-426 | the site's professional-service document has `@id` the site URL with "#localbusiness", the locale's description, the address with the locale's locality and region, and the locale's catalog |
| JsonLd.SiteBusinessAddress | src/components/seo/JsonLd.tsx:348-353 | the business address carries the locale's locality and region and the country "TJ", and no street |
| JsonLd.SiteCatalogLists | src/components/seo/JsonLd.tsx:360-425 | the offer catalog carries the locale's name and lists every service of the locale in order, each offered with its name and description |
| JsonLd.SiteServicesPerLocale | src/components/seo/JsonLd.tsx:363-424 | each locale's catalog has the six services, the fifth being cybersecurity in that locale's language |
| JsonLd.SiteDocuments | src/components/seo/JsonLd.tsx:302-442 | the organization carries the locale's description; the local business has its own `@id` "#localbusiness", the locale's description, region and catalog name; the website's publisher is exactly the organization's own `@id` |
| Strings.OrElse | src/app/api/admin/upload/route.ts:19 | `s \|\| fallback` gives the string when it is present and non-empty, the fallback otherwise |
| Strings.OrNull | src/app/admin/faq/FaqTable.tsx:77-79 | `s \|\| null` is present exactly when the string is non-empty, and is then the string |
| Strings.TrimIsSlice | src/app/admin/email/compose/ComposeEmail.tsx:77 | the trimmed text is a slice of the input with no white space at either end |
| Strings.TrimEmptyIffAllSpace | src/app/admin/email/EmailClient.tsx:80 | a text trims to "" exactly when it is all white space |
| Strings.SplitJoin | src/app/admin/email/compose/ComposeEmail.tsx:50-52 | joining the pieces of a split with the same separator gives the input back |
| Strings.SplitOfJoin | src/app/admin/email/compose/ComposeEmail.tsx:50-52 | splitting a join of separator-free pieces gives the pieces back |
| Strings.ContainsInContext | src/app/admin/email/page.tsx:26-29 | a text containing the needle still contains it with text added on either side |
| Strings.LowerChar | src/lib/imap.ts:31 | exactly the upper-case letters change, and the result is never an upper-case letter |
| Strings.LowerIdempotent | src/app/admin/email/page.tsx:26-29 | case folding twice is folding once |
| Strings.LowerHasNoUpper | src/lib/imap.ts:31 | a lower-cased text holds no upper-case letter, and a character is kept exactly when it is not one |
| Strings.CyrillicFolds | src/app/api/admin/email/search/route.ts:26-28 | Cyrillic text folds: "Заказ" lowers to "заказ", and "п" is found in "Привет" |
| Strings.NatToStringRoundTrip | src/app/api/admin/upload/route.ts:41 | the decimal writing of a number reads back as that number, so distinct numbers are written differently |
| Ordering.SortAscending | src/app/api/admin/services/route.ts:21-23 | `orderBy: asc` returns a permutation of the rows, ascending in the column |
| Ordering.SortDescending | src/app/api/admin/blog/route.ts:23-25 | `orderBy: desc` returns a permutation of the rows, descending in the column |

## Left out

- Real IMAP and SMTP sessions, MIME parsing, ORM queries and storage or file-system writes. These are an abstract mailbox, an abstract table store, a transport outcome and an uninterpreted parse function.
- `createImapClient`'s connection details (`src/lib/imap.ts:22-26`) and `getFolders` (`src/lib/imap.ts:188-196`). Both only hand over what the IMAP library returns.
- `prisma/schema.prisma` is not part of this model. The unique `messageId` of an email row and the cascade delete of its attachments are assumed, as the mirror's call sites rely on them.
- Prisma's coercion of route ids and numbers to `Int`: email row ids are natural numbers, written in decimal where a route or a link carries them, and stand for the ORM's ids; other ids are strings, and numbers are reals or integers as the schema reads them.
- Concurrency: two syncs of one folder racing each other, and the compose page and widget effects running out of order. Every property is about one sequential call.
- Dates, `toLocaleString` and `formatDate`. Clock values are natural numbers, and formatted dates are opaque strings.
- Sync.Ctx: one sync run reads the clock once (`now`), where the source reads it for each message, in the fallback Message-ID and the missing date (src/lib/imap.ts:93, :117), and again for `lastSyncAt` (:147); a run that spans a clock tick is not modelled.
- Email validity, the regular-expression engine and Zod's issue lists. Validity is a parameter, the specific replaces are modelled one by one, and a refusal carries only its status and message.
- The order among rows with equal sort keys. Prisma leaves it unspecified, and the model's insertion sort fixes one order; the contracts state only sortedness and permutation.
- HTML templates of the notification mails, beyond the subjects, recipients and the text fallback.
- URL encoding of the search and page links: the model's query values are the decoded strings.
- The upload's `folder` is not sanitised in the source. The model keeps it as given, and path traversal is not modelled.
- ChatWidget.Widget.Effect: React re-runs the effect when `isOpen` or `faqs.length` changes; the model leaves that scheduling to the caller, who calls `Effect` after each change. After a rejected request the list stays an empty array, so the effect asks again only once the widget is closed and reopened. A JSON body other than the list or the `{ error }` object cannot come from the endpoint and is not modelled.
- The `<script type="application/ld+json">` tags and the text `JSON.stringify` writes: the documents are JSON values, and the decimal writing of the geo point's numbers is not modelled.
- DataTable: `getValue` steps through JSON objects and arrays only. A segment applied to a string or a number gives undefined, where JavaScript would read a property of the primitive, such as `length`.
- The admin FAQ GET has no try/catch, so a store failure there is an unhandled error. The model has no reply for it.
- Strings.LowerIdempotent: the fold covers the ASCII, Latin-1, Greek and basic Cyrillic upper-case letters only. `toLowerCase` and the database's case-insensitive mode fold every script, and some letters (such as `İ`) lower-case to two characters, which the model leaves unchanged.
- Strings.LowerChar: the same limit; characters of other scripts are returned as they are.
- Subjects.ComputeThreadId: lower-cases with that fold, so upper-case letters of other scripts stay in the thread id where `toLowerCase` would fold them.
- MailboxQuery.PageWhereMeaning: the case-insensitive match uses that fold, not the database's full Unicode one.
- MailboxQuery.SearchEmailsShows: the same fold; outside the folded scripts a search matches only the exact letter case.
- Mail.DeriveRowFields: lengths count Unicode code points, while JavaScript strings count UTF-16 units. A text with characters beyond the Basic Multilingual Plane (emoji) is cut at a different point by `substring(0, 200)`.
- Outbound.SentRowFields: the same; the 200-character snippet counts code points.
- PublicForms.ParseContactMeaning: the `.min(10)` message bound counts code points where Zod counts UTF-16 units, so five emoji pass in the source and fail here.
- PublicForms.ParseInquiryLocale: the inquiry's `.min(10)` message bound is counted the same way.
- SyncProperties.SyncIdempotent: stated only for a repeat at the same clock value and after a first run that stopped below the batch bound. A message without a `Message-ID` is stored under the fallback id `folder-uid-now`, which changes with the clock, and a run cut off by the bound leaves messages for the next one.

## Findings

| source | as written | input that shows it | evidently intended | confidence | as-written member | corrected member |
|---|---|---|---|---|---|---|
| src/app/admin/email/EmailClient.tsx:261-277 | the Previous and Next links carry only `folder` and `page` | a search with more than one page of results: Next opens `?folder=INBOX&page=2`, which is the second page of the Inbox, not of the search | the links keep the search and only change the page | not executed | EmailClient.AsWrittenNextLosesSearch | EmailClient.NextKeepsSearch |
| src/components/layout/LanguageSwitcher.tsx:14 | `/^\/(en\|ru)/` strips "/en" or "/ru" whatever follows | "/enterprise" switched to English becomes "terprise", which has no leading slash | only a whole first path segment "en" or "ru" is removed | not executed | LocaleSwitch.AsWrittenBreaksEnterprise | LocaleSwitch.SwitchKeepsEnterprise |
| src/components/chat/ChatWidget.tsx:27-29 | `res.json()` is stored by `setFaqs` without checking `res.ok` | the store fails: `/api/faq` answers 500 with `{ error: "Failed to fetch FAQ" }`, the object is stored, `faqs.map` throws while rendering, and `faqs.length === 0` never holds again, so the list is never requested again | a failed reply is treated like a rejected request: the list stays empty and is requested again | not executed | ChatWidget.AsWrittenErrorBreaksWidget | ChatWidget.CheckedKeepsWidget |
| src/app/admin/faq/FaqTable.tsx:75-80 | the form sends `null` for an empty Russian text or category, and the create schema's `.optional()` (src/app/api/admin/faq/route.ts:9-11) refuses `null` | creating an item with no Russian translation: the POST is answered 400 and the modal closes with nothing created | the create schema accepts `null` as the update route's `.optional().nullable()` does | not executed | FaqTable.AsWrittenCreateRefusesEmptyOptional | FaqTable.CreateAcceptsSubmit |

/**
 * The mailbox page's client side: the "Showing a - b of n" range, the
 * pagination buttons and their targets, the folder links with their
 * highlight and badge, the empty-list pane, and the search and sync
 * handlers. A navigation target is its decoded query record; the URL
 * encoding in between (`encodeURIComponent` and the router's decoding) is
 * taken to give the text back unchanged.
 */
module EmailClient {
  import opened Wrappers
  import opened Strings
  import opened Config
  import opened Mail
  import opened MailStore
  import opened MailboxQuery

  /** The query parameters of an `/admin/email` URL; `None` is an absent parameter. */
  datatype Query = Query(folder: Option<string>, page: Option<string>, search: Option<string>)

  /** A number in a template string: its decimal digits, with a minus sign when negative. */
  function IntText(n: int): (r: string)
    ensures |r| >= 1
  {
    if n < 0 then "-" + NatToString(-n) else NatToString(n)
  }

  // ---------------------------------------------------------------- the pagination bar

  /** "Showing first - last of total": `(page - 1) * limit + 1` and `min(page * limit, total)`. */
  function ShownRange(p: Pagination): (r: (int, int)) {
    ((p.page - 1) * p.limit + 1, Min(p.page * p.limit, p.total))
  }

  /** The bar is drawn only when there is more than one page. */
  predicate BarShown(p: Pagination) {
    p.totalPages > 1
  }

  predicate PrevDisabled(p: Pagination) {
    p.page <= 1
  }

  predicate NextDisabled(p: Pagination) {
    p.page >= p.totalPages
  }

  /** The Previous and Next targets as written: the folder and the page number, and no search. */
  function PageLinkAsWritten(currentFolder: string, page: int): (r: Query)
    ensures r.search.None?
  {
    Query(Some(currentFolder), Some(IntText(page)), None)
  }

  /** The Previous and Next targets carrying the search being paged through, when there is one. */
  function PageLink(currentFolder: string, search: string, page: int): (r: Query)
    ensures r.folder == Some(currentFolder) && r.page == Some(IntText(page))
    ensures r.search.Some? <==> search != ""
    ensures r.search.Some? ==> r.search.value == search
  {
    Query(Some(currentFolder), Some(IntText(page)), if search != "" then Some(search) else None)
  }

  function PrevLink(v: MailboxView): Query {
    PageLink(v.currentFolder, v.search, v.pagination.page - 1)
  }

  function NextLink(v: MailboxView): Query {
    PageLink(v.currentFolder, v.search, v.pagination.page + 1)
  }

  /** The page that a query record opens. */
  function Open(session: bool, t: Tables, available: bool, q: Query, parseInt: ParseInt): PageResult {
    MailboxPage(session, t, available, q.folder, q.page, q.search, parseInt)
  }

  /** `parseInt` reads back the decimal digits of every natural number. */
  ghost predicate ReadsDecimals(parseInt: ParseInt) {
    forall n: nat :: parseInt(NatToString(n)) == Some(n)
  }

  /**
   * The range on a rendered page counts its rows: when the page has rows,
   * they are exactly rows `first` to `last` of the total; a page past the
   * last one (or of an empty list) has none, and then `last < first`.
   */
  lemma ShownRangeCountsRows(session: bool, t: Tables, available: bool, folderParam: Option<string>, pageParam: Option<string>,
                             searchParam: Option<string>, parseInt: ParseInt)
    requires MailboxPage(session, t, available, folderParam, pageParam, searchParam, parseInt).Rendered?
    ensures var v := MailboxPage(session, t, available, folderParam, pageParam, searchParam, parseInt).view;
      var (first, last) := ShownRange(v.pagination);
      && (v.emails != [] <==> first <= last)
      && (v.emails != [] ==> last - first + 1 == |v.emails| && last <= v.pagination.total)
  {
    MailboxPageRows(session, t, available, folderParam, pageParam, searchParam, parseInt);
    MailboxPageCounts(session, t, available, folderParam, pageParam, searchParam, parseInt);
  }

  /**
   * On a page within the list, an enabled button leads to a page within the
   * list; the two buttons are both disabled only when there is one page.
   */
  lemma ButtonsStayInRange(p: Pagination)
    requires 1 <= p.page <= p.totalPages
    ensures !PrevDisabled(p) ==> 1 <= p.page - 1 <= p.totalPages
    ensures !NextDisabled(p) ==> 1 <= p.page + 1 <= p.totalPages
    ensures PrevDisabled(p) && NextDisabled(p) <==> !BarShown(p)
  {
  }

  /**
   * The buttons as written drop the search: on a page of search results, the
   * page that Next opens is never a search page, but the folder listing.
   */
  lemma AsWrittenNextLosesSearch(session: bool, t: Tables, available: bool, v: MailboxView, parseInt: ParseInt)
    requires v.search != ""
    ensures var r := Open(session, t, available, PageLinkAsWritten(v.currentFolder, v.pagination.page + 1), parseInt);
      r.Rendered? ==> r.view.search == "" && r.view.search != v.search
  {
  }

  /**
   * The corrected Next button, from any page of a folder or search: it opens
   * the following page of the same folder or search.
   */
  lemma NextOpens(session: bool, t: Tables, available: bool, v: MailboxView, parseInt: ParseInt)
    requires ReadsDecimals(parseInt)
    requires session && available && v.pagination.page >= 1 && v.currentFolder != ""
    ensures var r := Open(session, t, available, NextLink(v), parseInt);
      && r.Rendered?
      && r.view.search == v.search
      && r.view.currentFolder == v.currentFolder
      && r.view.pagination.page == v.pagination.page + 1
      && r.view.pagination.total == |Filter(t.emails, PageWhere(v.currentFolder, v.search))|
  {
    var q := NextLink(v);
    var n: nat := v.pagination.page + 1;
    assert q.page == Some(NatToString(n));
    assert parseInt(NatToString(n)) == Some(n);
    MailboxPageOutcome(session, t, available, q.folder, q.page, q.search, parseInt);
    MailboxPageRows(session, t, available, q.folder, q.page, q.search, parseInt);
    MailboxPageCounts(session, t, available, q.folder, q.page, q.search, parseInt);
  }

  /**
   * The corrected buttons page through the same list: Next from a rendered
   * page opens the following page of the same folder or search, with the
   * same total.
   */
  lemma NextKeepsSearch(session: bool, t: Tables, available: bool, folderParam: Option<string>, pageParam: Option<string>,
                        searchParam: Option<string>, parseInt: ParseInt)
    requires ReadsDecimals(parseInt)
    requires MailboxPage(session, t, available, folderParam, pageParam, searchParam, parseInt).Rendered?
    ensures var v := MailboxPage(session, t, available, folderParam, pageParam, searchParam, parseInt).view;
      var r := Open(session, t, available, NextLink(v), parseInt);
      && r.Rendered?
      && r.view.search == v.search
      && r.view.currentFolder == v.currentFolder
      && r.view.pagination.page == v.pagination.page + 1
      && r.view.pagination.total == v.pagination.total
  {
    var v := MailboxPage(session, t, available, folderParam, pageParam, searchParam, parseInt).view;
    MailboxPageOutcome(session, t, available, folderParam, pageParam, searchParam, parseInt);
    MailboxPageRows(session, t, available, folderParam, pageParam, searchParam, parseInt);
    MailboxPageCounts(session, t, available, folderParam, pageParam, searchParam, parseInt);
    NextOpens(session, t, available, v, parseInt);
  }

  // ---------------------------------------------------------------- the folder list

  /** A folder link: to `?folder=<name>`, highlighted or not, with a count badge or none. */
  datatype FolderLink = FolderLink(target: Query, title: string, active: bool, badge: Option<nat>)

  /** Highlighted iff it is the open folder and no search is active; a badge only for a positive count. */
  function LinkOf(f: FolderEntry, currentFolder: string, search: string): FolderLink {
    FolderLink(Query(Some(f.name), None, None), f.title, f.name == currentFolder && search == "",
               if f.count > 0 then Some(f.count) else None)
  }

  function FolderLinks(folders: seq<FolderEntry>, currentFolder: string, search: string): (r: seq<FolderLink>)
    ensures |r| == |folders|
    ensures forall i :: 0 <= i < |r| ==> r[i] == LinkOf(folders[i], currentFolder, search)
  {
    seq(|folders|, i requires 0 <= i < |folders| => LinkOf(folders[i], currentFolder, search))
  }

  /**
   * The links of the folder list: during a search no folder is highlighted;
   * otherwise at most one is, and the Inbox is when it is open. The Inbox
   * carries a badge exactly when it has unread rows, Sent and Trash never.
   */
  lemma FolderHighlight(rows: seq<EmailRow>, currentFolder: string, search: string)
    ensures var links := FolderLinks(Folders(rows), currentFolder, search);
      && |links| == 3
      && (search != "" ==> forall i :: 0 <= i < 3 ==> !links[i].active)
      && (forall i, j :: 0 <= i < j < 3 && links[i].active ==> !links[j].active)
      && (search == "" && currentFolder == "INBOX" ==> links[0].active)
      && (links[0].badge.Some? <==> |Filter(rows, InFolder("INBOX", true))| > 0)
      && links[1].badge.None? && links[2].badge.None?
  {
    var links := FolderLinks(Folders(rows), currentFolder, search);
    assert links[0] == LinkOf(Folders(rows)[0], currentFolder, search);
    assert links[1] == LinkOf(Folders(rows)[1], currentFolder, search);
    assert links[2] == LinkOf(Folders(rows)[2], currentFolder, search);
  }

  // ---------------------------------------------------------------- the list pane

  /** The list pane: the rows, or a message (and, on the Inbox listing, the "Click to sync emails" button). */
  datatype ListPane = RowsPane(rows: seq<EmailRow>) | EmptyPane(message: string, syncPrompt: bool)

  function PaneOf(v: MailboxView): (r: ListPane)
    ensures r.EmptyPane? <==> v.emails == []
    ensures r.RowsPane? ==> r.rows == v.emails
    ensures r.EmptyPane? ==> (r.syncPrompt <==> v.currentFolder == InboxFolder && v.search == "")
    ensures r.EmptyPane? ==> (r.message == "No emails match your search" <==> v.search != "")
  {
    if v.emails != [] then RowsPane(v.emails)
    else if v.search != "" then EmptyPane("No emails match your search", false)
    else EmptyPane("No emails in this folder", v.currentFolder == InboxFolder)
  }

  // ---------------------------------------------------------------- the handlers

  /** The search form's target: the untrimmed text when it has a non-blank character, else the plain mailbox. */
  function SearchTarget(text: string): (r: Query)
    ensures r.folder.None? && r.page.None?
    ensures r.search.Some? ==> r.search.value == text
  {
    if Trim(text) != "" then Query(None, None, Some(text)) else Query(None, None, None)
  }

  /** The search form searches exactly when the text is not blank. */
  lemma SearchTargetBlank(text: string)
    ensures SearchTarget(text).search.None? <==> forall i :: 0 <= i < |text| ==> IsSpace(text[i])
  {
    TrimEmptyIffAllSpace(text);
  }

  /**
   * What the search form opens: for a text with a non-blank character, the
   * first page of that search, spaces included; for a blank text, the
   * first page of the Inbox.
   */
  lemma SearchOpens(session: bool, t: Tables, available: bool, text: string, parseInt: ParseInt)
    requires parseInt("1") == Some(1)
    requires session && available
    ensures var r := Open(session, t, available, SearchTarget(text), parseInt);
      && r.Rendered?
      && r.view.pagination.page == 1
      && (Trim(text) != "" ==> r.view.search == text)
      && (Trim(text) == "" ==> r.view.search == "" && r.view.currentFolder == InboxFolder)
  {
    var q := SearchTarget(text);
    MailboxPageOutcome(session, t, available, q.folder, q.page, q.search, parseInt);
    MailboxPageRows(session, t, available, q.folder, q.page, q.search, parseInt);
    MailboxPageCounts(session, t, available, q.folder, q.page, q.search, parseInt);
    if Trim(text) != "" {
      assert text != "";
    }
  }

  /** The sync request: a POST to the sync endpoint for the open folder. */
  function SyncRequest(currentFolder: string): string {
    "/api/admin/email/sync?folder=" + currentFolder
  }

  /** The client's state: the sync flag, the search box, the pushed routes and the number of refreshes. */
  class MailboxClient {
    var syncing: bool
    var searchQuery: string
    var pushed: seq<Query>
    var refreshes: nat

    /** The search box starts with the page's search. */
    constructor(search: string)
      ensures !syncing && searchQuery == search && pushed == [] && refreshes == 0
    {
      syncing := false;
      searchQuery := search;
      pushed := [];
      refreshes := 0;
    }

    method EditSearch(value: string)
      modifies this
      ensures searchQuery == value
      ensures syncing == old(syncing) && pushed == old(pushed) && refreshes == old(refreshes)
    {
      searchQuery := value;
    }

    /** `handleSearch`: pushes the search target; nothing else changes. */
    method HandleSearch()
      modifies this
      ensures pushed == old(pushed) + [SearchTarget(old(searchQuery))]
      ensures syncing == old(syncing) && searchQuery == old(searchQuery) && refreshes == old(refreshes)
    {
      pushed := pushed + [SearchTarget(searchQuery)];
    }

    /**
     * `handleSync`: `syncing` is set while the request is out and cleared
     * afterwards on every path; the page refreshes only on an OK response.
     * `response` is the request's outcome: `Some(ok)` for an answer, `None`
     * when `fetch` rejects, which the handler passes on (`threw`).
     */
    method HandleSync(currentFolder: string, response: Option<bool>) returns (request: string, syncingDuringRequest: bool, threw: bool)
      modifies this
      ensures request == SyncRequest(currentFolder)
      ensures syncingDuringRequest && !syncing
      ensures refreshes == old(refreshes) + (if response == Some(true) then 1 else 0)
      ensures threw <==> response.None?
      ensures searchQuery == old(searchQuery) && pushed == old(pushed)
    {
      syncing := true;
      request := SyncRequest(currentFolder);
      syncingDuringRequest := syncing;
      threw := response.None?;
      if response == Some(true) {
        refreshes := refreshes + 1;
      }
      syncing := false;
    }
  }
}

/**
 * The read side of the mailbox: the where-objects the mailbox page, the
 * list endpoint and the search endpoint build; the store's filtered,
 * date-descending, skip/take read; page counts; and the three route
 * results. The store is the table value of `MailStore`; whether it answers
 * at all is the parameter `available`.
 */
module MailboxQuery {
  import opened Wrappers
  import opened Strings
  import opened Config
  import opened Mail
  import opened MailStore
  import opened Ordering

  const InboxFolder: string := "INBOX"
  const PageLimit: nat := 50

  // ---------------------------------------------------------------- filters

  /** The where-objects: a folder listing, or a case-insensitive search over some text fields. */
  datatype Where =
    | InFolder(folder: string, unreadOnly: bool)
    | SearchText(term: string, within: Option<string>, inBody: bool)

  /** `{ contains: term, mode: "insensitive" }` on a nullable column: a null column never matches. */
  predicate ColumnHas(column: Option<string>, term: string) {
    column.Some? && ContainsInsensitive(column.value, term)
  }

  /** The `OR` of a search: subject, from, fromName, (the text body, for the search endpoint) and snippet. */
  predicate SearchHit(e: EmailRow, term: string, inBody: bool) {
    || ContainsInsensitive(e.subject, term)
    || ContainsInsensitive(e.from, term)
    || ColumnHas(e.fromName, term)
    || (inBody && ColumnHas(e.textBody, term))
    || ContainsInsensitive(e.snippet, term)
  }

  /** Whether a row satisfies a where-object; deleted rows never do. */
  predicate Matches(w: Where, e: EmailRow) {
    && !e.isDeleted
    && match w
       case InFolder(folder, unreadOnly) => e.folder == folder && (unreadOnly ==> !e.isRead)
       case SearchText(term, within, inBody) => (within.Some? ==> e.folder == within.value) && SearchHit(e, term, inBody)
  }

  /** The rows that satisfy `w`, in store order. */
  function Filter(rows: seq<EmailRow>, w: Where): (r: seq<EmailRow>)
    ensures |r| <= |rows|
    ensures forall e :: e in r <==> e in rows && Matches(w, e)
    ensures multiset(r) <= multiset(rows)
  {
    if rows == [] then []
    else
      assert rows == [rows[0]] + rows[1..];
      (if Matches(w, rows[0]) then [rows[0]] else []) + Filter(rows[1..], w)
  }

  // ---------------------------------------------------------------- order

  /** A row's date, the key of the store's order. */
  function DateOf(e: EmailRow): real {
    e.date as real
  }

  /** `orderBy: { date: "desc" }`. */
  predicate DateDescending(xs: seq<EmailRow>) {
    Descending(xs, DateOf)
  }

  /**
   * The store's date order on the email rows: a permutation of its input
   * with dates descending, the order among rows of equal date being the
   * model's own choice.
   */
  function SortByDate(xs: seq<EmailRow>): (r: seq<EmailRow>)
    ensures multiset(r) == multiset(xs)
    ensures forall i, j :: 0 <= i < j < |r| ==> r[i].date >= r[j].date
  {
    var r := SortDescending(xs, DateOf);
    assert forall i, j :: 0 <= i < j < |r| ==> DateOf(r[i]) >= DateOf(r[j]);
    r
  }

  // ---------------------------------------------------------------- skip / take

  function Min(a: int, b: int): int { if a <= b then a else b }

  /** How many rows of a list lie past the first `skip`. */
  function Remaining(xs: seq<EmailRow>, skip: nat): nat {
    if skip <= |xs| then |xs| - skip else 0
  }

  /** `skip: s, take: n` over an ordered list. */
  function Window(xs: seq<EmailRow>, skip: nat, take: nat): (r: seq<EmailRow>)
    ensures |r| == Min(take, Remaining(xs, skip))
    ensures forall k :: 0 <= k < |r| ==> r[k] == xs[skip + k]
  {
    var lo := Min(skip, |xs|);
    xs[lo..Min(skip + take, |xs|)]
  }

  /** Consecutive pages of one size do not overlap and leave no gap: two pages are the double-size page. */
  lemma WindowsAdjoin(xs: seq<EmailRow>, skip: nat, take: nat)
    ensures Window(xs, skip, take) + Window(xs, skip + take, take) == Window(xs, skip, 2 * take)
  {
    var a, b, c := Window(xs, skip, take), Window(xs, skip + take, take), Window(xs, skip, 2 * take);
    assert |a + b| == |c|;
    forall k | 0 <= k < |c| ensures (a + b)[k] == c[k] {
      if k < |a| {
      } else {
        assert (a + b)[k] == b[k - |a|];
      }
    }
  }

  /**
   * `take: -n`: the store walks the order backwards, skips `skip` rows and
   * takes `n`, then hands the rows back in the requested order: the `n` rows
   * that end `skip` rows before the end of the list.
   */
  function WindowFromEnd(xs: seq<EmailRow>, skip: nat, n: nat): (r: seq<EmailRow>)
    ensures |r| == Min(n, Remaining(xs, skip))
    ensures forall k :: 0 <= k < |r| ==> r[k] == xs[Remaining(xs, skip) - |r| + k]
  {
    var hi := Remaining(xs, skip);
    xs[hi - Min(n, hi)..hi]
  }

  /** With nothing skipped, the backward read is the last `n` rows. */
  lemma WindowFromEndAtEnd(xs: seq<EmailRow>, n: nat)
    ensures WindowFromEnd(xs, 0, n) == xs[|xs| - Min(n, |xs|)..]
  {
  }

  /** The list in the opposite order. */
  function Reversed(xs: seq<EmailRow>): (r: seq<EmailRow>)
    ensures |r| == |xs|
    ensures forall k :: 0 <= k < |xs| ==> r[k] == xs[|xs| - 1 - k]
  {
    if xs == [] then [] else Reversed(xs[1..]) + [xs[0]]
  }

  /** The backward read is what its description says: reverse, skip and take, reverse back. */
  lemma WindowFromEndIsReversedWindow(xs: seq<EmailRow>, skip: nat, n: nat)
    ensures WindowFromEnd(xs, skip, n) == Reversed(Window(Reversed(xs), skip, n))
  {
    var a, b := WindowFromEnd(xs, skip, n), Reversed(Window(Reversed(xs), skip, n));
    assert |a| == |b|;
    forall k | 0 <= k < |a| ensures a[k] == b[k] {
      var m := |Window(Reversed(xs), skip, n)|;
      assert b[k] == Window(Reversed(xs), skip, n)[m - 1 - k] == Reversed(xs)[skip + m - 1 - k];
    }
  }

  /** Why a read fails: the store rejects a negative or `NaN` skip or a `NaN` take, or does not answer. */
  datatype ReadError = InvalidArguments | Unavailable

  function Abs(x: int): nat { if x >= 0 then x else -x }

  /**
   * `findMany({ where, orderBy: { date: "desc" }, skip, take })`; `None` is
   * `NaN`. A negative take reads `-take` rows from the end.
   */
  function FindMany(rows: seq<EmailRow>, available: bool, w: Where, skip: Option<int>, take: Option<int>): (r: Result<seq<EmailRow>, ReadError>)
    ensures r.Ok? <==> available && skip.Some? && skip.value >= 0 && take.Some?
  {
    if !available then Err(Unavailable)
    else if skip.None? || skip.value < 0 || take.None? then Err(InvalidArguments)
    else
      var all := SortByDate(Filter(rows, w));
      if take.value >= 0 then Ok(Window(all, skip.value, take.value))
      else Ok(WindowFromEnd(all, skip.value, -take.value))
  }

  /** A stretch of a date-descending permutation of the matching rows. */
  lemma WindowOfSorted(all: seq<EmailRow>, rows: seq<EmailRow>, w: Where, lo: nat, hi: nat)
    requires multiset(all) == multiset(Filter(rows, w)) && DateDescending(all)
    requires lo <= hi <= |all|
    ensures |all| == |Filter(rows, w)|
    ensures forall e :: e in all[lo..hi] ==> e in rows && Matches(w, e)
    ensures DateDescending(all[lo..hi])
  {
    assert |all| == |multiset(all)| == |multiset(Filter(rows, w))| == |Filter(rows, w)|;
    SliceMatches(all, rows, w, lo, hi);
    SliceDescending(all, lo, hi);
  }

  lemma SliceMatches(all: seq<EmailRow>, rows: seq<EmailRow>, w: Where, lo: nat, hi: nat)
    requires multiset(all) == multiset(Filter(rows, w))
    requires lo <= hi <= |all|
    ensures forall e :: e in all[lo..hi] ==> e in rows && Matches(w, e)
  {
    forall e | e in all[lo..hi] ensures e in rows && Matches(w, e) {
      assert e in all;
      assert e in multiset(Filter(rows, w));
    }
  }

  lemma SliceDescending(all: seq<EmailRow>, lo: nat, hi: nat)
    requires DateDescending(all)
    requires lo <= hi <= |all|
    ensures DateDescending(all[lo..hi])
  {
    var r := all[lo..hi];
    forall i, j | 0 <= i < j < |r| ensures DateOf(r[i]) >= DateOf(r[j]) {
      assert r[i] == all[lo + i] && r[j] == all[lo + j];
    }
  }

  /** A forward read of the sorted matches keeps only matching stored rows in date order. */
  lemma ForwardWindowOfSorted(all: seq<EmailRow>, rows: seq<EmailRow>, w: Where, skip: nat, take: nat)
    requires multiset(all) == multiset(Filter(rows, w)) && DateDescending(all)
    ensures |all| == |Filter(rows, w)|
    ensures forall e :: e in Window(all, skip, take) ==> e in rows && Matches(w, e)
    ensures DateDescending(Window(all, skip, take))
  {
    assert Window(all, skip, take) == all[Min(skip, |all|)..Min(skip + take, |all|)];
    WindowOfSorted(all, rows, w, Min(skip, |all|), Min(skip + take, |all|));
  }

  /** So does a backward read. */
  lemma BackwardWindowOfSorted(all: seq<EmailRow>, rows: seq<EmailRow>, w: Where, skip: nat, n: nat)
    requires multiset(all) == multiset(Filter(rows, w)) && DateDescending(all)
    ensures |all| == |Filter(rows, w)|
    ensures forall e :: e in WindowFromEnd(all, skip, n) ==> e in rows && Matches(w, e)
    ensures DateDescending(WindowFromEnd(all, skip, n))
  {
    var hi := Remaining(all, skip);
    assert WindowFromEnd(all, skip, n) == all[hi - Min(n, hi)..hi];
    WindowOfSorted(all, rows, w, hi - Min(n, hi), hi);
  }

  /** A successful read is one of the two windows of the sorted matches. */
  lemma FindManyWindow(rows: seq<EmailRow>, available: bool, w: Where, skip: Option<int>, take: Option<int>)
    requires FindMany(rows, available, w, skip, take).Ok?
    ensures var r := FindMany(rows, available, w, skip, take).value;
      var all := SortByDate(Filter(rows, w));
      && skip.Some? && skip.value >= 0 && take.Some?
      && (take.value >= 0 ==> r == Window(all, skip.value, take.value))
      && (take.value < 0 ==> r == WindowFromEnd(all, skip.value, -take.value))
  {
  }

  /**
   * What a successful read returns: only matching rows, at most `|take|` of
   * them, dates descending, each present in the store.
   */
  lemma FindManyResult(rows: seq<EmailRow>, available: bool, w: Where, skip: Option<int>, take: Option<int>)
    requires FindMany(rows, available, w, skip, take).Ok?
    ensures var r := FindMany(rows, available, w, skip, take).value;
      && |r| <= Abs(take.value)
      && (forall e :: e in r ==> e in rows && Matches(w, e))
      && DateDescending(r)
  {
    FindManyWindow(rows, available, w, skip, take);
    var all := SortByDate(Filter(rows, w));
    if take.value >= 0 {
      ForwardWindowOfSorted(all, rows, w, skip.value, take.value);
    } else {
      BackwardWindowOfSorted(all, rows, w, skip.value, -take.value);
    }
  }

  /** `(page - 1) * limit`, the rows before a page, as repeated addition of the limit. */
  function Offset(page: int, limit: int): int
    decreases if page >= 1 then page - 1 else 1 - page
  {
    if page == 1 then 0 else if page > 1 then Offset(page - 1, limit) + limit else Offset(page + 1, limit) - limit
  }

  lemma {:induction false} OffsetIsProduct(page: int, limit: int)
    ensures Offset(page, limit) == (page - 1) * limit
    decreases if page >= 1 then page - 1 else 1 - page
  {
    if page > 1 {
      OffsetIsProduct(page - 1, limit);
    } else if page < 1 {
      OffsetIsProduct(page + 1, limit);
    }
  }

  /** `count({ where })`. */
  function Count(rows: seq<EmailRow>, w: Where): nat {
    |Filter(rows, w)|
  }

  /** `Math.ceil(total / limit)` for a positive limit. */
  function CeilDiv(total: nat, limit: nat): nat
    requires limit > 0
  {
    (total + limit - 1) / limit
  }

  /** `CeilDiv` is the ceiling: the fewest pages of `limit` rows that hold `total` rows. */
  lemma CeilDivIsCeiling(total: nat, limit: nat)
    requires limit > 0
    ensures CeilDiv(total, limit) * limit >= total
    ensures CeilDiv(total, limit) > 0 ==> (CeilDiv(total, limit) - 1) * limit < total
  {
  }

  /** Every row of the match list lies on exactly one page between 1 and the last page. */
  lemma PageOfRow(total: nat, limit: nat, k: nat)
    requires limit > 0 && k < total
    ensures var p := k / limit + 1;
      1 <= p <= CeilDiv(total, limit) && (p - 1) * limit <= k < p * limit
  {
    var q, c := k / limit, CeilDiv(total, limit);
    assert k == q * limit + k % limit && k % limit < limit;
    assert (q + 1) * limit == q * limit + limit;
    CeilDivIsCeiling(total, limit);
    if c <= q {
      MulMonotone(c, q, limit);
      assert false;
    }
  }

  lemma MulMonotone(a: nat, b: nat, m: nat)
    requires a <= b
    ensures a * m <= b * m
  {
    assert b * m == a * m + (b - a) * m;
  }

  /**
   * `Math.ceil(total / limit)` as `JSON.stringify` writes it: for a zero
   * limit the quotient is infinite or `NaN` and is written `null` (`None`);
   * a negative limit gives a non-positive count (`-0` is written `0`).
   */
  function PageCount(total: nat, limit: int): Option<int> {
    if limit > 0 then Some(CeilDiv(total, limit))
    else if limit < 0 then Some(-(total / -limit))
    else None
  }

  /** For a non-zero limit the count is the ceiling of `total / limit`: the least `p` with `p * limit` at or past `total`. */
  lemma PageCountIsCeiling(total: nat, limit: int)
    ensures PageCount(total, limit).Some? <==> limit != 0
    ensures limit > 0 ==> var p := PageCount(total, limit).value; p * limit >= total && (p - 1) * limit < total
    ensures limit < 0 ==> var p := PageCount(total, limit).value; p * limit <= total && (p - 1) * limit > total
  {
    if limit > 0 {
      CeilDivIsCeiling(total, limit);
    } else if limit < 0 {
      var m := -limit;
      var q := total / m;
      assert total == q * m + total % m && total % m < m;
      var p := PageCount(total, limit).value;
      assert p == -q;
      assert p * limit == q * m;
      assert (p - 1) * limit == q * m + m;
    }
  }

  // ---------------------------------------------------------------- the mailbox page

  /** `params.x || fallback`: an absent or empty query parameter takes the fallback. */
  function ParamOr(param: Option<string>, fallback: string): (r: string)
    ensures Truthy(param) ==> r == param.value
    ensures !Truthy(param) ==> r == fallback
  {
    OrElse(param, fallback)
  }

  /** The page's where-object: a non-empty search looks through every folder, otherwise one folder is listed. */
  function PageWhere(folder: string, search: string): Where {
    if search != "" then SearchText(search, None, false) else InFolder(folder, false)
  }

  datatype FolderEntry = FolderEntry(name: string, title: string, count: nat)

  datatype Pagination = Pagination(page: int, limit: nat, total: nat, totalPages: nat)

  datatype MailboxView = MailboxView(
    emails: seq<EmailRow>,
    folders: seq<FolderEntry>,
    currentFolder: string,
    search: string,
    pagination: Pagination,
    lastSyncAt: Option<int>)

  datatype PageResult = RedirectToLogin | Rendered(view: MailboxView) | ErrorPage

  /** The folder list: the Inbox shows its unread count whatever folder is open; Sent and Trash show 0. */
  function Folders(rows: seq<EmailRow>): seq<FolderEntry> {
    [FolderEntry(InboxFolder, "Inbox", Count(rows, InFolder(InboxFolder, true))),
     FolderEntry("Sent", "Sent", 0),
     FolderEntry("Trash", "Trash", 0)]
  }

  /** `lastSync?.lastSyncAt?.toISOString() || null`, from the Inbox cursor only. */
  function LastSyncAt(t: Tables): Option<int> {
    if InboxFolder in t.syncStates then t.syncStates[InboxFolder].lastSyncAt else None
  }

  /** `/admin/email`: the session check, then one page of 50 rows and the folder list. */
  function MailboxPage(session: bool, t: Tables, available: bool, folderParam: Option<string>, pageParam: Option<string>,
                       searchParam: Option<string>, parseInt: ParseInt): PageResult
  {
    if !session then RedirectToLogin
    else
      var folder := ParamOr(folderParam, InboxFolder);
      var page := parseInt(ParamOr(pageParam, "1"));
      var search := ParamOr(searchParam, "");
      var w := PageWhere(folder, search);
      var skip := if page.Some? then Some((page.value - 1) * PageLimit) else None;
      match FindMany(t.emails, available, w, skip, Some(PageLimit))
      case Err(_) => ErrorPage
      case Ok(emails) =>
        var total := Count(t.emails, w);
        Rendered(MailboxView(emails, Folders(t.emails), folder, search,
                             Pagination(page.value, PageLimit, total, CeilDiv(total, PageLimit)), LastSyncAt(t)))
  }

  /** Which rows a page's where-object admits: never a deleted one; a search through every folder, else one folder. */
  lemma PageWhereMeaning(folder: string, search: string, e: EmailRow)
    ensures Matches(PageWhere(folder, search), e) <==>
      && !e.isDeleted
      && (search == "" ==> e.folder == folder)
      && (search != "" ==> SearchHit(e, search, false))
  {
  }

  /** Without a session the page redirects to the login; with one it fails exactly for a page number below 1 or not a number. */
  lemma MailboxPageOutcome(session: bool, t: Tables, available: bool, folderParam: Option<string>, pageParam: Option<string>,
                           searchParam: Option<string>, parseInt: ParseInt)
    ensures var r := MailboxPage(session, t, available, folderParam, pageParam, searchParam, parseInt);
      var page := parseInt(OrElse(pageParam, "1"));
      && (!session <==> r == RedirectToLogin)
      && (session ==> (r == ErrorPage <==> !available || page.None? || page.value < 1))
  {
  }

  /**
   * The rows a rendered page shows: at most 50, dates descending, each a
   * row of the store admitted by the page's where-object (folder, default
   * Inbox, or the search), and exactly the `(page-1)*50`-th onward of all
   * admitted rows in date order.
   */
  lemma MailboxPageRows(session: bool, t: Tables, available: bool, folderParam: Option<string>, pageParam: Option<string>,
                        searchParam: Option<string>, parseInt: ParseInt)
    requires MailboxPage(session, t, available, folderParam, pageParam, searchParam, parseInt).Rendered?
    ensures var v := MailboxPage(session, t, available, folderParam, pageParam, searchParam, parseInt).view;
      var w := PageWhere(OrElse(folderParam, InboxFolder), OrElse(searchParam, ""));
      var page := parseInt(OrElse(pageParam, "1")).value;
      var all := SortByDate(Filter(t.emails, w));
      && v.currentFolder == OrElse(folderParam, InboxFolder) && v.search == OrElse(searchParam, "")
      && page >= 1
      && |v.emails| <= 50
      && |v.emails| == Min(50, if (page - 1) * 50 <= |all| then |all| - (page - 1) * 50 else 0)
      && |all| == |Filter(t.emails, w)|
      && (forall k :: 0 <= k < |v.emails| ==> 0 <= (page - 1) * 50 + k < |all| && v.emails[k] == all[(page - 1) * 50 + k])
      && (forall e :: e in v.emails ==> e in t.emails && Matches(w, e))
      && DateDescending(v.emails)
  {
    MailboxPageView(session, t, available, folderParam, pageParam, searchParam, parseInt);
    var w := PageWhere(OrElse(folderParam, InboxFolder), OrElse(searchParam, ""));
    var base := (parseInt(OrElse(pageParam, "1")).value - 1) * 50;
    FindManyResult(t.emails, available, w, Some(base), Some(50));
  }

  /** A rendered page shows the store's read of its where-object at skip `(page - 1) * 50`, take 50. */
  lemma MailboxPageView(session: bool, t: Tables, available: bool, folderParam: Option<string>, pageParam: Option<string>,
                        searchParam: Option<string>, parseInt: ParseInt)
    requires MailboxPage(session, t, available, folderParam, pageParam, searchParam, parseInt).Rendered?
    ensures var v := MailboxPage(session, t, available, folderParam, pageParam, searchParam, parseInt).view;
      var w := PageWhere(OrElse(folderParam, InboxFolder), OrElse(searchParam, ""));
      var page := parseInt(OrElse(pageParam, "1"));
      && page.Some? && page.value >= 1
      && v.currentFolder == OrElse(folderParam, InboxFolder) && v.search == OrElse(searchParam, "")
      && FindMany(t.emails, available, w, Some((page.value - 1) * 50), Some(50)).Ok?
      && v.emails == FindMany(t.emails, available, w, Some((page.value - 1) * 50), Some(50)).value
  {
  }

  /**
   * The counters of a rendered page: the total of admitted rows and its page
   * count `ceil(total / 50)`, the Inbox's unread non-deleted rows whatever
   * folder is open, 0 for Sent and Trash, and the Inbox cursor's last sync
   * time (none without an Inbox cursor).
   */
  lemma MailboxPageCounts(session: bool, t: Tables, available: bool, folderParam: Option<string>, pageParam: Option<string>,
                          searchParam: Option<string>, parseInt: ParseInt)
    requires MailboxPage(session, t, available, folderParam, pageParam, searchParam, parseInt).Rendered?
    ensures var v := MailboxPage(session, t, available, folderParam, pageParam, searchParam, parseInt).view;
      var w := PageWhere(OrElse(folderParam, InboxFolder), OrElse(searchParam, ""));
      var total := |Filter(t.emails, w)|;
      && v.pagination == Pagination(parseInt(OrElse(pageParam, "1")).value, 50, total, CeilDiv(total, 50))
      && v.folders == [FolderEntry("INBOX", "Inbox", |Filter(t.emails, InFolder("INBOX", true))|),
                       FolderEntry("Sent", "Sent", 0), FolderEntry("Trash", "Trash", 0)]
      && v.lastSyncAt == (if "INBOX" in t.syncStates then t.syncStates["INBOX"].lastSyncAt else None)
  {
  }

  /** A non-empty search ignores the folder parameter: the rows and counts are those of every folder. */
  lemma SearchIgnoresFolder(session: bool, t: Tables, available: bool, f1: Option<string>, f2: Option<string>,
                            pageParam: Option<string>, searchParam: Option<string>, parseInt: ParseInt)
    requires Truthy(searchParam)
    ensures var r1 := MailboxPage(session, t, available, f1, pageParam, searchParam, parseInt);
      var r2 := MailboxPage(session, t, available, f2, pageParam, searchParam, parseInt);
      && r1.Rendered? == r2.Rendered?
      && (r1.Rendered? ==> r1.view.(currentFolder := "") == r2.view.(currentFolder := ""))
  {
  }

  // ---------------------------------------------------------------- GET /api/admin/email

  datatype ListResponse =
    | ListUnauthorized
    | Listed(emails: seq<EmailRow>, page: int, limit: int, total: nat, totalPages: Option<int>)
    | ListFailed

  function ListStatus(r: ListResponse): int {
    match r
    case ListUnauthorized => 401
    case Listed(_, _, _, _, _) => 200
    case ListFailed => 500
  }

  /**
   * The list endpoint: folder (default Inbox), not deleted, unread only for
   * `unread=true`; page and limit (default 50) from `parseInt`, skip
   * `(page - 1) * limit` and take `limit`, so a negative limit reads from the
   * end of the folder.
   */
  function ListEmails(session: bool, t: Tables, available: bool, folderParam: Option<string>, pageParam: Option<string>,
                      limitParam: Option<string>, unreadParam: Option<string>, parseInt: ParseInt): ListResponse
  {
    if !session then ListUnauthorized
    else
      var folder := ParamOr(folderParam, InboxFolder);
      var page := parseInt(ParamOr(pageParam, "1"));
      var limit := parseInt(ParamOr(limitParam, "50"));
      var w := InFolder(folder, unreadParam == Some("true"));
      var skip := if page.Some? && limit.Some? then Some(Offset(page.value, limit.value)) else None;
      match FindMany(t.emails, available, w, skip, limit)
      case Err(_) => ListFailed
      case Ok(emails) =>
        var total := Count(t.emails, w);
        Listed(emails, page.value, limit.value, total, PageCount(total, limit.value))
  }

  /** 401 exactly without a session; with one, 500 exactly when the read fails (a `NaN` page or limit, a negative skip, or no store). */
  lemma ListEmailsOutcome(session: bool, t: Tables, available: bool, folderParam: Option<string>, pageParam: Option<string>,
                          limitParam: Option<string>, unreadParam: Option<string>, parseInt: ParseInt)
    ensures var r := ListEmails(session, t, available, folderParam, pageParam, limitParam, unreadParam, parseInt);
      var page := parseInt(OrElse(pageParam, "1"));
      var limit := parseInt(OrElse(limitParam, "50"));
      && (ListStatus(r) == 401 <==> !session)
      && (session ==> (ListStatus(r) == 500 <==>
            !available || page.None? || limit.None? || (page.value - 1) * limit.value < 0))
  {
    var page := parseInt(OrElse(pageParam, "1"));
    var limit := parseInt(OrElse(limitParam, "50"));
    if page.Some? && limit.Some? {
      OffsetIsProduct(page.value, limit.value);
    }
  }

  /**
   * A listed page: at most `|limit|` rows, dates descending, each a
   * non-deleted row of the folder (default Inbox), unread when
   * `unread=true`; the total of such rows and `ceil(total / limit)` pages;
   * a negative limit on page 1 gives the `-limit` oldest rows.
   */
  lemma ListEmailsRows(session: bool, t: Tables, available: bool, folderParam: Option<string>, pageParam: Option<string>,
                       limitParam: Option<string>, unreadParam: Option<string>, parseInt: ParseInt)
    requires ListEmails(session, t, available, folderParam, pageParam, limitParam, unreadParam, parseInt).Listed?
    ensures var r := ListEmails(session, t, available, folderParam, pageParam, limitParam, unreadParam, parseInt);
      var folder := OrElse(folderParam, InboxFolder);
      var unread := unreadParam == Some("true");
      var total := |Filter(t.emails, InFolder(folder, unread))|;
      && |r.emails| <= Abs(r.limit)
      && r.total == total
      && r.totalPages == PageCount(total, r.limit)
      && (forall e :: e in r.emails ==> e in t.emails && e.folder == folder && !e.isDeleted && (unread ==> !e.isRead))
      && DateDescending(r.emails)
  {
    ListEmailsView(session, t, available, folderParam, pageParam, limitParam, unreadParam, parseInt);
    var page := parseInt(OrElse(pageParam, "1"));
    var limit := parseInt(OrElse(limitParam, "50"));
    var w := InFolder(OrElse(folderParam, InboxFolder), unreadParam == Some("true"));
    FindManyResult(t.emails, available, w, Some(Offset(page.value, limit.value)), limit);
  }

  /** A negative limit on the first page lists the `-limit` oldest rows of the folder, newest first. */
  lemma ListEmailsNegativeLimit(session: bool, t: Tables, available: bool, folderParam: Option<string>, pageParam: Option<string>,
                                limitParam: Option<string>, unreadParam: Option<string>, parseInt: ParseInt)
    requires ListEmails(session, t, available, folderParam, pageParam, limitParam, unreadParam, parseInt).Listed?
    requires var r := ListEmails(session, t, available, folderParam, pageParam, limitParam, unreadParam, parseInt);
      r.limit < 0 && r.page == 1
    ensures var r := ListEmails(session, t, available, folderParam, pageParam, limitParam, unreadParam, parseInt);
      var all := SortByDate(Filter(t.emails, InFolder(OrElse(folderParam, InboxFolder), unreadParam == Some("true"))));
      r.emails == all[|all| - Min(-r.limit, |all|)..]
  {
    ListEmailsView(session, t, available, folderParam, pageParam, limitParam, unreadParam, parseInt);
    var page := parseInt(OrElse(pageParam, "1"));
    var limit := parseInt(OrElse(limitParam, "50"));
    var w := InFolder(OrElse(folderParam, InboxFolder), unreadParam == Some("true"));
    var r := ListEmails(session, t, available, folderParam, pageParam, limitParam, unreadParam, parseInt);
    var all := SortByDate(Filter(t.emails, w));
    assert Offset(page.value, limit.value) == 0;
    assert r.emails == FindMany(t.emails, available, w, Some(0), limit).value;
    FindManyWindow(t.emails, available, w, Some(0), limit);
    assert r.emails == WindowFromEnd(all, 0, -limit.value);
    WindowFromEndAtEnd(all, -limit.value);
  }

  /** A listed page is the store's read of the folder at skip `(page - 1) * limit`, take `limit`. */
  lemma ListEmailsView(session: bool, t: Tables, available: bool, folderParam: Option<string>, pageParam: Option<string>,
                       limitParam: Option<string>, unreadParam: Option<string>, parseInt: ParseInt)
    requires ListEmails(session, t, available, folderParam, pageParam, limitParam, unreadParam, parseInt).Listed?
    ensures var r := ListEmails(session, t, available, folderParam, pageParam, limitParam, unreadParam, parseInt);
      var page := parseInt(OrElse(pageParam, "1"));
      var limit := parseInt(OrElse(limitParam, "50"));
      var w := InFolder(OrElse(folderParam, InboxFolder), unreadParam == Some("true"));
      && page.Some? && limit.Some? && r.limit == limit.value
      && FindMany(t.emails, available, w, Some(Offset(page.value, limit.value)), limit).Ok?
      && r.emails == FindMany(t.emails, available, w, Some(Offset(page.value, limit.value)), limit).value
      && r.total == Count(t.emails, w)
      && r.totalPages == PageCount(r.total, r.limit)
  {
    var page := parseInt(ParamOr(pageParam, "1"));
    var limit := parseInt(ParamOr(limitParam, "50"));
    var w := InFolder(ParamOr(folderParam, InboxFolder), unreadParam == Some("true"));
    assert page.Some? && limit.Some?;
    var skip := Some(Offset(page.value, limit.value));
    var read := FindMany(t.emails, available, w, skip, limit);
    assert read.Ok?;
  }

  // ---------------------------------------------------------------- GET /api/admin/email/search

  datatype SearchResponse = SearchUnauthorized | SearchResults(emails: seq<EmailRow>) | SearchFailed

  function SearchStatus(r: SearchResponse): int {
    match r
    case SearchUnauthorized => 401
    case SearchResults(_) => 200
    case SearchFailed => 500
  }

  /** The search endpoint: an empty query answers at once; otherwise the five-column search, in a folder only when one is given. */
  function SearchEmails(session: bool, t: Tables, available: bool, qParam: Option<string>, folderParam: Option<string>,
                        limitParam: Option<string>, parseInt: ParseInt): SearchResponse
  {
    if !session then SearchUnauthorized
    else
      var query := ParamOr(qParam, "");
      var limit := parseInt(ParamOr(limitParam, "50"));
      if query == "" then SearchResults([])
      else
        var w := SearchText(query, if Truthy(folderParam) then folderParam else None, true);
        match FindMany(t.emails, available, w, Some(0), limit)
        case Err(_) => SearchFailed
        case Ok(emails) => SearchResults(emails)
  }

  /** An empty query reads nothing: the answer is the same whatever the store holds and whether it answers. */
  lemma EmptySearchSkipsStore(t1: Tables, t2: Tables, a1: bool, a2: bool, qParam: Option<string>, folderParam: Option<string>,
                              limitParam: Option<string>, parseInt: ParseInt)
    requires !Truthy(qParam)
    ensures SearchEmails(true, t1, a1, qParam, folderParam, limitParam, parseInt) == SearchResults([])
    ensures SearchEmails(true, t2, a2, qParam, folderParam, limitParam, parseInt) == SearchResults([])
  {
  }

  /**
   * The search endpoint's answer: 401 without a session, 500 when the store
   * fails; otherwise at most `|limit|` non-deleted rows (the oldest matches
   * for a negative limit), dates descending, each
   * containing the query case-insensitively in its subject, sender address,
   * sender name, text body or snippet, and in the given folder if one is given.
   */
  lemma SearchEmailsShows(session: bool, t: Tables, available: bool, qParam: Option<string>, folderParam: Option<string>,
                          limitParam: Option<string>, parseInt: ParseInt)
    ensures var r := SearchEmails(session, t, available, qParam, folderParam, limitParam, parseInt);
      var q := OrElse(qParam, "");
      var limit := parseInt(OrElse(limitParam, "50"));
      && (SearchStatus(r) == 401 <==> !session)
      && (session && q != "" ==> (r == SearchFailed <==> !available || limit.None?))
      && (r.SearchResults? && q != "" ==>
            && |r.emails| <= Abs(limit.value)
            && DateDescending(r.emails)
            && forall e :: e in r.emails ==>
                 && e in t.emails && !e.isDeleted && SearchHit(e, q, true)
                 && (Truthy(folderParam) ==> e.folder == folderParam.value))
  {
    if session {
      var query := ParamOr(qParam, "");
      var limit := parseInt(ParamOr(limitParam, "50"));
      if query != "" {
        var w := SearchText(query, if Truthy(folderParam) then folderParam else None, true);
        if FindMany(t.emails, available, w, Some(0), limit).Ok? {
          FindManyResult(t.emails, available, w, Some(0), limit);
        }
      }
    }
  }
}

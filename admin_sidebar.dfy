/** The admin sidebar: its navigation items and which of them is highlighted for the current path. */
module AdminSidebar {
  import opened Strings

  /** A sidebar link; `caption` is the source's `label`, a reserved word in Dafny. */
  datatype NavItem = NavItem(href: string, caption: string)

  function NavItems(): seq<NavItem> {
    [NavItem("/admin", "Dashboard"),
     NavItem("/admin/email", "Email"),
     NavItem("/admin/services", "Services"),
     NavItem("/admin/team", "Team"),
     NavItem("/admin/portfolio", "Portfolio"),
     NavItem("/admin/blog", "Blog"),
     NavItem("/admin/contacts", "Contacts")]
  }

  /** An item is highlighted on its own path, and (the Dashboard excepted) on every path that starts with it. */
  predicate IsActive(pathname: string, href: string) {
    pathname == href || (href != "/admin" && StartsWith(pathname, href))
  }

  /** Illustrations beside `AtMostOneActive`, which holds for every path: the Dashboard is highlighted on exactly "/admin"; the compose page highlights Email; so does "/admin/emailx". */
  lemma ActiveExamples(pathname: string)
    ensures IsActive(pathname, "/admin") <==> pathname == "/admin"
    ensures IsActive("/admin/email/compose", "/admin/email")
    ensures IsActive("/admin/emailx", "/admin/email")
    ensures !IsActive("/admin/email", "/admin")
  {
    assert "/admin/email/compose"[..12] == "/admin/email";
    assert "/admin/emailx"[..12] == "/admin/email";
  }

  /** A string that starts with `a` starts with no `b` that neither begins nor extends `a`. */
  lemma PrefixExclusive(s: string, a: string, b: string)
    requires StartsWith(s, a) && !StartsWith(a, b) && !StartsWith(b, a)
    ensures !StartsWith(s, b)
  {
    if |b| <= |a| {
      assert s[..|b|] == s[..|a|][..|b|] == a[..|b|];
    } else if |b| <= |s| {
      assert s[..|b|][..|a|] == s[..|a|] == a;
      assert s[..|b|][..|a|] != b[..|a|];
    }
  }

  /** No item's path starts with another's, the Dashboard's aside. */
  lemma HrefsUnnested(i: nat, j: nat)
    requires 1 <= i < |NavItems()| && 1 <= j < |NavItems()| && i != j
    ensures !StartsWith(NavItems()[j].href, NavItems()[i].href)
  {
    var a, b := NavItems()[i].href, NavItems()[j].href;
    assert |a| > 7 && |b| > 7 && a[7] != b[7];
    if |a| <= |b| {
      assert b[..|a|][7] != a[7];
    }
  }

  /** Whatever the path, at most one item of the sidebar is highlighted. */
  lemma AtMostOneActive(pathname: string, i: nat, j: nat)
    requires i < j < |NavItems()|
    ensures !(IsActive(pathname, NavItems()[i].href) && IsActive(pathname, NavItems()[j].href))
  {
    var a, b := NavItems()[i].href, NavItems()[j].href;
    if i == 0 {
      assert |b| > |a|;
      assert !IsActive(a, b);
    } else if StartsWith(pathname, a) {
      HrefsUnnested(i, j);
      HrefsUnnested(j, i);
      PrefixExclusive(pathname, a, b);
    }
  }
}

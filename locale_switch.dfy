/**
 * The language switcher: the site's pages live under `/<path>` for English
 * and `/ru/<path>` for Russian, and switching rewrites the current path.
 * The code as written strips the characters "/en" or "/ru" at the start of
 * the path wherever they occur, not only as a whole first segment; the
 * corrected rewrite strips a whole first segment only.
 */
module LocaleSwitch {
  import opened Strings

  /** The code as written: `pathname.replace(/^\/(en|ru)/, '')`. */
  function StripAsWritten(path: string): (r: string)
    ensures StartsWith(path, "/en") || StartsWith(path, "/ru") ==> r == path[3..]
    ensures !(StartsWith(path, "/en") || StartsWith(path, "/ru")) ==> r == path
  {
    if StartsWith(path, "/en") || StartsWith(path, "/ru") then path[3..] else path
  }

  /** `switchLocale` as written: the stripped path (or "/"), prefixed with `/<locale>` unless the target is English. */
  function SwitchLocaleAsWritten(path: string, newLocale: string): string {
    var rest := if StripAsWritten(path) == "" then "/" else StripAsWritten(path);
    if newLocale == "en" then rest else "/" + newLocale + rest
  }

  /** Illustrations beside `SwitchLocaleRooted` and `AgreesOnSegments`, which hold for every path: the two examples the switcher is meant for, a Russian page stays put, and so does an English one. */
  lemma AsWrittenExamples()
    ensures SwitchLocaleAsWritten("/ru/about", "ru") == "/ru/about"
    ensures SwitchLocaleAsWritten("/about", "en") == "/about"
    ensures SwitchLocaleAsWritten("/ru", "en") == "/"
  {
    assert StartsWith("/ru/about", "/ru");
    assert "/ru/about"[3..] == "/about";
    assert "/about"[..3][1] == 'a';
    assert StartsWith("/ru", "/ru");
  }

  /**
   * Switched to English, a page whose first segment merely begins with "en"
   * or "ru" loses those letters and its leading slash.
   */
  lemma AsWrittenBreaksEnterprise()
    ensures SwitchLocaleAsWritten("/enterprise", "en") == "terprise"
    ensures SwitchLocaleAsWritten("/russia", "en") == "ssia"
  {
    assert StartsWith("/enterprise", "/en");
    assert "/enterprise"[3..] == "terprise";
    assert StartsWith("/russia", "/ru");
    assert "/russia"[3..] == "ssia";
  }

  /** The path's first segment is exactly the locale: "/en" or "/ru" alone or followed by "/". */
  predicate HasLocaleSegment(path: string) {
    || path == "/en" || path == "/ru"
    || StartsWith(path, "/en/") || StartsWith(path, "/ru/")
  }

  /** The corrected strip: a whole first segment "en" or "ru" is removed, nothing else. */
  function StripLocale(path: string): (r: string)
    ensures HasLocaleSegment(path) ==> r == path[3..] && (r == "" || r[0] == '/')
    ensures !HasLocaleSegment(path) ==> r == path
  {
    if HasLocaleSegment(path) then path[3..] else path
  }

  /** The corrected `switchLocale`. */
  function SwitchLocale(path: string, newLocale: string): string {
    var rest := if StripLocale(path) == "" then "/" else StripLocale(path);
    if newLocale == "en" then rest else "/" + newLocale + rest
  }

  /** A path of the site: it begins with "/". */
  predicate Rooted(path: string) {
    path != [] && path[0] == '/'
  }

  /**
   * On a rooted path, switching yields a rooted path: the page itself for
   * English, under `/<locale>` otherwise, with a locale segment replaced
   * rather than repeated.
   */
  lemma SwitchLocaleRooted(path: string, newLocale: string)
    requires Rooted(path)
    ensures Rooted(SwitchLocale(path, newLocale))
    ensures !HasLocaleSegment(path) ==> SwitchLocale(path, "en") == path && SwitchLocale(path, "ru") == "/ru" + path
    ensures HasLocaleSegment(path) && |path| > 3 ==> SwitchLocale(path, "en") == path[3..]
  {
  }

  /**
   * Switching twice is switching once to the second locale, for a path
   * with at most one locale segment: switching is idempotent and English
   * and Russian round-trip.
   */
  lemma SwitchLastWins(path: string, a: string, b: string)
    requires Rooted(path) && !HasLocaleSegment(StripLocale(path))
    requires a in {"en", "ru"} && b in {"en", "ru"}
    ensures SwitchLocale(SwitchLocale(path, a), b) == SwitchLocale(path, b)
  {
    var rest := if StripLocale(path) == "" then "/" else StripLocale(path);
    assert Rooted(rest);
    if a == "ru" {
      var q := "/ru" + rest;
      assert StartsWith(q, "/ru/") by {
        assert q[..4] == "/ru" + [rest[0]];
      }
      assert q[3..] == rest;
    }
  }

  /** The corrected switch leaves "/enterprise" intact, where the code as written gives "terprise". */
  lemma SwitchKeepsEnterprise()
    ensures SwitchLocale("/enterprise", "en") == "/enterprise"
    ensures SwitchLocale("/enterprise", "ru") == "/ru/enterprise"
  {
    assert !StartsWith("/enterprise", "/en/") by {
      assert "/enterprise"[..4] != "/en/" by {
        assert "/enterprise"[3] == 't';
      }
    }
    assert !StartsWith("/enterprise", "/ru/") by {
      assert "/enterprise"[1] == 'e';
    }
  }

  /** The two agree on every path whose start is a whole locale segment or does not begin with "/en" or "/ru". */
  lemma AgreesOnSegments(path: string, newLocale: string)
    requires HasLocaleSegment(path) || !(StartsWith(path, "/en") || StartsWith(path, "/ru"))
    ensures SwitchLocale(path, newLocale) == SwitchLocaleAsWritten(path, newLocale)
  {
    if HasLocaleSegment(path) {
      if StartsWith(path, "/en/") || StartsWith(path, "/ru/") {
        assert path[..3] == path[..4][..3];
      }
    }
  }
}

/**
 * The subject-line rule shared by the mirror and the composer: one leading
 * `Re:`, `Fwd:` or `Fw:` (any letter case) and the white space after it are
 * removed, as the regular expression `^(Re|Fwd|Fw):\s*` with flags `g` and `i` does. The
 * pattern is anchored without the multiline flag, so even with the global
 * flag it matches at most once, at position 0. Replies and forwards then
 * prepend their own prefix (section 3.6.5 of RFC 5322).
 */
module Subjects {
  import opened Wrappers
  import opened Strings

  /** `c` matches the lower-case letter `l` under the `i` flag. */
  predicate Letter(c: char, l: char) {
    LowerChar(c) == l
  }

  /** `s` starts with `Re:` in any letter case. */
  predicate StartsRe(s: string) {
    |s| >= 3 && Letter(s[0], 'r') && Letter(s[1], 'e') && s[2] == ':'
  }

  /** `s` starts with `Fwd:` in any letter case. */
  predicate StartsFwd(s: string) {
    |s| >= 4 && Letter(s[0], 'f') && Letter(s[1], 'w') && Letter(s[2], 'd') && s[3] == ':'
  }

  /** `s` starts with `Fw:` in any letter case. */
  predicate StartsFw(s: string) {
    |s| >= 3 && Letter(s[0], 'f') && Letter(s[1], 'w') && s[2] == ':'
  }

  /** The length of the `(Re|Fwd|Fw):` match at the start of `s`, or 0 when there is none. */
  function PrefixLength(s: string): (n: nat)
    ensures n == 0 <==> !StartsRe(s) && !StartsFwd(s) && !StartsFw(s)
    ensures n > 0 ==> n <= |s| && s[n - 1] == ':'
  {
    if StartsRe(s) then 3
    else if StartsFwd(s) then 4
    else if StartsFw(s) then 3
    else 0
  }

  predicate HasReplyPrefix(s: string) {
    PrefixLength(s) > 0
  }

  /** Replacing the match of `^(Re|Fwd|Fw):\s*` (flags `g`, `i`) with the empty string. */
  function StripReplyPrefix(s: string): string {
    if HasReplyPrefix(s) then TrimStart(s[PrefixLength(s)..]) else s
  }

  /** The strip removes only a head of the string: what remains is a suffix of the input. */
  lemma StripIsSuffix(s: string)
    ensures var r := StripReplyPrefix(s); |r| <= |s| && r == s[|s| - |r|..]
    ensures !HasReplyPrefix(s) ==> StripReplyPrefix(s) == s
  {
    if HasReplyPrefix(s) {
      var k := PrefixLength(s);
      var t := s[k..];
      var r := TrimStart(t);
      TrimStartSuffix(t);
      assert t[|t| - |r|..] == s[|s| - |r|..];
    }
  }

  /** Only one prefix goes: below a `Re:` the rest is kept, apart from the white space after the colon. */
  lemma StripOnce(word: string, rest: string)
    requires word == "Re" || word == "Fwd" || word == "Fw"
    ensures StripReplyPrefix(word + ":" + rest) == TrimStart(rest)
  {
    var s := word + ":" + rest;
    assert s[|word| + 1..] == rest;
    if word == "Re" {
      assert StartsRe(s);
    } else if word == "Fwd" {
      assert !StartsRe(s) && StartsFwd(s);
    } else {
      assert !StartsRe(s) && !StartsFwd(s) && StartsFw(s);
    }
    assert PrefixLength(s) == |word| + 1;
  }

  /** `computeThreadId`: strip one prefix, lower-case, trim; an empty result becomes "no-subject". */
  function ComputeThreadId(subject: Option<string>): (id: string)
    ensures id != ""
    ensures var t := Trim(Lower(StripReplyPrefix(OrElse(subject, ""))));
      (t != "" ==> id == t) && (t == "" ==> id == "no-subject")
  {
    var t := Trim(Lower(StripReplyPrefix(OrElse(subject, ""))));
    if t == "" then "no-subject" else t
  }

  /** A reply or a forward falls in the same thread as its original. */
  lemma ThreadIdIgnoresReplyPrefix(s: string, forward: bool)
    requires !HasReplyPrefix(s) && NoLeadingSpace(s)
    ensures ComputeThreadId(Some(ReplySubject(s, forward))) == ComputeThreadId(Some(s))
  {
    var r := ReplySubject(s, forward);
    StripOfReply(s, forward);
    assert OrElse(Some(r), "") == r;
    assert OrElse(Some(s), "") == s;
    assert StripReplyPrefix(OrElse(Some(r), "")) == StripReplyPrefix(OrElse(Some(s), ""));
  }

  /** Stripping the composer's own prefix gives back an unprefixed original. */
  lemma StripOfReply(s: string, forward: bool)
    requires !HasReplyPrefix(s) && NoLeadingSpace(s)
    ensures StripReplyPrefix(ReplySubject(s, forward)) == s
  {
    var word := if forward then "Fwd" else "Re";
    var reply := ReplySubject(s, forward);
    assert reply == word + ":" + (" " + s);
    StripOnce(word, " " + s);
    SkipOneSpace(s);
  }

  /** The composer's subject for a reply (`Re: `) or a forward (`Fwd: `). */
  function ReplySubject(original: string, forward: bool): string {
    (if forward then "Fwd: " else "Re: ") + StripReplyPrefix(original)
  }

  /** A string that does not start with white space. */
  predicate NoLeadingSpace(s: string) {
    s == [] || !IsSpace(s[0])
  }

  lemma StripHasNoLeadingSpace(s: string)
    requires NoLeadingSpace(s)
    ensures NoLeadingSpace(StripReplyPrefix(s))
  {
  }

  /** Prefixes never stack: replying to (or forwarding) a reply keeps exactly one prefix. */
  lemma {:induction false} PrefixesDoNotStack(original: string, forward: bool)
    requires NoLeadingSpace(original)
    ensures ReplySubject(ReplySubject(original, false), forward) == ReplySubject(original, forward)
    ensures ReplySubject(ReplySubject(original, true), forward) == ReplySubject(original, forward)
  {
    var s := StripReplyPrefix(original);
    StripHasNoLeadingSpace(original);
    assert "Re: " + s == "Re" + ":" + (" " + s);
    assert "Fwd: " + s == "Fwd" + ":" + (" " + s);
    StripOnce("Re", " " + s);
    StripOnce("Fwd", " " + s);
    assert TrimStart(" " + s) == TrimStart(s);
    assert TrimStart(s) == s;
  }

  /** With a prefix word in front, a reply gets "Re: " and a forward "Fwd: " in its place: "Re: Budget" gives "Re: Budget" and "Fwd: Budget", and "Re: Re: X" gives "Re: Re: X". */
  lemma ReplyToPrefixed(word: string, rest: string)
    requires word == "Re" || word == "Fwd" || word == "Fw"
    ensures ReplySubject(word + ":" + rest, false) == "Re: " + TrimStart(rest)
    ensures ReplySubject(word + ":" + rest, true) == "Fwd: " + TrimStart(rest)
  {
    StripOnce(word, rest);
  }

  lemma SkipOneSpace(s: string)
    requires NoLeadingSpace(s)
    ensures TrimStart(" " + s) == s
  {
    assert (" " + s)[1..] == s;
  }
}

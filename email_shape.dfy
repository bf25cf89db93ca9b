/**
 * The endpoint's e-mail check `isEmail`: the regular expression
 * /^[^\s@]+@[^\s@]+\.[^\s@]+$/, a simplified local@domain.tld shape rather
 * than the addr-spec of section 3.4.1 of RFC 5322.
 */
module EmailShape {
  import opened JsValues

  /** A character of the class `[^\s@]`. */
  predicate Plain(c: char)
  {
    !IsWhitespace(c) && c != '@'
  }

  /**
   * The pattern matches `s` with its `@` at index `at` and its literal `.` at
   * index `dot`: three non-empty runs of `[^\s@]` around them.
   */
  ghost predicate MatchesAt(s: string, at: int, dot: int)
  {
    && 0 < at && at + 1 < dot && dot + 1 < |s|
    && s[at] == '@' && s[dot] == '.'
    && forall k :: 0 <= k < |s| && k != at ==> Plain(s[k])
  }

  /** The regular expression matches `s` (some way of placing its `@` and `.`). */
  ghost predicate EmailPattern(s: string)
  {
    exists at, dot :: MatchesAt(s, at, dot)
  }

  /**
   * isEmail, checked directly: the first `@` is not at the front, no
   * character is white space, no other `@` follows, and the domain after the
   * `@` holds a `.` with at least one character on each side.
   */
  function IsEmail(s: string): bool
  {
    var at := IndexOfAny(s, {'@'});
    && 0 < at && at + 4 <= |s|
    && (forall k :: 0 <= k < |s| ==> !IsWhitespace(s[k]))
    && '@' !in s[at + 1..]
    && '.' in s[at + 2..|s| - 1]
  }

  /** The direct check accepts exactly the strings the regular expression matches. */
  lemma IsEmailMatchesPattern(s: string)
    ensures IsEmail(s) <==> EmailPattern(s)
  {
    var at := IndexOfAny(s, {'@'});
    IndexOfAnyFirst(s, {'@'});
    if IsEmail(s) {
      var domain := s[at + 2..|s| - 1];
      var i :| 0 <= i < |domain| && domain[i] == '.';
      var dot := at + 2 + i;
      assert s[dot] == '.';
      forall k | 0 <= k < |s| && k != at ensures Plain(s[k]) {
        if k > at {
          assert s[k] == s[at + 1..][k - at - 1];
        }
      }
      assert MatchesAt(s, at, dot);
    }
    if EmailPattern(s) {
      var a, d :| MatchesAt(s, a, d);
      assert at == a by {
        assert s[a] in {'@'};
        assert at < |s| && s[at] == '@';
      }
      assert forall k :: at + 1 <= k < |s| ==> s[k] != '@';
      assert '@' !in s[at + 1..];
      assert s[at + 2..|s| - 1][d - at - 2] == '.';
    }
  }
}

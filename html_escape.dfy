/**
 * `escapeHtml`: five chained `replaceAll` calls that turn `&`, `<`, `>`, `"`
 * and `'` into the entities `&amp;`, `&lt;`, `&gt;`, `&quot;` and `&#39;`,
 * with `&` replaced first.
 */
module HtmlEscape {

  /** `s.replaceAll(c, replacement)` for a one-character pattern. */
  function ReplaceAll(s: string, c: char, replacement: string): string
  {
    if s == [] then [] else (if s[0] == c then replacement else [s[0]]) + ReplaceAll(s[1..], c, replacement)
  }

  /** escapeHtml, as the chain of replacements the endpoint writes. */
  function EscapeHtml(v: string): string
  {
    ReplaceAll(ReplaceAll(ReplaceAll(ReplaceAll(ReplaceAll(v,
      '&', "&amp;"), '<', "&lt;"), '>', "&gt;"), '"', "&quot;"), '\'', "&#39;")
  }

  /** The characters that could open markup or end an attribute value. */
  predicate Special(c: char)
  {
    c == '&' || c == '<' || c == '>' || c == '"' || c == '\''
  }

  /** The entity for one character; any other character stands for itself. */
  function EscapeChar(c: char): string
  {
    match c
    case '&' => "&amp;"
    case '<' => "&lt;"
    case '>' => "&gt;"
    case '"' => "&quot;"
    case '\'' => "&#39;"
    case _ => [c]
  }

  /** A reference escape that looks at every input character exactly once. */
  function EscapeEach(v: string): string
  {
    if v == [] then [] else EscapeChar(v[0]) + EscapeEach(v[1..])
  }

  /** Decodes the five entities back to their characters, left to right. */
  function Unescape(s: string): string
  {
    if s == [] then []
    else if |s| >= 5 && s[..5] == "&amp;" then ['&'] + Unescape(s[5..])
    else if |s| >= 4 && s[..4] == "&lt;" then ['<'] + Unescape(s[4..])
    else if |s| >= 4 && s[..4] == "&gt;" then ['>'] + Unescape(s[4..])
    else if |s| >= 6 && s[..6] == "&quot;" then ['"'] + Unescape(s[6..])
    else if |s| >= 5 && s[..5] == "&#39;" then ['\''] + Unescape(s[5..])
    else [s[0]] + Unescape(s[1..])
  }

  /** Replacing in a concatenation replaces in each part. */
  lemma {:induction false} ReplaceAllAppend(a: string, b: string, c: char, replacement: string)
    ensures ReplaceAll(a + b, c, replacement) == ReplaceAll(a, c, replacement) + ReplaceAll(b, c, replacement)
  {
    if a != [] {
      assert (a + b)[0] == a[0] && (a + b)[1..] == a[1..] + b;
      ReplaceAllAppend(a[1..], b, c, replacement);
    } else {
      assert a + b == b;
    }
  }

  /** A string without the pattern character comes back unchanged. */
  lemma {:induction false} ReplaceAllAbsent(s: string, c: char, replacement: string)
    requires c !in s
    ensures ReplaceAll(s, c, replacement) == s
  {
    if s != [] {
      ReplaceAllAbsent(s[1..], c, replacement);
    }
  }

  /** The chain of replacements distributes over concatenation. */
  lemma EscapeHtmlAppend(a: string, b: string)
    ensures EscapeHtml(a + b) == EscapeHtml(a) + EscapeHtml(b)
  {
    var a1, b1 := ReplaceAll(a, '&', "&amp;"), ReplaceAll(b, '&', "&amp;");
    ReplaceAllAppend(a, b, '&', "&amp;");
    var a2, b2 := ReplaceAll(a1, '<', "&lt;"), ReplaceAll(b1, '<', "&lt;");
    ReplaceAllAppend(a1, b1, '<', "&lt;");
    var a3, b3 := ReplaceAll(a2, '>', "&gt;"), ReplaceAll(b2, '>', "&gt;");
    ReplaceAllAppend(a2, b2, '>', "&gt;");
    var a4, b4 := ReplaceAll(a3, '"', "&quot;"), ReplaceAll(b3, '"', "&quot;");
    ReplaceAllAppend(a3, b3, '"', "&quot;");
    ReplaceAllAppend(a4, b4, '\'', "&#39;");
  }

  /** Replacing in a one-character string. */
  lemma ReplaceAllSingle(c: char, pattern: char, replacement: string)
    ensures ReplaceAll([c], pattern, replacement) == if c == pattern then replacement else [c]
  {
    assert [c][1..] == [];
  }

  /** The last four replacements leave a string without their pattern characters alone. */
  lemma LaterStepsKeep(s: string)
    requires '<' !in s && '>' !in s && '"' !in s && '\'' !in s
    ensures ReplaceAll(ReplaceAll(ReplaceAll(ReplaceAll(s, '<', "&lt;"), '>', "&gt;"), '"', "&quot;"), '\'', "&#39;") == s
  {
    ReplaceAllAbsent(s, '<', "&lt;");
    ReplaceAllAbsent(s, '>', "&gt;");
    ReplaceAllAbsent(s, '"', "&quot;");
    ReplaceAllAbsent(s, '\'', "&#39;");
  }

  /** Each special character, alone, becomes its entity and nothing more. */
  lemma EscapeAmpersand()
    ensures EscapeHtml("&") == "&amp;"
  {
    ReplaceAllSingle('&', '&', "&amp;");
    LaterStepsKeep("&amp;");
  }

  lemma EscapeLessThan()
    ensures EscapeHtml("<") == "&lt;"
  {
    ReplaceAllSingle('<', '&', "&amp;");
    ReplaceAllSingle('<', '<', "&lt;");
    ReplaceAllAbsent("&lt;", '>', "&gt;");
    ReplaceAllAbsent("&lt;", '"', "&quot;");
    ReplaceAllAbsent("&lt;", '\'', "&#39;");
  }

  lemma EscapeGreaterThan()
    ensures EscapeHtml(">") == "&gt;"
  {
    ReplaceAllSingle('>', '&', "&amp;");
    ReplaceAllSingle('>', '<', "&lt;");
    ReplaceAllSingle('>', '>', "&gt;");
    ReplaceAllAbsent("&gt;", '"', "&quot;");
    ReplaceAllAbsent("&gt;", '\'', "&#39;");
  }

  lemma EscapeQuote()
    ensures EscapeHtml("\"") == "&quot;"
  {
    ReplaceAllSingle('"', '&', "&amp;");
    ReplaceAllSingle('"', '<', "&lt;");
    ReplaceAllSingle('"', '>', "&gt;");
    ReplaceAllSingle('"', '"', "&quot;");
    ReplaceAllAbsent("&quot;", '\'', "&#39;");
  }

  lemma EscapeApostrophe()
    ensures EscapeHtml("'") == "&#39;"
  {
    ReplaceAllSingle('\'', '&', "&amp;");
    ReplaceAllSingle('\'', '<', "&lt;");
    ReplaceAllSingle('\'', '>', "&gt;");
    ReplaceAllSingle('\'', '"', "&quot;");
    ReplaceAllSingle('\'', '\'', "&#39;");
  }

  /** On one character the chain yields exactly that character's entity: no entity is escaped twice. */
  lemma EscapeHtmlChar(c: char)
    ensures EscapeHtml([c]) == EscapeChar(c)
  {
    match c
    case '&' => EscapeAmpersand();
    case '<' => EscapeLessThan();
    case '>' => EscapeGreaterThan();
    case '"' => EscapeQuote();
    case '\'' => EscapeApostrophe();
    case _ =>
      ReplaceAllAbsent([c], '&', "&amp;");
      LaterStepsKeep([c]);
  }

  /**
   * Because `&` is replaced first, the chain escapes every input character
   * exactly once, as the one-pass reference does.
   */
  lemma {:induction false} EscapeHtmlIsPerCharacter(v: string)
    ensures EscapeHtml(v) == EscapeEach(v)
  {
    if v != [] {
      assert v == [v[0]] + v[1..];
      EscapeHtmlAppend([v[0]], v[1..]);
      EscapeHtmlChar(v[0]);
      EscapeHtmlIsPerCharacter(v[1..]);
    }
  }

  /** A character that opens no entity decodes to itself. */
  lemma UnescapePlainHead(c: char, rest: string)
    requires c != '&'
    ensures Unescape([c] + rest) == [c] + Unescape(rest)
  {
    var s := [c] + rest;
    assert s[0] == c && s[1..] == rest;
    assert |s| >= 4 ==> s[..4][0] == c;
    assert |s| >= 5 ==> s[..5][0] == c;
    assert |s| >= 6 ==> s[..6][0] == c;
  }

  /** An entity at the front decodes to its character, and decoding goes on after it. */
  lemma UnescapeEntityHead(c: char, rest: string)
    requires Special(c)
    ensures Unescape(EscapeChar(c) + rest) == [c] + Unescape(rest)
  {
    var e := EscapeChar(c);
    var s := e + rest;
    assert s[..|e|] == e && s[|e|..] == rest;
    assert s[1] == e[1];
    assert |s| >= 5 ==> s[..5][1] == e[1];
    assert |s| >= 4 ==> s[..4][1] == e[1];
    assert |s| >= 6 ==> s[..6][1] == e[1];
    if c == '>' {
      assert s[..4][1] == 'g';
    }
  }

  /** Decoding the entities restores the escaped text. */
  lemma {:induction false} UnescapeEscapeEach(v: string)
    ensures Unescape(EscapeEach(v)) == v
  {
    if v != [] {
      var c, rest := v[0], EscapeEach(v[1..]);
      assert EscapeEach(v) == EscapeChar(c) + rest;
      UnescapeEscapeEach(v[1..]);
      if Special(c) {
        UnescapeEntityHead(c, rest);
      } else {
        UnescapePlainHead(c, rest);
      }
      assert v == [c] + v[1..];
    }
  }

  /** Round trip: decoding the five entities in escapeHtml's output gives back its input. */
  lemma UnescapeEscapeHtml(v: string)
    ensures Unescape(EscapeHtml(v)) == v
  {
    EscapeHtmlIsPerCharacter(v);
    UnescapeEscapeEach(v);
  }

  /** Every character of the one-pass escape is either not special or the `&` that opens an entity. */
  lemma {:induction false} EscapeEachHasNoMarkup(v: string)
    ensures forall k :: 0 <= k < |EscapeEach(v)| ==> !Special(EscapeEach(v)[k]) || EscapeEach(v)[k] == '&'
  {
    if v != [] {
      EscapeEachHasNoMarkup(v[1..]);
      var e, rest := EscapeChar(v[0]), EscapeEach(v[1..]);
      assert EscapeEach(v) == e + rest;
      forall k | 0 <= k < |e + rest| ensures !Special((e + rest)[k]) || (e + rest)[k] == '&' {
        if k >= |e| { assert (e + rest)[k] == rest[k - |e|]; }
      }
    }
  }

  /** escapeHtml's output contains none of `<`, `>`, `"` and `'`. */
  lemma EscapeHtmlHasNoMarkup(v: string)
    ensures forall k :: 0 <= k < |EscapeHtml(v)| ==> EscapeHtml(v)[k] !in {'<', '>', '"', '\''}
  {
    EscapeHtmlIsPerCharacter(v);
    EscapeEachHasNoMarkup(v);
  }

  /** Text with none of the five characters passes through escapeHtml unchanged. */
  lemma EscapeHtmlOfPlainText(v: string)
    requires forall k :: 0 <= k < |v| ==> !Special(v[k])
    ensures EscapeHtml(v) == v
  {
    ReplaceAllAbsent(v, '&', "&amp;");
    ReplaceAllAbsent(v, '<', "&lt;");
    ReplaceAllAbsent(v, '>', "&gt;");
    ReplaceAllAbsent(v, '"', "&quot;");
    ReplaceAllAbsent(v, '\'', "&#39;");
  }
}

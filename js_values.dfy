/**
 * The slice of JavaScript's value semantics that the intake endpoint relies on:
 * numbers and `Number(string)`, truthiness, parsed JSON values, whitespace,
 * `String.prototype.trim` and the UTF-16 `length` of a string.
 */
module JsValues {
  import opened Wrappers

  /**
   * A JavaScript number. Finite values are kept as exact reals; rounding to
   * IEEE-754 doubles is not modelled.
   */
  datatype Number = Finite(value: real) | PosInfinity | NegInfinity | NaN

  /** ToBoolean on a number: 0, -0 and NaN are falsy, everything else truthy. */
  predicate NumberTruthy(n: Number)
  {
    match n
    case Finite(v) => v != 0.0
    case NaN => false
    case _ => true
  }

  /** The comparison `n > bound`; NaN compares false with everything. */
  predicate GreaterThan(n: Number, bound: real)
  {
    match n
    case Finite(v) => v > bound
    case PosInfinity => true
    case _ => false
  }

  /** A value produced by `JSON.parse` (numbers that overflow become infinities). */
  datatype Json =
    | JNull
    | JBool(b: bool)
    | JNumber(n: Number)
    | JString(s: string)
    | JArray(items: seq<Json>)
    | JObject(fields: map<string, Json>)

  /** `typeof v === "object" && v !== null`: arrays are objects too. */
  predicate IsObject(v: Json)
  {
    v.JObject? || v.JArray?
  }

  /**
   * The property access `v[key]` for a key that is neither an array index nor
   * `length` (every key the endpoint reads is a plain name); `undefined` is None.
   */
  function Property(v: Json, key: string): Option<Json>
  {
    if v.JObject? && key in v.fields then Some(v.fields[key]) else None
  }

  /** ToBoolean on a JSON value, as `Boolean(x)` or `if (x)` evaluates it. */
  predicate Truthy(v: Json)
  {
    match v
    case JNull => false
    case JBool(b) => b
    case JNumber(n) => NumberTruthy(n)
    case JString(s) => s != ""
    case _ => true
  }

  /** A configuration value, header or token counts only when it is set and not "" (JavaScript truthiness). */
  predicate Present(v: Option<string>)
  {
    v.Some? && v.value != ""
  }

  /**
   * The characters `String.prototype.trim`, `Number(string)` and the regular
   * expression class `\s` treat as white space: WhiteSpace and LineTerminator
   * of ECMAScript, including every space separator of Unicode category Zs.
   */
  predicate IsWhitespace(c: char)
  {
    c == '\t' || c == '\n' || c == '\U{000B}' || c == '\U{000C}' || c == '\r' || c == ' '
    || c == '\U{00A0}' || c == '\U{1680}' || ('\U{2000}' <= c <= '\U{200A}')
    || c == '\U{2028}' || c == '\U{2029}' || c == '\U{202F}' || c == '\U{205F}'
    || c == '\U{3000}' || c == '\U{FEFF}'
  }

  /** Drops the white space at the front of `s`. */
  function TrimStart(s: string): string
  {
    if s != [] && IsWhitespace(s[0]) then TrimStart(s[1..]) else s
  }

  /** Drops the white space at the back of `s`. */
  function TrimEnd(s: string): string
  {
    if s != [] && IsWhitespace(s[|s| - 1]) then TrimEnd(s[..|s| - 1]) else s
  }

  /** `s.trim()`. */
  function Trim(s: string): string
  {
    TrimEnd(TrimStart(s))
  }

  /** TrimStart removes a prefix of white space and stops at the first other character. */
  lemma {:induction false} TrimStartShape(s: string)
    ensures |TrimStart(s)| <= |s| && TrimStart(s) == s[|s| - |TrimStart(s)|..]
    ensures forall k :: 0 <= k < |s| - |TrimStart(s)| ==> IsWhitespace(s[k])
    ensures TrimStart(s) == [] || !IsWhitespace(TrimStart(s)[0])
  {
    if s != [] && IsWhitespace(s[0]) {
      TrimStartShape(s[1..]);
      forall k | 1 <= k < |s| - |TrimStart(s)| ensures IsWhitespace(s[k]) {
        assert s[k] == s[1..][k - 1];
      }
    }
  }

  /** TrimEnd removes a suffix of white space and stops at the last other character. */
  lemma {:induction false} TrimEndShape(s: string)
    ensures |TrimEnd(s)| <= |s| && TrimEnd(s) == s[..|TrimEnd(s)|]
    ensures forall k :: |TrimEnd(s)| <= k < |s| ==> IsWhitespace(s[k])
    ensures TrimEnd(s) == [] || !IsWhitespace(TrimEnd(s)[|TrimEnd(s)| - 1])
  {
    if s != [] && IsWhitespace(s[|s| - 1]) {
      TrimEndShape(s[..|s| - 1]);
      forall k | |TrimEnd(s)| <= k < |s| - 1 ensures IsWhitespace(s[k]) {
        assert s[k] == s[..|s| - 1][k];
      }
    }
  }

  /** The trimmed string keeps no white space at either end. */
  lemma TrimEnds(s: string)
    ensures Trim(s) == [] || (!IsWhitespace(Trim(s)[0]) && !IsWhitespace(Trim(s)[|Trim(s)| - 1]))
  {
    var t := TrimStart(s);
    TrimStartShape(s);
    TrimEndShape(t);
    if Trim(s) != [] {
      assert Trim(s)[0] == t[0];
    }
  }

  /** Trimming yields "" exactly when the string is all white space. */
  lemma TrimEmpty(s: string)
    ensures Trim(s) == [] <==> forall k :: 0 <= k < |s| ==> IsWhitespace(s[k])
  {
    var t := TrimStart(s);
    var i := |s| - |t|;
    TrimStartShape(s);
    TrimEndShape(t);
    TrimEnds(s);
    assert Trim(s) != [] ==> i < |s| && Trim(s)[0] == s[i];
  }

  /** Trimming twice changes nothing more than trimming once. */
  lemma TrimIdempotent(s: string)
    ensures Trim(Trim(s)) == Trim(s)
  {
    TrimEnds(s);
    TrimOfTrimmed(Trim(s));
  }

  /** A string with no white space at either end is its own trim. */
  lemma TrimOfTrimmed(s: string)
    requires s == [] || (!IsWhitespace(s[0]) && !IsWhitespace(s[|s| - 1]))
    ensures Trim(s) == s
  {
    if s != [] {
      assert TrimStart(s) == s;
    }
  }

  /** The JavaScript `length` of a string: UTF-16 code units, two for a character above U+FFFF. */
  function Utf16Length(s: string): (n: nat)
    ensures |s| <= n <= 2 * |s|
    ensures n == 0 <==> s == []
  {
    if s == [] then 0 else (if s[0] as int > 0xFFFF then 2 else 1) + Utf16Length(s[1..])
  }

  /** The value of `c` as a digit, in any base up to 16; 16 for a character that is no digit. */
  function DigitValue(c: char): (d: nat)
    ensures d <= 16
  {
    if '0' <= c <= '9' then c as int - '0' as int
    else if 'a' <= c <= 'f' then c as int - 'a' as int + 10
    else if 'A' <= c <= 'F' then c as int - 'A' as int + 10
    else 16
  }

  predicate AllDigits(s: string, base: nat)
  {
    forall k :: 0 <= k < |s| ==> DigitValue(s[k]) < base
  }

  /** The value of the digit string `s` read in `base`, most significant digit first. */
  function DigitsValue(s: string, base: nat): nat
  {
    if s == [] then 0 else DigitsValue(s[..|s| - 1], base) * base + DigitValue(s[|s| - 1])
  }

  function Pow10(e: nat): (p: nat)
    ensures p >= 1
  {
    if e == 0 then 1 else 10 * Pow10(e - 1)
  }

  /** `v` times ten to the power `e`. */
  function Scale(v: real, e: int): real
  {
    if e >= 0 then v * Pow10(e) as real else v / Pow10(-e) as real
  }

  /** The index of the first character of `s` that is in `cs`, or `|s|` when there is none. */
  function IndexOfAny(s: string, cs: set<char>): (i: nat)
    ensures i <= |s|
  {
    if s == [] then 0 else if s[0] in cs then 0 else 1 + IndexOfAny(s[1..], cs)
  }

  /** The index found is the first at which a character of `cs` occurs. */
  lemma {:induction false} IndexOfAnyFirst(s: string, cs: set<char>)
    ensures forall k :: 0 <= k < IndexOfAny(s, cs) ==> s[k] !in cs
    ensures IndexOfAny(s, cs) < |s| ==> s[IndexOfAny(s, cs)] in cs
  {
    if s != [] && s[0] !in cs {
      IndexOfAnyFirst(s[1..], cs);
      forall k | 1 <= k < IndexOfAny(s, cs) ensures s[k] !in cs {
        assert s[k] == s[1..][k - 1];
      }
    }
  }

  /** An exponent: an optional sign and at least one decimal digit. */
  function SignedInteger(s: string): Option<int>
  {
    var digits := if s != [] && (s[0] == '+' || s[0] == '-') then s[1..] else s;
    if digits != [] && AllDigits(digits, 10) then
      var n: int := DigitsValue(digits, 10);
      Some(if s[0] == '-' then -n else n)
    else None
  }

  /**
   * An unsigned StrUnsignedDecimalLiteral other than `Infinity`: digits with
   * an optional `.` and fraction (at least one digit in all) and an optional
   * exponent introduced by `e` or `E`.
   */
  function UnsignedDecimal(u: string): Option<real>
  {
    var k := IndexOfAny(u, {'e', 'E'});
    var mantissa := u[..k];
    var exponent := if k == |u| then Some(0) else SignedInteger(u[k + 1..]);
    var d := IndexOfAny(mantissa, {'.'});
    var whole := mantissa[..d];
    var fraction := if d < |mantissa| then mantissa[d + 1..] else [];
    if AllDigits(whole, 10) && AllDigits(fraction, 10) && |whole| + |fraction| > 0 && exponent.Some? then
      Some(Scale(DigitsValue(whole + fraction, 10) as real / Pow10(|fraction|) as real, exponent.value))
    else None
  }

  /** A hexadecimal, octal or binary literal after its `0x`, `0o` or `0b` prefix. */
  function NonDecimal(digits: string, base: nat): Number
  {
    if digits != [] && AllDigits(digits, base) then Finite(DigitsValue(digits, base) as real) else NaN
  }

  /** StringToNumber on text that is already trimmed and not empty. */
  function NumericLiteral(t: string): Number
    requires t != []
  {
    if |t| >= 2 && t[0] == '0' && (t[1] == 'x' || t[1] == 'X') then NonDecimal(t[2..], 16)
    else if |t| >= 2 && t[0] == '0' && (t[1] == 'o' || t[1] == 'O') then NonDecimal(t[2..], 8)
    else if |t| >= 2 && t[0] == '0' && (t[1] == 'b' || t[1] == 'B') then NonDecimal(t[2..], 2)
    else
      var negative := t[0] == '-';
      var u := if t[0] == '+' || t[0] == '-' then t[1..] else t;
      if u == "Infinity" then (if negative then NegInfinity else PosInfinity)
      else match UnsignedDecimal(u)
        case Some(v) => Finite(if negative then -v else v)
        case None => NaN
  }

  /** `Number(s)` for a string `s`: white space around the literal is ignored and "" is 0. */
  function ToNumber(s: string): Number
  {
    var t := Trim(s);
    if t == [] then Finite(0.0) else NumericLiteral(t)
  }

  /** No digit of any base is white space. */
  lemma DigitIsNotWhitespace(c: char)
    requires DigitValue(c) < 16
    ensures !IsWhitespace(c)
  {
  }

  /** When no character of `cs` occurs, the search runs to the end. */
  lemma {:induction false} IndexOfAnyAbsent(s: string, cs: set<char>)
    requires forall k :: 0 <= k < |s| ==> s[k] !in cs
    ensures IndexOfAny(s, cs) == |s|
  {
    if s != [] {
      assert forall k :: 0 <= k < |s[1..]| ==> s[1..][k] == s[k + 1];
      IndexOfAnyAbsent(s[1..], cs);
    }
  }

  /** Digits alone, with no point and no exponent, read as their decimal value. */
  lemma UnsignedDecimalOfDigits(s: string)
    requires s != [] && AllDigits(s, 10)
    ensures UnsignedDecimal(s) == Some(DigitsValue(s, 10) as real)
  {
    assert forall j :: 0 <= j < |s| ==> DigitValue(s[j]) < 10;
    IndexOfAnyAbsent(s, {'e', 'E'});
    IndexOfAnyAbsent(s, {'.'});
    assert s[..|s|] == s;
    assert s + [] == s;
    assert Pow10(0) == 1;
    var v := DigitsValue(s, 10) as real;
    assert Scale(v / 1.0, 0) == v;
  }

  /** A non-empty string of decimal digits converts to the number it spells. */
  lemma ToNumberOfDigits(s: string)
    requires s != [] && AllDigits(s, 10)
    ensures ToNumber(s) == Finite(DigitsValue(s, 10) as real)
  {
    DigitIsNotWhitespace(s[0]);
    DigitIsNotWhitespace(s[|s| - 1]);
    TrimOfTrimmed(s);
    assert ToNumber(s) == NumericLiteral(s);
    assert DigitValue(s[0]) < 10;
    var prefixed := |s| >= 2 && s[0] == '0' && s[1] in {'x', 'X', 'o', 'O', 'b', 'B'};
    assert !prefixed by {
      if |s| >= 2 { assert DigitValue(s[1]) < 10; }
    }
    assert s[0] != '+' && s[0] != '-';
    assert s != "Infinity" by { assert s[0] != 'I'; }
    UnsignedDecimalOfDigits(s);
  }

  /** A decimal fraction converts to its exact value: "18.5" is 18.5. */
  lemma ToNumberOfFraction()
    ensures ToNumber("18.5") == Finite(18.5)
  {
    var s := "18.5";
    DigitIsNotWhitespace(s[0]);
    DigitIsNotWhitespace(s[3]);
    TrimOfTrimmed(s);
    assert IndexOfAny(s, {'e', 'E'}) == 4;
    assert s[..4] == s;
    assert IndexOfAny(s, {'.'}) == 2;
    assert s[..2] == "18" && s[3..] == "5";
    assert "18" + "5" == "185";
    assert DigitsValue("185", 10) == 185 by {
      assert "185"[..2] == "18" && "18"[..1] == "1" && "1"[..0] == [];
    }
  }
}

/**
 * The pieces of Go's `fmt` package that the line-protocol serialiser relies on:
 * `%d` on integers, `%f` on floats and `%q` on strings, each paired with the
 * decoder that inverts it.
 */
module GoFmt {
  import opened Wrappers

  // ---------------------------------------------------------------------------
  // Digits and numerals
  // ---------------------------------------------------------------------------

  /** The digit for d in any base up to 16, lower-case as Go prints it. */
  function DigitChar(d: nat): (c: char)
    requires d < 16
  {
    if d < 10 then (48 + d) as char else (87 + d) as char
  }

  predicate IsDigit(c: char) { '0' <= c <= '9' }

  predicate IsHexDigit(c: char) { '0' <= c <= '9' || 'a' <= c <= 'f' || 'A' <= c <= 'F' }

  predicate AllDigits(s: string) { forall i :: 0 <= i < |s| ==> IsDigit(s[i]) }

  predicate AllHexDigits(s: string) { forall i :: 0 <= i < |s| ==> IsHexDigit(s[i]) }

  function DigitValue(c: char): (d: nat)
    requires IsHexDigit(c)
    ensures d < 16
  {
    if c <= '9' then c as int - 48 else if c <= 'F' then c as int - 55 else c as int - 87
  }

  function Pow(base: nat, k: nat): nat
  {
    if k == 0 then 1 else base * Pow(base, k - 1)
  }

  /** The digits of n in base 10, most significant first, without leading zeros. */
  function Digits(n: nat): (s: string)
    ensures 0 < |s| && AllDigits(s)
  {
    if n < 10 then [DigitChar(n)] else Digits(n / 10) + [DigitChar(n % 10)]
  }

  /** The w lowest digits of n in the given base, zero-padded on the left. */
  function Padded(n: nat, w: nat, base: nat): (s: string)
    requires 2 <= base <= 16
    ensures |s| == w && AllHexDigits(s)
    ensures base <= 10 ==> AllDigits(s)
  {
    if w == 0 then [] else Padded(n / base, w - 1, base) + [DigitChar(n % base)]
  }

  /** The number that a string of digits denotes in the given base. */
  function NumeralValue(s: string, base: nat): nat
    requires AllHexDigits(s)
  {
    if s == [] then 0 else NumeralValue(s[..|s| - 1], base) * base + DigitValue(s[|s| - 1])
  }

  lemma DigitRoundTrip(d: nat)
    requires d < 16
    ensures IsHexDigit(DigitChar(d)) && DigitValue(DigitChar(d)) == d
  {
  }

  lemma {:induction false} DigitsRoundTrip(n: nat)
    ensures NumeralValue(Digits(n), 10) == n
  {
    if n >= 10 {
      var s := Digits(n);
      assert s[..|s| - 1] == Digits(n / 10);
      DigitsRoundTrip(n / 10);
      DigitRoundTrip(n % 10);
    } else {
      DigitRoundTrip(n);
    }
  }

  lemma {:induction false} PaddedRoundTrip(n: nat, w: nat, base: nat)
    requires 2 <= base <= 16 && n < Pow(base, w)
    ensures NumeralValue(Padded(n, w, base), base) == n
    decreases w
  {
    if w > 0 {
      var s := Padded(n, w, base);
      var q, r := n / base, n % base;
      var front := Padded(q, w - 1, base);
      assert s == front + [DigitChar(r)];
      assert s[..w - 1] == front;
      var p := Pow(base, w - 1);
      assert Pow(base, w) == base * p;
      QuotientBound(n, base, p);
      assert q < p;
      PaddedRoundTrip(q, w - 1, base);
      DigitRoundTrip(r);
      DivMod(n, base);
      assert NumeralValue(s, base) == q * base + r;
    } else {
      assert n == 0;
    }
  }

  lemma DivMod(n: nat, base: nat)
    requires 0 < base
    ensures n == (n / base) * base + n % base
  {
  }

  lemma QuotientBound(n: nat, base: nat, p: nat)
    requires 0 < base && n < base * p
    ensures n / base < p
  {
    var q := n / base;
    assert base * q <= n;
  }

  // ---------------------------------------------------------------------------
  // %d
  // ---------------------------------------------------------------------------

  /** Go's `%d`: a minus sign for negative numbers, then the decimal digits. */
  function Decimal(n: int): (s: string)
    ensures 0 < |s|
    ensures s[0] == '-' <==> n < 0
    ensures AllDigits(if n < 0 then s[1..] else s)
  {
    if n < 0 then "-" + Digits(-n) else Digits(n)
  }

  /** Reads back what `%d` prints. */
  function ParseDecimal(s: string): Option<int>
  {
    if 1 < |s| && s[0] == '-' && AllDigits(s[1..]) then Some(-(NumeralValue(s[1..], 10) as int))
    else if 0 < |s| && AllDigits(s) then Some(NumeralValue(s, 10))
    else None
  }

  lemma DecimalRoundTrip(n: int)
    ensures ParseDecimal(Decimal(n)) == Some(n)
  {
    if n < 0 {
      NegativeRoundTrip(-n);
    } else {
      DigitsRoundTrip(n);
      assert ParseDecimal(Digits(n)) == Some(NumeralValue(Digits(n), 10));
    }
  }

  lemma NegativeRoundTrip(m: nat)
    requires 0 < m
    ensures ParseDecimal("-" + Digits(m)) == Some(-(m as int))
  {
    var digits := Digits(m);
    var s := "-" + digits;
    assert s[1..] == digits;
    DigitsRoundTrip(m);
  }

  // ---------------------------------------------------------------------------
  // %q (strconv.Quote)
  // ---------------------------------------------------------------------------

  /**
   * Go's `strconv.IsPrint`. Up to U+00FF the table is fixed (printable ASCII,
   * and Latin-1 from U+00A1 except the soft hyphen U+00AD); above that it is
   * Unicode's, passed in as `widePrint`.
   */
  predicate IsPrint(c: char, widePrint: char -> bool)
  {
    if c as int <= 0xFF then 0x20 <= c as int <= 0x7E || (0xA1 <= c as int && c as int != 0xAD)
    else widePrint(c)
  }

  /** How `%q` writes one character inside the quotes. */
  function EscapeRune(c: char, widePrint: char -> bool): string
  {
    if c == '"' || c == '\\' then ['\\', c]
    else if IsPrint(c, widePrint) then [c]
    else if c as int == 7 then "\\a"
    else if c as int == 8 then "\\b"
    else if c as int == 12 then "\\f"
    else if c == '\n' then "\\n"
    else if c == '\r' then "\\r"
    else if c == '\t' then "\\t"
    else if c as int == 11 then "\\v"
    else if c as int < 0x20 || c as int == 0x7F then "\\x" + Padded(c as int, 2, 16)
    else if c as int < 0x10000 then "\\u" + Padded(c as int, 4, 16)
    else "\\U" + Padded(c as int, 8, 16)
  }

  function Escaped(s: string, widePrint: char -> bool): string
  {
    if s == [] then [] else EscapeRune(s[0], widePrint) + Escaped(s[1..], widePrint)
  }

  /** Go's `%q` on a string: `strconv.Quote`. */
  function Quote(s: string, widePrint: char -> bool): (q: string)
    ensures 2 <= |q| && q[0] == '"' && q[|q| - 1] == '"'
  {
    "\"" + Escaped(s, widePrint) + "\""
  }

  /** The one-letter escapes `\a \b \f \n \r \t \v \\ \"` and what they stand for. */
  const SimpleEscapes: map<char, char> :=
    map['a' := 7 as char, 'b' := 8 as char, 'f' := 12 as char, 'n' := '\n', 'r' := '\r',
        't' := '\t', 'v' := 11 as char, '\\' := '\\', '"' := '"']

  predicate IsScalar(v: int) { 0 <= v < 0xD800 || 0xE000 <= v < 0x11_0000 }

  function Prepend(c: char, rest: Option<string>): Option<string>
  {
    match rest
    case Some(s) => Some([c] + s)
    case None => None
  }

  /**
   * Reads back the inside of a `%q` literal, as `strconv.Unquote` does for
   * the escapes `%q` writes: one-letter escapes, `\xHH` below 0x80, `\uHHHH`
   * and `\UHHHHHHHH` naming a Unicode scalar value. A bare `"` ends the literal
   * too early and is refused.
   */
  function Unescape(t: string): Option<string>
    decreases |t|
  {
    if t == [] then Some([])
    else if t[0] == '"' then None
    else if t[0] != '\\' then Prepend(t[0], Unescape(t[1..]))
    else if |t| < 2 then None
    else if t[1] in SimpleEscapes then Prepend(SimpleEscapes[t[1]], Unescape(t[2..]))
    else if t[1] == 'x' then UnescapeHex(t, 2, 0x80)
    else if t[1] == 'u' then UnescapeHex(t, 4, 0x1_0000)
    else if t[1] == 'U' then UnescapeHex(t, 8, 0x11_0000)
    else None
  }

  /** A `\` escape followed by `width` hex digits naming a code point below `limit`. */
  function UnescapeHex(t: string, width: nat, limit: int): Option<string>
    requires 2 <= |t| && 0 < width
    decreases |t|, 0
  {
    if |t| < 2 + width || !AllHexDigits(t[2..2 + width]) then None
    else
      var v := NumeralValue(t[2..2 + width], 16);
      if v < limit && IsScalar(v) then Prepend(v as char, Unescape(t[2 + width..])) else None
  }

  function Unquote(q: string): Option<string>
  {
    if 2 <= |q| && q[0] == '"' && q[|q| - 1] == '"' then Unescape(q[1..|q| - 1]) else None
  }

  lemma UnescapeHexRune(c: char, tag: char, width: nat, limit: int, rest: string)
    requires 0 < width && c as int < limit && c as int < Pow(16, width)
    requires tag in {'x', 'u', 'U'} && tag !in SimpleEscapes
    ensures var t := ['\\', tag] + Padded(c as int, width, 16) + rest;
      UnescapeHex(t, width, limit) == Prepend(c, Unescape(rest))
  {
    var h := Padded(c as int, width, 16);
    var t := ['\\', tag] + h + rest;
    assert t[2..2 + width] == h;
    assert t[2 + width..] == rest;
    PaddedRoundTrip(c as int, width, 16);
  }

  /** Each escape `%q` writes reads back as the character it came from. */
  lemma UnescapeRune(c: char, widePrint: char -> bool, rest: string)
    ensures Unescape(EscapeRune(c, widePrint) + rest) == Prepend(c, Unescape(rest))
  {
    if c == '"' || c == '\\' || IsPrint(c, widePrint) {
      UnescapeLiteral(c, widePrint, rest);
    } else if c as int < 0x20 && c as int in {7, 8, 9, 10, 11, 12, 13} {
      UnescapeNamed(c, widePrint, rest);
    } else {
      UnescapeNumbered(c, widePrint, rest);
    }
  }

  lemma UnescapeLiteral(c: char, widePrint: char -> bool, rest: string)
    requires c == '"' || c == '\\' || IsPrint(c, widePrint)
    ensures Unescape(EscapeRune(c, widePrint) + rest) == Prepend(c, Unescape(rest))
  {
    var e := EscapeRune(c, widePrint);
    var t := e + rest;
    if |e| == 2 {
      assert t[2..] == rest;
    } else {
      assert t[1..] == rest;
    }
  }

  lemma UnescapeNamed(c: char, widePrint: char -> bool, rest: string)
    requires c != '"' && c != '\\' && !IsPrint(c, widePrint)
    requires c as int in {7, 8, 9, 10, 11, 12, 13}
    ensures Unescape(EscapeRune(c, widePrint) + rest) == Prepend(c, Unescape(rest))
  {
    var e := EscapeRune(c, widePrint);
    assert |e| == 2 && (e + rest)[2..] == rest;
  }

  lemma UnescapeNumbered(c: char, widePrint: char -> bool, rest: string)
    requires c != '"' && c != '\\' && !IsPrint(c, widePrint)
    requires c as int !in {7, 8, 9, 10, 11, 12, 13}
    ensures Unescape(EscapeRune(c, widePrint) + rest) == Prepend(c, Unescape(rest))
  {
    if c as int < 0x20 || c as int == 0x7F {
      assert EscapeRune(c, widePrint) == "\\x" + Padded(c as int, 2, 16);
      UnescapeSmall(c, rest);
    } else if c as int < 0x1_0000 {
      assert EscapeRune(c, widePrint) == "\\u" + Padded(c as int, 4, 16);
      UnescapeMedium(c, rest);
    } else {
      assert EscapeRune(c, widePrint) == "\\U" + Padded(c as int, 8, 16);
      UnescapeLarge(c, rest);
    }
  }

  lemma UnescapeSmall(c: char, rest: string)
    requires c as int < 0x80
    ensures Unescape("\\x" + Padded(c as int, 2, 16) + rest) == Prepend(c, Unescape(rest))
  {
    assert Pow(16, 2) == 256;
    UnescapeHexRune(c, 'x', 2, 0x80, rest);
  }

  lemma UnescapeMedium(c: char, rest: string)
    requires c as int < 0x1_0000
    ensures Unescape("\\u" + Padded(c as int, 4, 16) + rest) == Prepend(c, Unescape(rest))
  {
    assert Pow(16, 4) == 0x1_0000;
    UnescapeHexRune(c, 'u', 4, 0x1_0000, rest);
  }

  lemma UnescapeLarge(c: char, rest: string)
    ensures Unescape("\\U" + Padded(c as int, 8, 16) + rest) == Prepend(c, Unescape(rest))
  {
    Pow16To8();
    UnescapeHexRune(c, 'U', 8, 0x11_0000, rest);
  }

  lemma Pow16To8()
    ensures Pow(16, 8) == 0x1_0000_0000
  {
    assert Pow(16, 4) == 0x1_0000;
  }

  lemma {:induction false} UnescapeEscaped(s: string, widePrint: char -> bool)
    ensures Unescape(Escaped(s, widePrint)) == Some(s)
  {
    if s != [] {
      UnescapeRune(s[0], widePrint, Escaped(s[1..], widePrint));
      UnescapeEscaped(s[1..], widePrint);
      assert [s[0]] + s[1..] == s;
    }
  }

  /** `%q` loses nothing: unquoting its output gives back the string. */
  lemma UnquoteQuote(s: string, widePrint: char -> bool)
    ensures Unquote(Quote(s, widePrint)) == Some(s)
  {
    var q := Quote(s, widePrint);
    assert q[1..|q| - 1] == Escaped(s, widePrint);
    UnescapeEscaped(s, widePrint);
  }

  /** Printable ASCII text without `"` or a backslash is written between quotes as it is. */
  lemma {:induction false} QuotePlain(s: string, widePrint: char -> bool)
    requires forall i :: 0 <= i < |s| ==> 0x20 <= s[i] as int <= 0x7E && s[i] != '"' && s[i] != '\\'
    ensures Quote(s, widePrint) == "\"" + s + "\""
  {
    EscapedPlain(s, widePrint);
  }

  lemma {:induction false} EscapedPlain(s: string, widePrint: char -> bool)
    requires forall i :: 0 <= i < |s| ==> 0x20 <= s[i] as int <= 0x7E && s[i] != '"' && s[i] != '\\'
    ensures Escaped(s, widePrint) == s
  {
    if s != [] {
      EscapedPlain(s[1..], widePrint);
      assert [s[0]] + s[1..] == s;
    }
  }

  // ---------------------------------------------------------------------------
  // %f
  // ---------------------------------------------------------------------------

  /**
   * A float32 or float64 value. A finite value is the exact real it denotes;
   * negative zero, the infinities and NaN have no real.
   */
  datatype Float = Finite(x: real) | NegZero | PosInf | NegInf | NaN

  /** The integer nearest to y, ties going to the even neighbour. */
  function RoundHalfEven(y: real): (n: nat)
    requires 0.0 <= y
    ensures -0.5 <= n as real - y <= 0.5
    ensures (n as real - y == 0.5 || y - n as real == 0.5) ==> n % 2 == 0
  {
    var f := y.Floor;
    var r := y - f as real;
    if r < 0.5 then f else if r > 0.5 then f + 1 else if f % 2 == 0 then f else f + 1
  }


  /**
   * Go's `%f`: the value rounded to six places after the decimal point, never
   * in exponent form; a minus sign whenever the value is negative, even when
   * it rounds to zero.
   */
  function FormatFixed(f: Float): (s: string)
    ensures 0 < |s|
    ensures s[0] == '-' <==> (f.Finite? && f.x < 0.0) || f.NegZero? || f.NegInf?
  {
    match f
    case Finite(x) => FixedDigits(x < 0.0, RoundHalfEven(if x < 0.0 then -x * 1_000_000.0 else x * 1_000_000.0))
    case NegZero => "-0.000000"
    case PosInf => "+Inf"
    case NegInf => "-Inf"
    case NaN => "NaN"
  }

  /** The text of n millionths: an optional sign, the whole part, a point and six digits. */
  function FixedDigits(neg: bool, n: nat): (s: string)
    ensures 0 < |s| && (s[0] == '-' <==> neg)
  {
    if neg then "-" + UnsignedFixed(n) else UnsignedFixed(n)
  }

  /** `n` millionths written with six digits after the point. */
  function UnsignedFixed(n: nat): (s: string)
    ensures 0 < |s| && IsDigit(s[0])
  {
    Digits(n / 1_000_000) + "." + Padded(n % 1_000_000, 6, 10)
  }

  /** Reads back what `%f` prints for a finite value: `[-]digits.dddddd`. */
  function ParseFixed(s: string): Option<real>
  {
    if 0 < |s| && s[0] == '-' then
      match ParseUnsignedFixed(s[1..])
      case Some(v) => Some(-v)
      case None => None
    else ParseUnsignedFixed(s)
  }

  function ParseUnsignedFixed(body: string): Option<real>
  {
    if |body| < 8 || body[|body| - 7] != '.' then None
    else
      var whole, frac := body[..|body| - 7], body[|body| - 6..];
      if !AllDigits(whole) || !AllDigits(frac) then None
      else Some(NumeralValue(whole, 10) as real + NumeralValue(frac, 10) as real / 1_000_000.0)
  }

  /**
   * `%f` on a finite value writes exactly six digits after the point, and
   * the number written is within half a millionth of the value.
   */
  lemma FixedIsNearest(x: real)
    ensures var s := FormatFixed(Finite(x));
      && 8 <= |s| && s[|s| - 7] == '.' && AllDigits(s[|s| - 6..])
      && ParseFixed(s).Some?
      && -0.0000005 <= ParseFixed(s).value - x <= 0.0000005
  {
    var neg := x < 0.0;
    var y := if neg then -x * 1_000_000.0 else x * 1_000_000.0;
    var n := RoundHalfEven(y);
    assert FormatFixed(Finite(x)) == FixedDigits(neg, n);
    ParseFixedDigits(neg, n);
    NearestBound(x, y, n);
  }

  lemma ParseFixedDigits(neg: bool, n: nat)
    ensures var s := FixedDigits(neg, n);
      && 8 <= |s| && s[|s| - 7] == '.' && AllDigits(s[|s| - 6..])
      && ParseFixed(s) == Some(if neg then -(n as real / 1_000_000.0) else n as real / 1_000_000.0)
  {
    if neg {
      ParseNegativeFixed(n);
    } else {
      ParseUnsignedFixedDigits(n, UnsignedFixed(n));
    }
  }

  lemma ParseNegativeFixed(n: nat)
    ensures var s := FixedDigits(true, n);
      && 8 <= |s| && s[|s| - 7] == '.' && AllDigits(s[|s| - 6..])
      && ParseFixed(s) == Some(-(n as real / 1_000_000.0))
  {
    var body := UnsignedFixed(n);
    ParseUnsignedFixedDigits(n, body);
    NegatedFixed(body, FixedDigits(true, n));
  }

  lemma NegatedFixed(body: string, s: string)
    requires s == "-" + body && 8 <= |body| && body[|body| - 7] == '.' && AllDigits(body[|body| - 6..])
    requires ParseUnsignedFixed(body).Some?
    ensures 8 <= |s| && s[|s| - 7] == '.' && AllDigits(s[|s| - 6..])
    ensures ParseFixed(s) == Some(-ParseUnsignedFixed(body).value)
  {
    assert s[1..] == body;
    assert s[|s| - 6..] == body[|body| - 6..];
  }

  lemma ParseUnsignedFixedDigits(n: nat, body: string)
    requires body == UnsignedFixed(n)
    ensures 8 <= |body| && body[|body| - 7] == '.' && AllDigits(body[|body| - 6..])
    ensures IsDigit(body[0])
    ensures ParseUnsignedFixed(body) == Some(n as real / 1_000_000.0)
  {
    var whole, frac := Digits(n / 1_000_000), Padded(n % 1_000_000, 6, 10);
    assert body == whole + "." + frac;
    assert body[..|body| - 7] == whole;
    assert body[|body| - 6..] == frac;
    assert body[0] == whole[0];
    DigitsRoundTrip(n / 1_000_000);
    assert Pow(10, 6) == 1_000_000;
    PaddedRoundTrip(n % 1_000_000, 6, 10);
    DivMod(n, 1_000_000);
    var mag := (n / 1_000_000) as real + (n % 1_000_000) as real / 1_000_000.0;
    assert mag == ((n / 1_000_000) * 1_000_000 + n % 1_000_000) as real / 1_000_000.0;
  }

  lemma NearestBound(x: real, y: real, n: nat)
    requires y == if x < 0.0 then -x * 1_000_000.0 else x * 1_000_000.0
    requires -0.5 <= n as real - y <= 0.5
    ensures var v := n as real / 1_000_000.0;
      -0.0000005 <= (if x < 0.0 then -v else v) - x <= 0.0000005
  {
  }

  /** The float64 nearest to 1.23 (its exact value) prints as 1.230000. */
  lemma FixedOfOnePointTwoThree()
    ensures FormatFixed(Finite(1.229999999999999982236431605997495353221893310546875)) == "1.230000"
  {
    var y := 1.229999999999999982236431605997495353221893310546875 * 1_000_000.0;
    assert y.Floor == 1229999;
    assert RoundHalfEven(y) == 1230000;
    OnePointTwoThreeDigits();
  }

  lemma PaddedSnoc(n: nat, w: nat, s: string)
    requires Padded(n / 10, w, 10) == s
    ensures Padded(n, w + 1, 10) == s + [DigitChar(n % 10)]
  {
  }

  lemma OnePointTwoThreeDigits()
    ensures UnsignedFixed(1230000) == "1.230000"
  {
    assert 1230000 / 1_000_000 == 1 && 1230000 % 1_000_000 == 230000;
    assert Digits(1) == [DigitChar(1)] == "1";
    PaddedSnoc(2, 0, "");
    PaddedSnoc(23, 1, "2");
    PaddedSnoc(230, 2, "23");
    PaddedSnoc(2300, 3, "230");
    PaddedSnoc(23000, 4, "2300");
    PaddedSnoc(230000, 5, "23000");
  }
}

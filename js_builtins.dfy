/**
 * The JavaScript built-ins the modelled code relies on, stated as functions
 * over `seq<char>`: `String.prototype.trim`, number-to-string conversion of
 * integers, `parseInt` with its default radix, `slice(0, end)` and
 * `toUpperCase` (ASCII letters only).
 */
module JsBuiltins {
  import opened Wrappers

  // ---------------------------------------------------------------------
  // Whitespace and trim
  // ---------------------------------------------------------------------

  /** ECMAScript WhiteSpace and LineTerminator code points: what `trim` and `parseInt` skip. */
  predicate IsWhitespace(c: char) {
    c == '\t' || c == '\n' || c == '\U{B}' || c == '\U{C}' || c == '\r' || c == ' '
    || c == '\U{A0}' || c == '\U{1680}' || ('\U{2000}' <= c <= '\U{200A}')
    || c == '\U{2028}' || c == '\U{2029}' || c == '\U{202F}' || c == '\U{205F}'
    || c == '\U{3000}' || c == '\U{FEFF}'
  }

  /** Every character of `s` is whitespace (this includes the empty string). */
  predicate IsBlank(s: string) {
    forall i | 0 <= i < |s| :: IsWhitespace(s[i])
  }

  function TrimStart(s: string): (r: string)
    ensures |r| <= |s| && r == s[|s| - |r|..]
    ensures r != [] ==> !IsWhitespace(r[0])
    decreases |s|
  {
    if |s| > 0 && IsWhitespace(s[0]) then TrimStart(s[1..]) else s
  }

  function TrimEnd(s: string): (r: string)
    ensures r <= s
    ensures r != [] ==> !IsWhitespace(r[|r| - 1])
    decreases |s|
  {
    if |s| > 0 && IsWhitespace(s[|s| - 1]) then TrimEnd(s[..|s| - 1]) else s
  }

  /** `String.prototype.trim`. */
  function Trim(s: string): string {
    TrimEnd(TrimStart(s))
  }

  lemma {:induction false} TrimStartEmptyIffBlank(s: string)
    ensures TrimStart(s) == [] <==> IsBlank(s)
    decreases |s|
  {
    if |s| > 0 && IsWhitespace(s[0]) {
      TrimStartEmptyIffBlank(s[1..]);
      if IsBlank(s[1..]) {
        forall i | 0 <= i < |s| ensures IsWhitespace(s[i]) {
          if i > 0 { assert s[i] == s[1..][i - 1]; }
        }
      }
    }
  }

  /** `s.trim() === ''` holds exactly for the empty and the all-whitespace strings. */
  lemma TrimEmptyIffBlank(s: string)
    ensures Trim(s) == [] <==> IsBlank(s)
  {
    TrimStartEmptyIffBlank(s);
    var t := TrimStart(s);
    if t != [] {
      assert !IsWhitespace(t[0]);
      assert TrimEnd(t) != [] by {
        if TrimEnd(t) == [] { TrimEndEmptyOnlyIfBlank(t); }
      }
    }
  }

  lemma {:induction false} TrimEndEmptyOnlyIfBlank(s: string)
    requires TrimEnd(s) == []
    ensures IsBlank(s)
    decreases |s|
  {
    if |s| > 0 {
      var init := s[..|s| - 1];
      TrimEndEmptyOnlyIfBlank(init);
      forall i | 0 <= i < |s| ensures IsWhitespace(s[i]) {
        if i < |s| - 1 { assert s[i] == init[i]; }
      }
    }
  }

  // ---------------------------------------------------------------------
  // Integers as decimal text (template literals, `toString`) and `parseInt`
  // ---------------------------------------------------------------------

  predicate IsDecimalDigit(c: char) {
    '0' <= c <= '9'
  }

  function DigitChar(d: nat): (c: char)
    requires d < 10
    ensures IsDecimalDigit(c)
  {
    ('0' as int + d) as char
  }

  /** The decimal numeral of a non-negative integer, without leading zeros. */
  function NatDecimal(n: nat): (r: string)
    ensures |r| > 0
    ensures forall i | 0 <= i < |r| :: IsDecimalDigit(r[i])
    ensures |r| > 1 ==> r[0] != '0'
    decreases n
  {
    if n < 10 then [DigitChar(n)] else NatDecimal(n / 10) + [DigitChar(n % 10)]
  }

  /**
   * `String(n)` for an integer `n` of magnitude below 10^21, the range of the
   * ids, years, genres and pages it is applied to; JavaScript writes larger
   * numbers in exponent notation, which is not modelled.
   */
  function Decimal(n: int): (r: string)
    ensures |r| > 0 && (r[0] == '-' || IsDecimalDigit(r[0]))
  {
    if n < 0 then "-" + NatDecimal(-n) else NatDecimal(n)
  }

  /** The value of `c` as a digit in a radix up to 16, if it is one. */
  function DigitValue(c: char): Option<nat> {
    if '0' <= c <= '9' then Some(c as int - '0' as int)
    else if 'a' <= c <= 'f' then Some(c as int - 'a' as int + 10)
    else if 'A' <= c <= 'F' then Some(c as int - 'A' as int + 10)
    else None
  }

  predicate IsDigitIn(c: char, radix: nat) {
    DigitValue(c).Some? && DigitValue(c).value < radix
  }

  /** The longest prefix of `s` made of digits of `radix`. */
  function LeadingDigits(s: string, radix: nat): (r: string)
    ensures r <= s
    ensures forall i | 0 <= i < |r| :: IsDigitIn(r[i], radix)
  {
    if |s| > 0 && IsDigitIn(s[0], radix) then [s[0]] + LeadingDigits(s[1..], radix) else []
  }

  /**
   * The value of a numeral in `radix`, most significant digit first. It is
   * applied only to digit runs; a character that is not a digit counts as 0.
   */
  function NumeralValue(ds: string, radix: nat): nat {
    if ds == [] then 0
    else
      var high: nat := NumeralValue(ds[..|ds| - 1], radix);
      high * radix + DigitValue(ds[|ds| - 1]).GetOr(0)
  }

  /**
   * The digits after an optional sign: a `0x`/`0X` prefix selects radix 16,
   * otherwise radix 10, and the longest run of digits that follows is the
   * value. `None` when there is no digit at all.
   */
  function ParseUnsigned(u: string): Option<nat> {
    var hex := |u| >= 2 && u[0] == '0' && (u[1] == 'x' || u[1] == 'X');
    var radix := if hex then 16 else 10;
    var digits := LeadingDigits(if hex then u[2..] else u, radix);
    if digits == [] then None else Some(NumeralValue(digits, radix))
  }

  /**
   * `parseInt(s)` with no radix argument: leading whitespace is skipped and
   * one sign is read before the digits. `None` stands for `NaN`.
   */
  function ParseInt(s: string): Option<int> {
    var t := TrimStart(s);
    var magnitude := ParseUnsigned(if |t| > 0 && (t[0] == '-' || t[0] == '+') then t[1..] else t);
    match magnitude
    case None => None
    case Some(m) =>
      var value: int := if |t| > 0 && t[0] == '-' then -(m as int) else m;
      Some(value)
  }

  lemma {:induction false} LeadingDigitsOfNumeral(s: string, radix: nat)
    requires forall i | 0 <= i < |s| :: IsDigitIn(s[i], radix)
    ensures LeadingDigits(s, radix) == s
    decreases |s|
  {
    if |s| > 0 {
      LeadingDigitsOfNumeral(s[1..], radix);
      assert [s[0]] + s[1..] == s;
    }
  }

  lemma {:induction false} NumeralValueOfNatDecimal(n: nat)
    ensures forall i | 0 <= i < |NatDecimal(n)| :: IsDigitIn(NatDecimal(n)[i], 10)
    ensures NumeralValue(NatDecimal(n), 10) == n
    decreases n
  {
    var r := NatDecimal(n);
    if n >= 10 {
      NumeralValueOfNatDecimal(n / 10);
      assert r[..|r| - 1] == NatDecimal(n / 10);
    }
  }

  lemma ParseUnsignedOfNatDecimal(m: nat)
    ensures ParseUnsigned(NatDecimal(m)) == Some(m)
  {
    var digits := NatDecimal(m);
    NumeralValueOfNatDecimal(m);
    LeadingDigitsOfNumeral(digits, 10);
    assert !(|digits| >= 2 && digits[0] == '0');
  }

  /** Reading back what `Decimal` writes gives the same integer. */
  lemma ParseIntOfDecimal(n: int)
    ensures ParseInt(Decimal(n)) == Some(n)
  {
    var m: nat := if n < 0 then -n else n;
    ParseUnsignedOfNatDecimal(m);
    var s := Decimal(n);
    assert TrimStart(s) == s by {
      assert !IsWhitespace(s[0]);
    }
    if n < 0 {
      assert s[1..] == NatDecimal(m);
    } else {
      assert s[0] != '-' && s[0] != '+';
    }
  }

  /** Distinct integers have distinct decimal numerals. */
  lemma DecimalInjective(a: int, b: int)
    ensures Decimal(a) == Decimal(b) ==> a == b
  {
    ParseIntOfDecimal(a);
    ParseIntOfDecimal(b);
  }

  /**
   * A template string `${prefix}${id}` determines the id once the prefix
   * is known: equal paths under prefixes of the same length have the same
   * prefix and the same id.
   */
  lemma PrefixedDecimalInjective(p: string, q: string, a: int, b: int)
    requires |p| == |q|
    ensures p + Decimal(a) == q + Decimal(b) ==> p == q && a == b
  {
    if p + Decimal(a) == q + Decimal(b) {
      assert p == (p + Decimal(a))[..|p|];
      assert q == (q + Decimal(b))[..|q|];
      assert Decimal(a) == (p + Decimal(a))[|p|..];
      assert Decimal(b) == (q + Decimal(b))[|q|..];
      DecimalInjective(a, b);
    }
  }

  // ---------------------------------------------------------------------
  // slice(0, end) and toUpperCase
  // ---------------------------------------------------------------------

  /**
   * `xs.slice(0, end)` for an integer `end`: a non-negative end is capped at
   * the length, a negative one counts back from the end.
   */
  function SliceTo<T>(xs: seq<T>, end: int): (r: seq<T>)
    ensures r <= xs
    ensures end >= 0 ==> |r| == if end < |xs| then end else |xs|
    ensures end < 0 ==> |r| == if |xs| + end > 0 then |xs| + end else 0
  {
    var stop := if end < 0 then (if |xs| + end > 0 then |xs| + end else 0)
                else if end < |xs| then end else |xs|;
    xs[..stop]
  }

  function UpperChar(c: char): char {
    if 'a' <= c <= 'z' then (c as int - 32) as char else c
  }

  /** `toUpperCase`, for ASCII letters; other characters are kept as they are. */
  function ToUpper(s: string): (r: string)
    ensures |r| == |s|
    ensures forall i | 0 <= i < |s| :: r[i] == UpperChar(s[i])
  {
    if s == [] then [] else [UpperChar(s[0])] + ToUpper(s[1..])
  }

  /** Upper-casing twice is upper-casing once. */
  lemma ToUpperIdempotent(s: string)
    ensures ToUpper(ToUpper(s)) == ToUpper(s)
  {
  }
}

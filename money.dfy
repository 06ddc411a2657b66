/**
 * The lenient money parser of src/analytics_helpers.js (the inner `parseNumber`):
 *
 *   text   := String(v)
 *   text   := text with every character of the stripped class deleted
 *   text   := text with its first ',' replaced by '.'
 *   result := parseFloat(text), or 0 when that is NaN (or any other falsy number)
 *
 * `parseFloat` is modelled over decimal numerals: leading white space, an
 * optional sign, digits, an optional '.' and more digits, at least one digit
 * in all; whatever follows the longest such prefix is ignored.
 */
module Money {
  import opened Wrappers

  /** The value found in one field of a trade record, before `String(v)`. */
  datatype Cell = Missing | Null | Text(text: string)

  /** JavaScript's `String(v)` on the values a record field can hold. */
  function ToText(c: Cell): string
  {
    match c
    case Missing => "undefined"
    case Null => "null"
    case Text(s) => s
  }

  /**
   * The characters of the regular-expression class `[â‚¬,$]` as the source
   * spells it: U+00E2, U+201A, U+00AC (the three characters a UTF-8 euro
   * sign turns into when misread as Windows-1252), the comma and the dollar.
   * The euro sign itself, U+20AC, is not one of them.
   */
  predicate IsStripped(c: char)
  {
    c == '\U{E2}' || c == '\U{201A}' || c == '\U{AC}' || c == ',' || c == '$'
  }

  /** A global replace of the class by the empty string: deletes every stripped character. */
  function Strip(s: string): string
  {
    if s == [] then []
    else
      if IsStripped(s[0]) then Strip(s[1..]) else [s[0]] + Strip(s[1..])
  }

  /** `replace(from, to)` with a one-character string pattern: only the first occurrence changes. */
  function ReplaceFirst(s: string, from: char, to: char): string
  {
    if s == [] then []
    else if s[0] == from then [to] + s[1..]
    else [s[0]] + ReplaceFirst(s[1..], from, to)
  }

  /** The characters `parseFloat` skips before the numeral (StrWhiteSpaceChar of ECMAScript). */
  const JsWhiteSpace: set<char> := {
    '\t', '\n', '\U{B}', '\U{C}', '\r', ' ', '\U{A0}', '\U{1680}',
    '\U{2000}', '\U{2001}', '\U{2002}', '\U{2003}', '\U{2004}', '\U{2005}',
    '\U{2006}', '\U{2007}', '\U{2008}', '\U{2009}', '\U{200A}',
    '\U{2028}', '\U{2029}', '\U{202F}', '\U{205F}', '\U{3000}', '\U{FEFF}'}

  predicate IsJsWhiteSpace(c: char)
  {
    c in JsWhiteSpace
  }

  /** Drops the leading white space. */
  function TrimStart(s: string): string
  {
    if s != [] && IsJsWhiteSpace(s[0]) then TrimStart(s[1..]) else s
  }

  predicate IsDigit(c: char)
  {
    '0' <= c <= '9'
  }

  function DigitValue(c: char): nat
    requires IsDigit(c)
  {
    (c as int - '0' as int) as nat
  }

  function DigitChar(d: nat): (c: char)
    requires d < 10
    ensures IsDigit(c) && DigitValue(c) == d
  {
    (d + '0' as int) as char
  }

  predicate AllDigits(s: string)
  {
    forall i :: 0 <= i < |s| ==> IsDigit(s[i])
  }

  /** The length of the longest run of digits at the start of `s`. */
  function LeadingDigits(s: string): (n: nat)
    ensures n <= |s|
    ensures AllDigits(s[..n])
  {
    if s == [] || !IsDigit(s[0]) then 0 else 1 + LeadingDigits(s[1..])
  }

  /** The value of a string of decimal digits, most significant first. */
  function DigitsValue(s: string): nat
    requires AllDigits(s)
  {
    if s == [] then 0 else 10 * DigitsValue(s[..|s| - 1]) + DigitValue(s[|s| - 1])
  }

  function Pow10(n: nat): (p: nat)
    ensures p >= 1
  {
    if n == 0 then 1 else 10 * Pow10(n - 1)
  }

  /** The text, after its optional sign, that the numeral is read from. */
  function Unsigned(s: string): string
  {
    if |s| > 0 && (s[0] == '-' || s[0] == '+') then s[1..] else s
  }

  /** The digits after the decimal point of a numeral whose integer digits are `body[..n]`. */
  function FractionDigits(body: string, n: nat): (f: string)
    requires n <= |body|
    ensures AllDigits(f)
  {
    var rest := body[n..];
    if |rest| > 0 && rest[0] == '.' then rest[1..][..LeadingDigits(rest[1..])] else []
  }

  /** The value of the numeral with integer digits `ip` and fraction digits `fp`. */
  function DecimalValue(ip: string, fp: string): real
    requires AllDigits(ip) && AllDigits(fp)
  {
    DigitsValue(ip) as real + DigitsValue(fp) as real / Pow10(|fp|) as real
  }

  /**
   * `parseFloat` on text that has no leading white space: the value of the
   * longest prefix of the form [+-]? digits* ('.' digits*)? holding at least
   * one digit, or None (NaN) when there is no such prefix.
   */
  function ParseNumeral(s: string): Option<real>
  {
    var body := Unsigned(s);
    var n := LeadingDigits(body);
    var frac := FractionDigits(body, n);
    if n + |frac| == 0 then None
    else if |s| > 0 && s[0] == '-' then Some(-DecimalValue(body[..n], frac))
    else Some(DecimalValue(body[..n], frac))
  }

  /**
   * The parser: the field as text, stripped, its first comma made a dot, its
   * leading white space skipped and its numeral read; 0 when there is none.
   */
  function ParseNumber(v: Cell): real
  {
    var cleaned := ReplaceFirst(Strip(ToText(v)), ',', '.');
    match ParseNumeral(TrimStart(cleaned))
    case None => 0.0
    case Some(x) => x
  }
}

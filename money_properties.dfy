/** What the lenient money parser promises, proved about the model in module Money. */
module MoneyProperties {
  import opened Wrappers
  import opened Money

  /** Stripping leaves none of `â ‚ ¬ , $` behind and never lengthens the text. */
  lemma {:induction false} StripRemovesClass(s: string)
    ensures |Strip(s)| <= |s|
    ensures forall i :: 0 <= i < |Strip(s)| ==> !IsStripped(Strip(s)[i])
  {
    if s != [] {
      StripRemovesClass(s[1..]);
    }
  }

  /** Text without any character of the class comes through stripping unchanged. */
  lemma {:induction false} StripKeepsCleanText(s: string)
    requires forall i :: 0 <= i < |s| ==> !IsStripped(s[i])
    ensures Strip(s) == s
  {
    if s != [] {
      StripKeepsCleanText(s[1..]);
    }
  }

  /** Stripping works character by character, so it distributes over concatenation. */
  lemma {:induction false} StripConcat(a: string, b: string)
    ensures Strip(a + b) == Strip(a) + Strip(b)
  {
    if a != [] {
      assert (a + b)[1..] == a[1..] + b;
      StripConcat(a[1..], b);
    } else {
      assert a + b == b;
    }
  }

  /** `replace` with a character that does not occur changes nothing. */
  lemma {:induction false} ReplaceFirstAbsent(s: string, from: char, to: char)
    requires from !in s
    ensures ReplaceFirst(s, from, to) == s
  {
    if s != [] {
      assert from !in s[1..];
      ReplaceFirstAbsent(s[1..], from, to);
    }
  }

  /** `replace` rewrites the first occurrence, at `k`, and keeps every other character. */
  lemma {:induction false} ReplaceFirstAtFirstOccurrence(s: string, from: char, to: char, k: nat)
    requires k < |s| && s[k] == from && from !in s[..k]
    ensures ReplaceFirst(s, from, to) == s[..k] + [to] + s[k + 1..]
  {
    if k > 0 {
      assert s[0] == s[..k][0];
      assert s[1..][..k - 1] == s[..k][1..];
      ReplaceFirstAtFirstOccurrence(s[1..], from, to, k - 1);
    }
  }

  /** After stripping no comma is left, so the `replace(',', '.')` step changes nothing. */
  lemma DecimalCommaStepIsNoOp(v: Cell)
    ensures ',' !in Strip(ToText(v))
    ensures ReplaceFirst(Strip(ToText(v)), ',', '.') == Strip(ToText(v))
  {
    StripRemovesClass(ToText(v));
    assert IsStripped(',');
    ReplaceFirstAbsent(Strip(ToText(v)), ',', '.');
  }

  /** Trimming drops exactly the leading white space. */
  lemma {:induction false} TrimStartDropsLeadingWhiteSpace(s: string)
    ensures |TrimStart(s)| <= |s| && TrimStart(s) == s[|s| - |TrimStart(s)|..]
    ensures forall i :: 0 <= i < |s| - |TrimStart(s)| ==> IsJsWhiteSpace(s[i])
    ensures TrimStart(s) == [] || !IsJsWhiteSpace(TrimStart(s)[0])
  {
    if s != [] && IsJsWhiteSpace(s[0]) {
      TrimStartDropsLeadingWhiteSpace(s[1..]);
    }
  }

  /** The run of leading digits is the longest one. */
  lemma {:induction false} LeadingDigitsIsMaximal(s: string)
    ensures LeadingDigits(s) < |s| ==> !IsDigit(s[LeadingDigits(s)])
  {
    if s != [] && IsDigit(s[0]) {
      LeadingDigitsIsMaximal(s[1..]);
    }
  }

  /** `parseFloat` gives NaN exactly when, after the sign, neither a digit nor a point and a digit follows. */
  lemma NumeralFailsExactly(s: string)
    ensures ParseNumeral(s).None? <==>
      var body := Unsigned(s);
      LeadingDigits(body) == 0 && !(|body| >= 2 && body[0] == '.' && IsDigit(body[1]))
  {
    var body := Unsigned(s);
    if LeadingDigits(body) == 0 && |body| >= 2 && body[0] == '.' && IsDigit(body[1]) {
      assert LeadingDigits(body[1..]) > 0;
    }
  }

  /** Text with no stripped character and no leading white space goes straight to the numeral parser. */
  lemma ParseCleanText(s: string)
    requires forall i :: 0 <= i < |s| ==> !IsStripped(s[i])
    requires s == [] || !IsJsWhiteSpace(s[0])
    ensures ParseNumber(Text(s)) == match ParseNumeral(s) case None => 0.0 case Some(x) => x
  {
    StripKeepsCleanText(s);
    assert ',' !in s by { assert IsStripped(','); }
    ReplaceFirstAbsent(s, ',', '.');
  }

  /** Clean text that does not start like a numeral is worth 0, never NaN. */
  lemma NoNumeralIsZero(s: string)
    requires forall i :: 0 <= i < |s| ==> !IsStripped(s[i])
    requires s == [] || !(IsJsWhiteSpace(s[0]) || IsDigit(s[0]) || s[0] in "+-.")
    ensures ParseNumber(Text(s)) == 0.0
  {
    ParseCleanText(s);
  }

  lemma SameStripSameAmount(s: string, t: string)
    requires Strip(s) == Strip(t)
    ensures ParseNumber(Text(s)) == ParseNumber(Text(t))
  {
  }

  /** A character of the stripped class may be inserted anywhere without changing the parsed amount. */
  lemma StrippedCharIgnored(a: string, x: char, b: string)
    requires IsStripped(x)
    ensures ParseNumber(Text(a + [x] + b)) == ParseNumber(Text(a + b))
  {
    StripConcat(a + [x], b);
    StripConcat(a, [x]);
    StripConcat(a, b);
    assert Strip([x]) == [];
    SameStripSameAmount(a + [x] + b, a + b);
  }

  /** The decimal numeral of a natural number, as `String(n)` writes it. */
  function NatDigits(n: nat): (s: string)
    ensures |s| > 0 && AllDigits(s)
  {
    if n < 10 then [DigitChar(n)] else NatDigits(n / 10) + [DigitChar(n % 10)]
  }

  lemma {:induction false} NatDigitsRoundTrip(n: nat)
    ensures DigitsValue(NatDigits(n)) == n
  {
    var s := NatDigits(n);
    if n >= 10 {
      NatDigitsRoundTrip(n / 10);
      assert s[..|s| - 1] == NatDigits(n / 10);
    } else {
      assert s[..|s| - 1] == [];
    }
  }

  /** The two-digit numeral of `k`, as the cents of an amount are written. */
  function TwoDigits(k: nat): (s: string)
    requires k < 100
    ensures |s| == 2 && AllDigits(s)
  {
    [DigitChar(k / 10), DigitChar(k % 10)]
  }

  /** An amount of `c` cents written the way the trade log writes money: "-"? digits "." two digits. */
  function RenderCents(c: int): string
  {
    var a := if c < 0 then -c else c;
    var digits := NatDigits(a / 100) + "." + TwoDigits(a % 100);
    if c < 0 then "-" + digits else digits
  }

  lemma TwoDigitsValue(k: nat)
    requires k < 100
    ensures DigitsValue(TwoDigits(k)) == k
  {
    var s := TwoDigits(k);
    assert s[..1] == [s[0]];
    assert s[..1][..0] == [];
    assert DigitsValue(s[..1]) == k / 10;
    assert DigitsValue(s) == 10 * (k / 10) + k % 10;
  }

  lemma CentsValue(a: nat)
    ensures DecimalValue(NatDigits(a / 100), TwoDigits(a % 100)) == a as real / 100.0
  {
    NatDigitsRoundTrip(a / 100);
    TwoDigitsValue(a % 100);
    assert Pow10(2) == 100;
    assert a == 100 * (a / 100) + a % 100;
  }

  lemma AllDigitsConcat(a: string, b: string)
    requires AllDigits(a) && AllDigits(b)
    ensures AllDigits(a + b)
  {
  }

  /** A run of digits followed by a non-digit is exactly the leading run. */
  lemma {:induction false} LeadingDigitsOfRun(ds: string, rest: string)
    requires AllDigits(ds)
    requires rest == [] || !IsDigit(rest[0])
    ensures LeadingDigits(ds + rest) == |ds|
  {
    if ds == [] {
      assert ds + rest == rest;
    } else {
      assert (ds + rest)[1..] == ds[1..] + rest;
      LeadingDigitsOfRun(ds[1..], rest);
    }
  }

  /** In "digits.digits" the integer digits stop at the point and the fraction digits are all the rest. */
  lemma ParseUnsignedDecimal(ip: string, fp: string)
    requires AllDigits(ip) && AllDigits(fp) && fp != []
    ensures LeadingDigits(ip + "." + fp) == |ip|
    ensures FractionDigits(ip + "." + fp, |ip|) == fp
  {
    var body := ip + "." + fp;
    LeadingDigitsOfRun(ip, "." + fp);
    assert body == ip + ("." + fp);
    assert body[|ip|..] == "." + fp;
    assert body[|ip|..][1..] == fp;
    LeadingDigitsOfRun(fp, []);
    assert fp + [] == fp;
    assert fp[..|fp|] == fp;
  }

  /** The numeral parser reads "digits.digits" as its decimal value. */
  lemma ParsePositiveDecimal(ip: string, fp: string)
    requires AllDigits(ip) && AllDigits(fp) && fp != []
    ensures ParseNumeral(ip + "." + fp) == Some(DecimalValue(ip, fp))
  {
    var body := ip + "." + fp;
    assert body[0] == '.' || IsDigit(body[0]);
    assert Unsigned(body) == body;
    ParseUnsignedDecimal(ip, fp);
    assert body[..|ip|] == ip;
  }

  /** The numeral parser reads "-digits.digits" as the negated decimal value. */
  lemma ParseNegativeDecimal(ip: string, fp: string)
    requires AllDigits(ip) && AllDigits(fp) && fp != []
    ensures ParseNumeral("-" + (ip + "." + fp)) == Some(-DecimalValue(ip, fp))
  {
    var body := ip + "." + fp;
    assert Unsigned("-" + body) == body;
    ParseUnsignedDecimal(ip, fp);
    assert body[..|ip|] == ip;
  }

  /** Plain "digits.digits" text parses to its decimal value. */
  lemma ParseDecimalText(ip: string, fp: string)
    requires AllDigits(ip) && AllDigits(fp) && fp != []
    ensures ParseNumber(Text(ip + "." + fp)) == DecimalValue(ip, fp)
  {
    var s := ip + "." + fp;
    assert forall i :: 0 <= i < |s| ==> s[i] == '.' || IsDigit(s[i]);
    ParseCleanText(s);
    ParsePositiveDecimal(ip, fp);
  }

  /** `parseFloat` stops at the longest numeral: whatever follows "digits.digits" is ignored. */
  lemma ParseNumeralIgnoresRest(ip: string, fp: string, rest: string)
    requires AllDigits(ip) && AllDigits(fp) && fp != []
    requires rest == [] || !IsDigit(rest[0])
    ensures ParseNumeral(ip + "." + fp + rest) == Some(DecimalValue(ip, fp))
  {
    var body := ip + "." + fp + rest;
    assert body[0] == '.' || IsDigit(body[0]);
    assert Unsigned(body) == body;
    assert body == ip + ("." + fp + rest);
    LeadingDigitsOfRun(ip, "." + fp + rest);
    assert body[|ip|..][1..] == fp + rest;
    LeadingDigitsOfRun(fp, rest);
    assert (fp + rest)[..|fp|] == fp;
    assert body[..|ip|] == ip;
  }

  /**
   * Whatever follows a run of digits is ignored unless it continues the
   * numeral: a point with no digit after it, as in "12.", adds nothing.
   */
  lemma ParseDigitsIgnoresRest(ds: string, rest: string)
    requires AllDigits(ds) && ds != []
    requires rest == [] || !IsDigit(rest[0])
    requires |rest| > 1 && rest[0] == '.' ==> !IsDigit(rest[1])
    ensures ParseNumeral(ds + rest) == Some(DigitsValue(ds) as real)
  {
    var body := ds + rest;
    assert IsDigit(body[0]);
    assert Unsigned(body) == body;
    LeadingDigitsOfRun(ds, rest);
    assert body[|ds|..] == rest;
    if |rest| > 0 && rest[0] == '.' {
      LeadingDigitsOfRun([], rest[1..]);
      assert [] + rest[1..] == rest[1..];
    }
    DecimalValueWithoutFraction(ds);
    assert body[..|ds|] == ds;
  }

  /** A leading '+' is read and dropped: "+5" is worth what "5" is. */
  lemma ParseNumeralPlusSign(s: string)
    requires s == [] || (s[0] != '+' && s[0] != '-')
    ensures ParseNumeral("+" + s) == ParseNumeral(s)
  {
    assert Unsigned("+" + s) == s;
    assert Unsigned(s) == s;
  }

  /** A leading '-' is read and negates the numeral after it: "-50" is worth minus what "50" is. */
  lemma ParseNumeralMinusSign(s: string)
    requires s == [] || (s[0] != '+' && s[0] != '-')
    ensures ParseNumeral("-" + s) == match ParseNumeral(s) case None => None case Some(x) => Some(-x)
  {
    assert Unsigned("-" + s) == s;
    assert Unsigned(s) == s;
  }

  /** Leading white space of any length before the text is skipped. */
  lemma {:induction false} TrimStartSkipsWhiteSpace(w: string, s: string)
    requires forall i :: 0 <= i < |w| ==> IsJsWhiteSpace(w[i])
    ensures TrimStart(w + s) == TrimStart(s)
  {
    if w != [] {
      assert (w + s)[1..] == w[1..] + s;
      TrimStartSkipsWhiteSpace(w[1..], s);
    } else {
      assert w + s == s;
    }
  }

  /** A field with white space in front, as an untrimmed CSV cell has, is worth what the rest is worth. */
  lemma ParseNumberSkipsWhiteSpace(w: string, s: string)
    requires forall i :: 0 <= i < |w| ==> IsJsWhiteSpace(w[i])
    ensures ParseNumber(Text(w + s)) == ParseNumber(Text(s))
  {
    StripConcat(w, s);
    StripKeepsCleanText(w);
    DecimalCommaStepIsNoOp(Text(w + s));
    DecimalCommaStepIsNoOp(Text(s));
    TrimStartSkipsWhiteSpace(w, Strip(s));
  }

  lemma NoFractionAtEnd(ds: string)
    ensures FractionDigits(ds, |ds|) == []
  {
  }

  lemma DecimalValueWithoutFraction(ds: string)
    requires AllDigits(ds)
    ensures DecimalValue(ds, []) == DigitsValue(ds) as real
  {
  }

  /** The numeral parser reads a run of digits as the integer it denotes. */
  lemma ParseDigitsNumeral(ds: string)
    requires AllDigits(ds) && ds != []
    ensures ParseNumeral(ds) == Some(DigitsValue(ds) as real)
  {
    assert Unsigned(ds) == ds by { assert IsDigit(ds[0]); }
    assert LeadingDigits(ds) == |ds| by {
      LeadingDigitsOfRun(ds, []);
      assert ds + [] == ds;
    }
    NoFractionAtEnd(ds);
    DecimalValueWithoutFraction(ds);
    assert ds[..|ds|] == ds;
  }

  /** Plain digit text parses to the integer it denotes. */
  lemma ParseDigitsText(ds: string)
    requires AllDigits(ds) && ds != []
    ensures ParseNumber(Text(ds)) == DigitsValue(ds) as real
  {
    ParseCleanText(ds);
    ParseDigitsNumeral(ds);
  }

  /** Parsing a rendered amount gives the amount back. */
  lemma ParseRenderedCents(c: int)
    ensures ParseNumber(Text(RenderCents(c))) == c as real / 100.0
  {
    var a := if c < 0 then -c else c;
    var ip, fp := NatDigits(a / 100), TwoDigits(a % 100);
    var s := RenderCents(c);
    assert forall i :: 0 <= i < |s| ==> s[i] == '-' || s[i] == '.' || IsDigit(s[i]);
    ParseCleanText(s);
    CentsValue(a);
    if c < 0 {
      ParseNegativeDecimal(ip, fp);
    } else {
      ParsePositiveDecimal(ip, fp);
    }
  }
}

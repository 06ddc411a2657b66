/** Inputs of the money parser that show how it treats currency symbols and separators. */
module MoneyExamples {
  import opened Money
  import opened MoneyProperties

  /** `String(undefined)` is "undefined", which parses to 0. */
  lemma MissingFieldIsZero()
    ensures ParseNumber(Missing) == 0.0
  {
    NoNumeralIsZero("undefined");
  }

  /** `String(null)` is "null", which parses to 0. */
  lemma NullFieldIsZero()
    ensures ParseNumber(Null) == 0.0
  {
    NoNumeralIsZero("null");
  }

  /** Text that is not a number, "foo", parses to 0. */
  lemma WordIsZero()
    ensures ParseNumber(Text("foo")) == 0.0
  {
    NoNumeralIsZero("foo");
  }

  /** Stripping turns "$" ip "," jp "." fp into ip jp "." fp. */
  lemma DollarAndCommaStripped(ip: string, jp: string, fp: string)
    ensures ParseNumber(Text("$" + ip + "," + jp + "." + fp)) == ParseNumber(Text((ip + jp) + "." + fp))
  {
    var rest := jp + "." + fp;
    var grouped := ip + [','] + rest;
    assert "$" + ip + "," + jp + "." + fp == [] + ['$'] + grouped;
    assert [] + grouped == grouped;
    assert ip + rest == (ip + jp) + "." + fp;
    StrippedCharIgnored([], '$', grouped);
    StrippedCharIgnored(ip, ',', rest);
  }

  /**
   * A dollar sign and thousands commas are dropped: "$" ip "," jp "." fp
   * (as in "$1,234.56") is worth ip jp "." fp.
   */
  lemma DollarAndThousandsSeparator(ip: string, jp: string, fp: string)
    requires AllDigits(ip) && AllDigits(jp) && AllDigits(fp) && fp != []
    ensures ParseNumber(Text("$" + ip + "," + jp + "." + fp)) == DecimalValue(ip + jp, fp)
  {
    DollarAndCommaStripped(ip, jp, fp);
    AllDigitsConcat(ip, jp);
    ParseDecimalText(ip + jp, fp);
  }

  /** A real euro sign (U+20AC) is not in the stripped class, so any text it starts, "€1,234.56" too, parses to 0. */
  lemma EuroSignIsNotStripped(s: string)
    ensures ParseNumber(Text("\U{20AC}" + s)) == 0.0
  {
    var t := Strip("\U{20AC}" + s);
    StripConcat("\U{20AC}", s);
    assert t == "\U{20AC}" + Strip(s);
    StripRemovesClass(s);
    assert forall i :: 0 <= i < |t| ==> !IsStripped(t[i]);
    NoNumeralIsZero(t);
    StripKeepsCleanText(t);
    SameStripSameAmount("\U{20AC}" + s, t);
  }

  /** A decimal comma is deleted with the thousands commas: ip "," fp (as in "1,50") is the integer ip fp, not ip.fp. */
  lemma DecimalCommaIsDropped(ip: string, fp: string)
    requires AllDigits(ip) && AllDigits(fp) && ip != []
    ensures ParseNumber(Text(ip + "," + fp)) == DigitsValue(ip + fp) as real
  {
    StrippedCharIgnored(ip, ',', fp);
    assert ip + "," + fp == ip + [','] + fp;
    AllDigitsConcat(ip, fp);
    ParseDigitsText(ip + fp);
  }

  /** "1234.56 €": the amount comes first, so the euro sign after it is ignored. */
  lemma TrailingEuroSignIgnored(ip: string, fp: string)
    requires AllDigits(ip) && AllDigits(fp) && fp != []
    ensures ParseNumber(Text(ip + "." + fp + " \U{20AC}")) == DecimalValue(ip, fp)
  {
    var s := ip + "." + fp + " \U{20AC}";
    assert forall i :: 0 <= i < |s| ==> s[i] == '.' || s[i] == ' ' || s[i] == '\U{20AC}' || IsDigit(s[i]);
    assert IsDigit(s[0]) || s[0] == '.';
    ParseCleanText(s);
    ParseNumeralIgnoresRest(ip, fp, " \U{20AC}");
  }

  /** "50 EUR": a unit after a whole amount is ignored. */
  lemma TrailingUnitIgnored(ds: string)
    requires AllDigits(ds) && ds != []
    ensures ParseNumber(Text(ds + " EUR")) == DigitsValue(ds) as real
  {
    var s := ds + " EUR";
    assert forall i :: 0 <= i < |s| ==> s[i] in " EUR" || IsDigit(s[i]);
    assert IsDigit(s[0]);
    ParseCleanText(s);
    ParseDigitsIgnoresRest(ds, " EUR");
  }

  /** " 100": an untrimmed cell with a space in front is worth its digits. */
  lemma LeadingSpaceSkipped(ds: string)
    requires AllDigits(ds) && ds != []
    ensures ParseNumber(Text(" " + ds)) == DigitsValue(ds) as real
  {
    ParseNumberSkipsWhiteSpace(" ", ds);
    ParseDigitsText(ds);
  }

  /** "-50": a minus sign before digits gives minus their value, so the result is a loss. */
  lemma NegativeDigitsText(ds: string)
    requires AllDigits(ds) && ds != []
    ensures ParseNumber(Text("-" + ds)) == -(DigitsValue(ds) as real)
  {
    var s := "-" + ds;
    assert forall i :: 0 <= i < |s| ==> s[i] == '-' || IsDigit(s[i]);
    ParseCleanText(s);
    ParseNumeralMinusSign(ds);
    ParseDigitsNumeral(ds);
  }
}

/** The text of numbers and strings, said without the functions that print them. */
module JsonLayout {
  import opened Decimals
  import opened JsonText

  // ---- when a decimal is written with an exponent ----------------------------------------------------------------------

  lemma {:induction false} PowersGrow(m: nat, n: nat)
    requires m <= n
    ensures Pow10(m) <= Pow10(n) && Pow10(m) > 0
  {
    if n == 0 {
    } else if m < n {
      PowersGrow(m, n - 1);
    } else {
      PowersGrow(n - 1, n - 1);
    }
  }

  lemma {:induction false} PowersMultiply(m: nat, n: nat)
    ensures Pow10(m) * Pow10(n) == Pow10(m + n)
  {
    if n == 0 {
    } else {
      PowersMultiply(m, n - 1);
      assert Pow10(m) * Pow10(n) == 10 * (Pow10(m) * Pow10(n - 1)) by { ShiftProduct(Pow10(m), Pow10(n - 1)); }
    }
  }

  /** A numeral without leading zero lies between two powers of ten. */
  lemma {:induction false} ValueByLength(s: string)
    requires AllDigits(s) && s != [] && s[0] != '0'
    ensures Pow10(|s| - 1) <= Value(s) < Pow10(|s|)
  {
    PadOfValue(s);
    if |s| == 1 {
      assert s[..0] == [];
      assert Value(s) == DigitValue(s[0]);
      assert DigitChar(0) == '0';
    } else {
      ValueByLength(s[..|s| - 1]);
    }
  }

  /** The magnitude of a decimal, ignoring its sign, is at least 10^-6. */
  predicate NotTiny(d: Decimal)
    requires d.Normalised()
  {
    Value(d.digits) * 1_000_000 >= Pow10(-d.exp)
  }

  /** Its magnitude is below 10^21. */
  predicate NotHuge(d: Decimal)
    requires d.Normalised()
  {
    Value(d.digits) < Pow10(21 - d.exp)
  }

  lemma MagnitudeByPosition(d: Decimal)
    requires d.Normalised()
    ensures var position := |d.digits| + d.exp;
      (NotTiny(d) <==> position > -6) && (NotHuge(d) <==> position <= 21)
  {
    hide Value, Pow10;
    var n := |d.digits|;
    ValueByLength(d.digits);
    assert Pow10(6) == 1_000_000 by { SixZeros(); }
    PowersMultiply(n - 1, 6);
    PowersMultiply(n, 6);
    if n + d.exp > -6 {
      PowersGrow(-d.exp, n + 5);
      TimesGrows(Pow10(n - 1), Value(d.digits), Pow10(6));
    } else {
      PowersGrow(n + 6, -d.exp);
      TimesGrowsStrictly(Value(d.digits), Pow10(n), Pow10(6));
    }
    if n + d.exp <= 21 { PowersGrow(n, 21 - d.exp); } else { PowersGrow(21 - d.exp, n - 1); }
  }

  lemma SixZeros()
    ensures Pow10(6) == 1_000_000
  {
  }

  lemma TimesGrows(a: nat, b: nat, k: nat)
    requires a <= b
    ensures a * k <= b * k
  {
  }

  lemma TimesGrowsStrictly(a: nat, b: nat, k: nat)
    requires a < b && k > 0
    ensures a * k < b * k
  {
  }

  /** A decimal is written with an exponent exactly if its magnitude is below 10^-6 or not below 10^21. */
  lemma ExponentByMagnitude(d: Decimal)
    requires d.Normalised()
    ensures 'e' in Layout(d) <==> !NotTiny(d) || !NotHuge(d)
  {
    hide Value, Pow10, Dec, Signed, NotTiny, NotHuge;
    MagnitudeByPosition(d);
    DigitsExclude(d.digits, 'e');
    var position := |d.digits| + d.exp;
    if -6 < position <= 21 {
      if position > 0 {
        DigitsExclude(d.digits[..position], 'e');
        DigitsExclude(d.digits[position..], 'e');
      } else {
        DigitsExclude(Zeros(-position), 'e');
      }
      assert 'e' !in Body(d);
    } else {
      var exponent := position - 1;
      var text := if exponent >= 0 then "+" + Dec(exponent) else Signed(exponent);
      assert Body(d) == Mantissa(d.digits) + "e" + text;
      assert Body(d)[|Mantissa(d.digits)|] == 'e';
      assert Layout(d)[if d.neg then 1 + |Mantissa(d.digits)| else |Mantissa(d.digits)|] == 'e';
    }
  }

  /** A plain decimal has one point, digits on both sides, no superfluous zero before it and none at its end. */
  predicate PlainParts(s: string, whole: string, fraction: string) {
    && s == whole + "." + fraction && AllDigits(whole) && AllDigits(fraction) && whole != "" && fraction != ""
    && (whole[0] == '0' ==> whole == "0") && fraction[|fraction| - 1] != '0'
  }

  /** A decimal with an exponent has one digit, not zero, before the point; digits after it only if the last is not zero;
      and an exponent with its sign and no leading zero. */
  predicate ExponentParts(s: string, first: char, fraction: string, sign: char, exponent: string) {
    && s == [first] + (if fraction == "" then "" else "." + fraction) + "e" + [sign] + exponent
    && IsDigit(first) && first != '0' && AllDigits(fraction)
    && (fraction != "" ==> fraction[|fraction| - 1] != '0')
    && (sign == '+' || sign == '-') && AllDigits(exponent) && exponent != "" && (exponent[0] == '0' ==> exponent == "0")
  }

  /** The layout of a decimal, after its sign. */
  lemma LayoutShape(d: Decimal)
    requires d.Normalised()
    ensures d.neg <==> Layout(d)[0] == '-'
    ensures var s := if d.neg then Layout(d)[1..] else Layout(d);
      if 'e' in Layout(d) then exists first, fraction, sign, exponent :: ExponentParts(s, first, fraction, sign, exponent)
      else exists whole, fraction :: PlainParts(s, whole, fraction)
  {
    hide Value, Pow10, Dec, Signed, NotTiny, NotHuge, PlainParts, ExponentParts, Body;
    assert d.neg ==> Layout(d)[1..] == Body(d);
    MagnitudeByPosition(d);
    ExponentByMagnitude(d);
    if 'e' in Layout(d) { BodyWithExponent(d); } else { PlainBody(d); }
  }

  lemma PlainBody(d: Decimal)
    requires d.Normalised() && -6 < |d.digits| + d.exp <= 21
    ensures (exists whole, fraction :: PlainParts(Body(d), whole, fraction)) && Body(d) != "" && Body(d)[0] != '-'
  {
    var position := |d.digits| + d.exp;
    if position > 0 {
      PlainlyPlain(Body(d), d.digits[..position], d.digits[position..]);
    } else {
      var fraction := Zeros(-position) + d.digits;
      assert fraction[|fraction| - 1] == d.digits[|d.digits| - 1];
      assert Body(d) == "0" + "." + fraction;
      PlainlyPlain(Body(d), "0", fraction);
    }
  }

  lemma PlainlyPlain(s: string, whole: string, fraction: string)
    requires PlainParts(s, whole, fraction)
    ensures (exists w, f :: PlainParts(s, w, f)) && s != "" && s[0] != '-'
  {
    assert s[0] == whole[0];
  }

  lemma BodyWithExponent(d: Decimal)
    requires d.Normalised() && !(-6 < |d.digits| + d.exp <= 21)
    ensures exists first, fraction, sign, exponent :: ExponentParts(Body(d), first, fraction, sign, exponent)
    ensures Body(d) != "" && Body(d)[0] != '-'
  {
    hide Dec;
    var exponent := |d.digits| + d.exp - 1;
    var sign := if exponent >= 0 then '+' else '-';
    var text := Dec(if exponent >= 0 then exponent else -exponent);
    var fraction := d.digits[1..];
    MantissaParts(d.digits);
    assert Body(d) == Mantissa(d.digits) + "e" + ([sign] + text);
    assert Body(d) == Mantissa(d.digits) + "e" + [sign] + text;
    assert ExponentParts(Body(d), d.digits[0], fraction, sign, text);
    assert Body(d)[0] == d.digits[0];
  }

  lemma MantissaParts(digits: string)
    requires digits != ""
    ensures Mantissa(digits) == [digits[0]] + (if digits[1..] == "" then "" else "." + digits[1..])
  {
  }

  // ---- which characters are escaped, and how ------------------------------------------------------------------------------

  /** The letter after the backslash in a two-character escape. */
  ghost predicate ShortEscape(c: char, letter: char) {
    || (c == '"' && letter == '"') || (c == '\\' && letter == '\\') || (c == '\n' && letter == 'n')
    || (c == '\r' && letter == 'r') || (c == '\t' && letter == 't') || (c as int == 8 && letter == 'b')
    || (c as int == 12 && letter == 'f')
  }

  /** Quotes, backslashes and control characters are escaped, and nothing else is: by a backslash and a letter where there
      is one, and by four lower-case hexadecimal digits otherwise. */
  lemma EscapedExactly(c: char)
    ensures var e := Escape(c);
      if c != '"' && c != '\\' && c as int >= 32 then e == [c]
      else if c in "\"\\\n\r\t\U{08}\U{0c}" then |e| == 2 && e[0] == '\\' && ShortEscape(c, e[1])
      else
        && |e| == 6 && e[..4] == "\\u00" && HexValue(e[4]).Some? && HexValue(e[5]).Some?
        && 16 * HexValue(e[4]).value + HexValue(e[5]).value == c as int
  {
  }

  /** A quoted text is its escapes, one after the other, between quotes. */
  lemma QuotedInOrder(s: string, c: char, t: string)
    ensures Quote(s + [c] + t) == "\"" + EscapeAll(s) + Escape(c) + EscapeAll(t) + "\"" && Quote("") == "\"\""
  {
    hide Escape, EscapeAll;
    EscapesConcat(s + [c], t);
    EscapesConcat(s, [c]);
    EscapesOne(c);
    assert EscapeAll(s + [c] + t) == EscapeAll(s) + Escape(c) + EscapeAll(t);
    assert Quote(s + [c] + t) == "\"" + (EscapeAll(s) + Escape(c) + EscapeAll(t)) + "\"";
  }

  lemma EscapesOne(c: char)
    ensures EscapeAll([c]) == Escape(c) && EscapeAll("") == ""
  {
    hide Escape;
    assert [c][1..] == "";
  }

  lemma {:induction false} EscapesConcat(s: string, t: string)
    ensures EscapeAll(s + t) == EscapeAll(s) + EscapeAll(t)
  {
    hide Escape;
    if s == "" {
      assert s + t == t;
    } else {
      EscapesConcat(s[1..], t);
      assert (s + t)[1..] == s[1..] + t;
    }
  }
}

/** The JSON text layer: the exact characters the canonical encoder emits, and a reader for them. */
module JsonText {
  import opened Common
  import opened Decimals

  /** A non-integral decimal, as `Decimal(repr(x)).as_tuple()` presents it: ±digits × 10^exp. */
  datatype Decimal = Decimal(neg: bool, digits: string, exp: int) {
    /** No leading or trailing zero and a genuine fraction. */
    predicate Normalised() {
      && AllDigits(digits) && digits != [] && digits[0] != '0' && digits[|digits| - 1] != '0'
      && exp < 0
    }

    predicate FitsBinary64() { |digits| <= 17 && exp >= -345 }
  }

  /** What the shortest repr of a non-integral binary64 value can be: at most 17 digits, not below 4.9e-324. */
  type Fraction = d: Decimal | d.Normalised() && d.FitsBinary64() witness Decimal(false, "5", -1)

  datatype Keyed<+V> = Keyed(key: string, value: V)

  type Member = Keyed<Json>

  datatype Json =
    | JNull
    | JBool(b: bool)
    | JInt(n: int)
    | JDec(d: Fraction)
    | JStr(s: string)
    | JArr(items: seq<Json>)
    | JObj(members: seq<Member>)

  // ---- numbers -------------------------------------------------------------------------------

  function Zeros(n: nat): (s: string)
    ensures |s| == n && AllDigits(s)
  {
    seq(n, _ => '0')
  }

  function Mantissa(digits: string): string
    requires digits != []
  {
    if |digits| == 1 then digits else digits[..1] + "." + digits[1..]
  }

  /** The three layouts of a positive decimal. */
  function Body(d: Decimal): string
    requires d.Normalised()
  {
    var position := |d.digits| + d.exp;
    if 0 < position <= 21 then
      d.digits[..position] + "." + d.digits[position..]
    else if -6 < position <= 0 then
      "0." + Zeros(-position) + d.digits
    else
      var exponent := position - 1;
      Mantissa(d.digits) + "e" + (if exponent >= 0 then "+" + Dec(exponent) else Signed(exponent))
  }

  function Layout(d: Decimal): string
    requires d.Normalised()
  {
    if d.neg then "-" + Body(d) else Body(d)
  }

  /** What a numeral denotes: ±mantissa × 10^exponent. */
  datatype Denotation = Denotation(neg: bool, mantissa: nat, exponent: int)

  function IndexOf(s: string, c: char): (k: nat)
    ensures k <= |s| && (k < |s| ==> s[k] == c)
    ensures forall i | 0 <= i < k :: s[i] != c
  {
    if s == [] || s[0] == c then 0 else 1 + IndexOf(s[1..], c)
  }

  function ReadSigned(s: string): Option<int> {
    if s == "" then None
    else if s[0] in "+-" then
      if |s| == 1 || !AllDigits(s[1..]) then None
      else if s[0] == '-' then Some(-(Value(s[1..]) as int))
      else Some(Value(s[1..]))
    else if AllDigits(s) then Some(Value(s))
    else None
  }

  /** Reads `integer[.fraction][e exponent]` by the grammar of section 6 of RFC 8259. */
  function DenoteBody(neg: bool, s: string): Option<Denotation> {
    var e := IndexOf(s, 'e');
    var significand := s[..e];
    var point := IndexOf(significand, '.');
    var integer := significand[..point];
    var fraction := if point < |significand| then significand[point + 1..] else "";
    var exponent := if e < |s| then ReadSigned(s[e + 1..]) else Some(0);
    if integer != "" && AllDigits(integer) && AllDigits(fraction) && exponent.Some? then
      Some(Denotation(neg, Value(integer + fraction), exponent.value - |fraction|))
    else
      None
  }

  function Denote(s: string): Option<Denotation> {
    if s != "" && s[0] == '-' then DenoteBody(true, s[1..]) else DenoteBody(false, s)
  }

  lemma IndexOfAppend(a: string, c: char, b: string)
    requires c !in a
    ensures IndexOf(a + [c] + b, c) == |a|
    decreases a
  {
    assert (a + [c] + b)[|a|] == c;
  }

  lemma IndexOfAbsent(a: string, c: char)
    requires c !in a
    ensures IndexOf(a, c) == |a|
  {
  }

  lemma DigitsExclude(s: string, c: char)
    requires AllDigits(s) && !IsDigit(c)
    ensures c !in s
  {
  }

  /** The significand `integer . fraction` (or a bare integer) reads back as its parts. */
  lemma DenoteParts(neg: bool, integer: string, fraction: string, dot: bool, exponent: string, n: int)
    requires AllDigits(integer) && integer != "" && AllDigits(fraction)
    requires !dot ==> fraction == ""
    requires exponent != "" ==> ReadSigned(exponent) == Some(n)
    requires exponent == "" ==> n == 0
    ensures
      var significand := if dot then integer + "." + fraction else integer;
      var text := if exponent == "" then significand else significand + "e" + exponent;
      DenoteBody(neg, text) == Some(Denotation(neg, Value(integer + fraction), n - |fraction|))
  {
    hide Value, ReadSigned, IndexOf;
    DigitsExclude(integer, '.'); DigitsExclude(integer, 'e');
    DigitsExclude(fraction, 'e');
    var significand := if dot then integer + "." + fraction else integer;
    assert 'e' !in significand;
    var text := if exponent == "" then significand else significand + "e" + exponent;
    if exponent == "" { IndexOfAbsent(text, 'e'); } else { IndexOfAppend(significand, 'e', exponent); }
    assert text[..|significand|] == significand;
    if dot {
      IndexOfAppend(integer, '.', fraction);
      assert significand[..|integer|] == integer && significand[|integer| + 1..] == fraction;
    } else {
      IndexOfAbsent(integer, '.');
      assert integer + fraction == integer;
    }
    if exponent != "" { assert text[|significand| + 1..] == exponent; }
  }

  lemma ValueOfZeros(n: nat, digits: string)
    requires AllDigits(digits)
    ensures Value("0" + Zeros(n) + digits) == Value(digits)
  {
    AllZerosValue("0" + Zeros(n));
    ValueOfConcat("0" + Zeros(n), digits);
  }

  lemma {:induction false} AllZerosValue(s: string)
    requires forall i | 0 <= i < |s| :: s[i] == '0'
    ensures AllDigits(s) && Value(s) == 0
  {
    if s != [] { AllZerosValue(s[..|s| - 1]); }
  }

  lemma ExponentReads(n: int)
    ensures
      var t := if n >= 0 then "+" + Dec(n) else Signed(n);
      t != "" && ReadSigned(t) == Some(n)
  {
    if n >= 0 {
      ValueOfDec(n);
      assert ("+" + Dec(n))[1..] == Dec(n);
    } else {
      ValueOfDec(-n);
      assert Signed(n)[1..] == Dec(-n);
    }
  }

  lemma BodyDenotes(neg: bool, d: Decimal)
    requires d.Normalised()
    ensures DenoteBody(neg, Body(d)) == Some(Denotation(neg, Value(d.digits), d.exp))
  {
    hide Value, ReadSigned, IndexOf, DenoteBody, Dec, Signed;
    var position := |d.digits| + d.exp;
    if 0 < position <= 21 {
      assert d.digits[..position] + d.digits[position..] == d.digits;
      DenoteParts(neg, d.digits[..position], d.digits[position..], true, "", 0);
    } else if -6 < position <= 0 {
      DenoteParts(neg, "0", Zeros(-position) + d.digits, true, "", 0);
      ValueOfZeros(-position, d.digits);
      assert "0" + (Zeros(-position) + d.digits) == "0" + Zeros(-position) + d.digits;
      assert Body(d) == "0" + "." + (Zeros(-position) + d.digits);
    } else {
      var exponent := position - 1;
      ExponentReads(exponent);
      var text := if exponent >= 0 then "+" + Dec(exponent) else Signed(exponent);
      assert d.digits[..1] + d.digits[1..] == d.digits;
      assert |d.digits| == 1 ==> d.digits[..1] == d.digits;
      DenoteParts(neg, d.digits[..1], d.digits[1..], |d.digits| > 1, text, exponent);
    }
  }

  /** In all three layouts the text denotes exactly sign × digits × 10^exponent. */
  lemma LayoutDenotesItsDecimal(d: Decimal)
    requires d.Normalised()
    ensures Denote(Layout(d)) == Some(Denotation(d.neg, Value(d.digits), d.exp))
  {
    BodyDenotes(d.neg, d);
    if d.neg {
      assert Layout(d)[1..] == Body(d);
    } else {
      assert Body(d)[0] != '-';
    }
  }

  /** Distinct normalised decimals never share a text. */
  lemma LayoutInjective(a: Decimal, b: Decimal)
    requires a.Normalised() && b.Normalised() && Layout(a) == Layout(b)
    ensures a == b
  {
    LayoutDenotesItsDecimal(a);
    LayoutDenotesItsDecimal(b);
    DecOfValue(a.digits);
    DecOfValue(b.digits);
  }

  // ---- strings -------------------------------------------------------------------------------

  function HexChar(d: nat): char
    requires d < 16
  {
    if d < 10 then DigitChar(d) else (87 + d) as char
  }

  function HexValue(c: char): Option<nat> {
    if IsDigit(c) then Some(DigitValue(c)) else if 'a' <= c <= 'f' then Some(c as int - 87) else None
  }

  /** The escapes of `json.dumps(..., ensure_ascii=False)`: section 7 of RFC 8259. */
  function Escape(c: char): (e: string)
    ensures e != [] && e[0] != '"'
  {
    match c
    case '"' => "\\\""
    case '\\' => "\\\\"
    case '\n' => "\\n"
    case '\r' => "\\r"
    case '\t' => "\\t"
    case '\U{08}' => "\\b"
    case '\U{0c}' => "\\f"
    case _ =>
      if c < ' ' then "\\u00" + [HexChar(c as int / 16), HexChar(c as int % 16)] else [c]
  }

  function EscapeAll(s: string): string {
    if s == "" then "" else Escape(s[0]) + EscapeAll(s[1..])
  }

  function Quote(s: string): string { "\"" + EscapeAll(s) + "\"" }

  /** A successful read leaves the unread remainder. */
  datatype Read<+T> = Fail | Done(value: T, rest: string)

  function Unescape(t: string): (r: Read<char>)
    ensures r.Done? ==> |r.rest| < |t|
  {
    if t == "" || t[0] == '"' then Fail
    else if t[0] != '\\' then (if t[0] < ' ' then Fail else Done(t[0], t[1..]))
    else if |t| < 2 then Fail
    else match t[1]
      case '"' => Done('"', t[2..])
      case '\\' => Done('\\', t[2..])
      case 'n' => Done('\n', t[2..])
      case 'r' => Done('\r', t[2..])
      case 't' => Done('\t', t[2..])
      case 'b' => Done('\U{08}', t[2..])
      case 'f' => Done('\U{0c}', t[2..])
      case 'u' =>
        if |t| < 6 || t[2] != '0' || t[3] != '0' then Fail
        else
          var hi, lo := HexValue(t[4]), HexValue(t[5]);
          if hi.Some? && lo.Some? then Done((16 * hi.value + lo.value) as char, t[6..]) else Fail
      case _ => Fail
  }

  function ReadString(t: string): (r: Read<string>)
    ensures r.Done? ==> |r.rest| < |t|
  {
    if t == "" then Fail
    else if t[0] == '"' then Done("", t[1..])
    else match Unescape(t)
      case Fail => Fail
      case Done(c, rest) =>
        match ReadString(rest)
        case Fail => Fail
        case Done(s, tail) => Done([c] + s, tail)
  }

  lemma UnescapeEscape(c: char, rest: string)
    ensures Unescape(Escape(c) + rest) == Done(c, rest)
  {
    var t := Escape(c) + rest;
    assert t[|Escape(c)|..] == rest;
  }

  lemma {:induction false} ReadQuoted(s: string, rest: string)
    ensures ReadString(EscapeAll(s) + "\"" + rest) == Done(s, rest)
  {
    var t := EscapeAll(s) + "\"" + rest;
    if s == "" {
      assert t[1..] == rest;
    } else {
      var tail := EscapeAll(s[1..]) + "\"" + rest;
      assert t == Escape(s[0]) + tail;
      UnescapeEscape(s[0], tail);
      ReadQuoted(s[1..], rest);
      assert [s[0]] + s[1..] == s;
    }
  }

  // ---- values --------------------------------------------------------------------------------

  function Print(j: Json): string
    decreases j, 1
  {
    match j
    case JNull => "null"
    case JBool(b) => if b then "true" else "false"
    case JInt(n) => Signed(n)
    case JDec(d) => Layout(d)
    case JStr(s) => Quote(s)
    case JArr(items) => "[" + PrintItems(items) + "]"
    case JObj(ms) => "{" + PrintMembers(ms) + "}"
  }

  function PrintItems(items: seq<Json>): string
    decreases items, 0
  {
    if items == [] then "" else Print(items[0]) + PrintMoreItems(items[1..])
  }

  function PrintMoreItems(items: seq<Json>): string
    decreases items, 0
  {
    if items == [] then "" else "," + Print(items[0]) + PrintMoreItems(items[1..])
  }

  function PrintMember(m: Member): string
    decreases m, 0
  {
    Quote(m.key) + ":" + Print(m.value)
  }

  function PrintMembers(ms: seq<Member>): string
    decreases ms, 0
  {
    if ms == [] then "" else PrintMember(ms[0]) + PrintMoreMembers(ms[1..])
  }

  function PrintMoreMembers(ms: seq<Member>): string
    decreases ms, 0
  {
    if ms == [] then "" else "," + PrintMember(ms[0]) + PrintMoreMembers(ms[1..])
  }

  predicate IsNumberChar(c: char) { IsDigit(c) || c in "+-.e" }

  function NumberSpan(t: string): (k: nat)
    ensures k <= |t| && forall i | 0 <= i < k :: IsNumberChar(t[i])
    ensures k < |t| ==> !IsNumberChar(t[k])
  {
    if t != "" && IsNumberChar(t[0]) then 1 + NumberSpan(t[1..]) else 0
  }

  /** A numeral with neither point nor exponent is an integer; any other one must be a normalised decimal. */
  function ReadNumber(token: string): Option<Json> {
    if '.' !in token && 'e' !in token then
      if token != "" && token[0] == '-' then
        if |token| > 1 && AllDigits(token[1..]) then Some(JInt(-(Value(token[1..]) as int))) else None
      else if token != "" && AllDigits(token) then Some(JInt(Value(token)))
      else None
    else match Denote(token)
      case None => None
      case Some(v) =>
        var d := Decimal(v.neg, Dec(v.mantissa), v.exponent);
        if d.Normalised() && d.FitsBinary64() then Some(JDec(d)) else None
  }

  function ReadValue(t: string): (r: Read<Json>)
    ensures r.Done? ==> |r.rest| < |t|
    decreases |t|, 1
  {
    if t == "" then Fail
    else if t[0] == '"' then
      (match ReadString(t[1..]) case Fail => Fail case Done(s, rest) => Done(JStr(s), rest))
    else if t[0] == '[' then
      if |t| > 1 && t[1] == ']' then Done(JArr([]), t[2..])
      else (match ReadItems(t[1..]) case Fail => Fail case Done(items, rest) => Done(JArr(items), rest))
    else if t[0] == '{' then
      if |t| > 1 && t[1] == '}' then Done(JObj([]), t[2..])
      else (match ReadMembers(t[1..]) case Fail => Fail case Done(ms, rest) => Done(JObj(ms), rest))
    else if "null" <= t then Done(JNull, t[4..])
    else if "true" <= t then Done(JBool(true), t[4..])
    else if "false" <= t then Done(JBool(false), t[5..])
    else
      var k := NumberSpan(t);
      if k == 0 then Fail
      else match ReadNumber(t[..k])
        case None => Fail
        case Some(j) => Done(j, t[k..])
  }

  /** One or more comma-separated items and the closing bracket. */
  function ReadItems(t: string): (r: Read<seq<Json>>)
    ensures r.Done? ==> |r.rest| < |t|
    decreases |t|, 2
  {
    match ReadValue(t)
    case Fail => Fail
    case Done(j, rest) =>
      if rest != "" && rest[0] == ']' then Done([j], rest[1..])
      else if rest != "" && rest[0] == ',' then
        (match ReadItems(rest[1..]) case Fail => Fail case Done(more, tail) => Done([j] + more, tail))
      else Fail
  }

  function ReadMember(t: string): (r: Read<Member>)
    ensures r.Done? ==> |r.rest| < |t|
    decreases |t|, 2
  {
    if t == "" || t[0] != '"' then Fail
    else match ReadString(t[1..])
      case Fail => Fail
      case Done(key, rest) =>
        if rest == "" || rest[0] != ':' then Fail
        else match ReadValue(rest[1..])
          case Fail => Fail
          case Done(j, tail) => Done(Keyed(key, j), tail)
  }

  function ReadMembers(t: string): (r: Read<seq<Member>>)
    ensures r.Done? ==> |r.rest| < |t|
    decreases |t|, 3
  {
    match ReadMember(t)
    case Fail => Fail
    case Done(m, rest) =>
      if rest != "" && rest[0] == '}' then Done([m], rest[1..])
      else if rest != "" && rest[0] == ',' then
        (match ReadMembers(rest[1..]) case Fail => Fail case Done(more, tail) => Done([m] + more, tail))
      else Fail
  }

  /** What may follow a value: nothing, a separator, a closing bracket, or the line feed of a log line. */
  predicate Delimited(rest: string) { rest == "" || rest[0] in ",]}\n" }

  /** `json.loads` on compact JSON text with at most one trailing line feed. */
  function Loads(text: string): Option<Json> {
    match ReadValue(text)
    case Done(j, rest) => if rest == "" || rest == "\n" then Some(j) else None
    case Fail => None
  }
}

/** Reading back what was printed: the canonical text of a JSON value determines the value. */
module JsonRoundTrip {
  import opened Common
  import opened Decimals
  import opened JsonText

  predicate Numeric(t: string) { forall i | 0 <= i < |t| :: IsNumberChar(t[i]) }

  lemma BodyIsNumeric(d: Decimal)
    requires d.Normalised()
    ensures var b := Body(d);
      b != "" && IsDigit(b[0]) && Numeric(b) && ('.' in b || 'e' in b)
  {
    hide Dec, Signed;
    var position := |d.digits| + d.exp;
    var b := Body(d);
    assert Numeric(d.digits);
    if 0 < position <= 21 {
      assert b[position] == '.';
    } else if -6 < position <= 0 {
      assert b[1] == '.';
    } else {
      var mantissa := Mantissa(d.digits);
      assert Numeric(mantissa);
      assert b[|mantissa|] == 'e';
    }
  }

  lemma LayoutIsNumeric(d: Decimal)
    requires d.Normalised()
    ensures var t := Layout(d);
      t != "" && (t[0] == '-' || IsDigit(t[0])) && ('.' in t || 'e' in t) && Numeric(t)
  {
    hide Body;
    BodyIsNumeric(d);
    if d.neg {
      var t := Layout(d);
      assert forall i | 0 < i < |t| :: t[i] == Body(d)[i - 1];
      assert t[1..] == Body(d);
    }
  }

  lemma SpanOf(token: string, rest: string)
    requires Numeric(token)
    requires Delimited(rest)
    ensures NumberSpan(token + rest) == |token|
  {
    var t := token + rest;
    var k := NumberSpan(t);
    if rest != "" { assert t[|token|] == rest[0]; }
    assert forall i | 0 <= i < |token| :: t[i] == token[i];
  }

  /** A numeral is read as one token and back to its number. */
  lemma ReadNumeral(j: Json, token: string, rest: string)
    requires token != "" && (token[0] == '-' || IsDigit(token[0]))
    requires Numeric(token)
    requires Delimited(rest) && ReadNumber(token) == Some(j)
    ensures ReadValue(token + rest) == Done(j, rest)
  {
    hide ReadNumber, ReadItems, ReadMembers, ReadString;
    SpanOf(token, rest);
    var t := token + rest;
    assert t[0] == token[0];
    assert t[..|token|] == token && t[|token|..] == rest;
  }

  lemma ReadInt(n: int, rest: string)
    requires Delimited(rest)
    ensures ReadValue(Signed(n) + rest) == Done(JInt(n), rest)
  {
    hide ReadValue, Value, Dec;
    var t := Signed(n);
    if n < 0 {
      assert t[1..] == Dec(-n);
      ValueOfDec(-n);
    } else {
      ValueOfDec(n);
    }
    assert forall i | 0 <= i < |t| :: t[i] == '-' || IsDigit(t[i]);
    assert '.' !in t && 'e' !in t;
    ReadNumeral(JInt(n), t, rest);
  }

  lemma ReadDec(d: Fraction, rest: string)
    requires Delimited(rest)
    ensures ReadValue(Layout(d) + rest) == Done(JDec(d), rest)
  {
    hide ReadValue, Layout, Denote, Value;
    LayoutIsNumeric(d);
    LayoutDenotesItsDecimal(d);
    DecOfValue(d.digits);
    ReadNumeral(JDec(d), Layout(d), rest);
  }

  lemma ReadLiteral(j: Json, rest: string)
    requires j.JNull? || j.JBool?
    ensures ReadValue(Print(j) + rest) == Done(j, rest)
  {
    hide ReadNumber, NumberSpan, ReadString, ReadItems, ReadMembers;
    var t := Print(j) + rest;
    assert t[|Print(j)|..] == rest;
  }

  lemma ReadText(s: string, rest: string)
    ensures ReadValue(Quote(s) + rest) == Done(JStr(s), rest)
  {
    hide ReadNumber, NumberSpan, EscapeAll, ReadString, ReadItems, ReadMembers;
    ReadQuoted(s, rest);
    assert (Quote(s) + rest)[1..] == EscapeAll(s) + "\"" + rest;
  }

  lemma {:induction false} ReadPrinted(j: Json, rest: string)
    requires Delimited(rest)
    ensures ReadValue(Print(j) + rest) == Done(j, rest)
    decreases j, 1
  {
    hide ReadValue, Layout, Signed, Quote;
    match j
    case JInt(n) => ReadInt(n, rest);
    case JDec(d) => ReadDec(d, rest);
    case JStr(s) => ReadText(s, rest);
    case JArr(items) => ReadArray(items, rest);
    case JObj(ms) => ReadObject(ms, rest);
    case _ => ReadLiteral(j, rest);
  }

  lemma {:induction false} ReadArray(items: seq<Json>, rest: string)
    requires Delimited(rest)
    ensures ReadValue("[" + PrintItems(items) + "]" + rest) == Done(JArr(items), rest)
    decreases items, 1
  {
    hide ReadNumber, NumberSpan, ReadString, ReadItems, ReadMembers, Print;
    var t := "[" + PrintItems(items) + "]" + rest;
    if items == [] {
      assert t[1] == ']' && t[2..] == rest;
    } else {
      assert t[1..] == PrintItems(items) + "]" + rest;
      StartsWithoutBracket(items[0]);
      assert t[1] == Print(items[0])[0];
      ReadPrintedItems(items, rest);
    }
  }

  lemma {:induction false} ReadObject(ms: seq<Member>, rest: string)
    requires Delimited(rest)
    ensures ReadValue("{" + PrintMembers(ms) + "}" + rest) == Done(JObj(ms), rest)
    decreases ms, 1
  {
    hide ReadNumber, NumberSpan, ReadString, ReadItems, ReadMembers, Print;
    var t := "{" + PrintMembers(ms) + "}" + rest;
    if ms == [] {
      assert t[1] == '}' && t[2..] == rest;
    } else {
      assert t[1..] == PrintMembers(ms) + "}" + rest;
      assert t[1] == PrintMember(ms[0])[0] == '"';
      ReadPrintedMembers(ms, rest);
    }
  }

  lemma StartsWithoutBracket(j: Json)
    ensures Print(j) != "" && Print(j)[0] != ']'
  {
    hide Layout;
    match j
    case JDec(d) => LayoutIsNumeric(d);
    case _ =>
  }

  lemma {:induction false} ReadPrintedItems(items: seq<Json>, rest: string)
    requires items != []
    ensures ReadItems(PrintItems(items) + "]" + rest) == Done(items, rest)
    decreases items, 0
  {
    hide ReadValue, Print, PrintItems;
    var tail := PrintMoreItems(items[1..]) + "]" + rest;
    assert PrintItems(items) + "]" + rest == Print(items[0]) + tail by { UnfoldItems(items); }
    if |items| == 1 {
      assert items == [items[0]];
      assert tail[0] == ']' && tail[1..] == rest;
      ReadPrinted(items[0], tail);
    } else {
      var more := PrintItems(items[1..]) + "]" + rest;
      UnfoldItems(items[1..]);
      assert tail == "," + more;
      assert tail[1..] == more;
      ReadPrinted(items[0], tail);
      ReadPrintedItems(items[1..], rest);
      assert [items[0]] + items[1..] == items;
    }
  }

  lemma UnfoldItems(items: seq<Json>)
    requires items != []
    ensures PrintItems(items) == Print(items[0]) + PrintMoreItems(items[1..])
    ensures PrintMoreItems(items) == "," + PrintItems(items)
  {
    hide Print;
  }

  lemma {:induction false} ReadPrintedMember(m: Member, rest: string)
    requires Delimited(rest)
    ensures ReadMember(PrintMember(m) + rest) == Done(m, rest)
    decreases m, 0
  {
    hide ReadValue, Print, ReadString, EscapeAll;
    var t := PrintMember(m) + rest;
    var value := Print(m.value) + rest;
    assert t == "\"" + EscapeAll(m.key) + "\"" + ":" + value;
    assert t[1..] == EscapeAll(m.key) + "\"" + (":" + value);
    ReadQuoted(m.key, ":" + value);
    assert (":" + value)[1..] == value;
    ReadPrinted(m.value, rest);
  }

  lemma {:induction false} ReadPrintedMembers(ms: seq<Member>, rest: string)
    requires ms != []
    ensures ReadMembers(PrintMembers(ms) + "}" + rest) == Done(ms, rest)
    decreases ms, 0
  {
    hide ReadMember, PrintMember, PrintMembers;
    var tail := PrintMoreMembers(ms[1..]) + "}" + rest;
    assert PrintMembers(ms) + "}" + rest == PrintMember(ms[0]) + tail by { UnfoldMembers(ms); }
    if |ms| == 1 {
      assert ms == [ms[0]];
      assert tail[0] == '}' && tail[1..] == rest;
      ReadPrintedMember(ms[0], tail);
    } else {
      var more := PrintMembers(ms[1..]) + "}" + rest;
      UnfoldMembers(ms[1..]);
      assert tail == "," + more;
      assert tail[1..] == more;
      ReadPrintedMember(ms[0], tail);
      ReadPrintedMembers(ms[1..], rest);
      assert [ms[0]] + ms[1..] == ms;
    }
  }

  lemma UnfoldMembers(ms: seq<Member>)
    requires ms != []
    ensures PrintMembers(ms) == PrintMember(ms[0]) + PrintMoreMembers(ms[1..])
    ensures PrintMoreMembers(ms) == "," + PrintMembers(ms)
  {
    hide PrintMember;
  }

  /** Reading a printed value, alone or as a log line, gives it back. */
  lemma LoadsPrinted(j: Json)
    ensures Loads(Print(j)) == Some(j) && Loads(Print(j) + "\n") == Some(j)
  {
    hide ReadValue, Print;
    ReadPrinted(j, "");
    ReadPrinted(j, "\n");
    assert Print(j) + "" == Print(j);
  }

  /** Unique parse: two values never share their text. */
  lemma PrintInjective(a: Json, b: Json)
    requires Print(a) == Print(b)
    ensures a == b
  {
    LoadsPrinted(a);
    LoadsPrinted(b);
  }

  /** No value prefixes another in a stream of lines: a printed value has no raw line feed. */
  lemma {:induction false} NoRawLineFeed(j: Json)
    ensures '\n' !in Print(j)
    decreases j, 1
  {
    hide Layout;
    match j
    case JDec(d) => LayoutIsNumeric(d);
    case JStr(s) => EscapedHasNoLineFeed(s);
    case JArr(items) => NoLineFeedItems(items);
    case JObj(ms) => NoLineFeedMembers(ms);
    case _ =>
  }

  lemma {:induction false} EscapedHasNoLineFeed(s: string)
    ensures '\n' !in EscapeAll(s)
  {
    if s != "" { EscapedHasNoLineFeed(s[1..]); }
  }

  lemma {:induction false} NoLineFeedItems(items: seq<Json>)
    ensures '\n' !in PrintItems(items) && '\n' !in PrintMoreItems(items)
    decreases items, 0
  {
    hide Print;
    if items != [] {
      NoRawLineFeed(items[0]);
      NoLineFeedItems(items[1..]);
    }
  }

  lemma {:induction false} NoLineFeedMembers(ms: seq<Member>)
    ensures '\n' !in PrintMembers(ms) && '\n' !in PrintMoreMembers(ms)
    decreases ms, 0
  {
    hide Print;
    if ms != [] {
      assert ms[0] in ms;
      NoRawLineFeed(ms[0].value);
      EscapedHasNoLineFeed(ms[0].key);
      NoLineFeedMembers(ms[1..]);
    }
  }
}

/** The bytes of one stored segment: header line, event lines, and a torn tail or a certified trailer. */
module LogSegments {
  import opened Common
  import opened JsonText
  import opened Clock
  import opened LogWire
  import opened LogEvents
  import opened LogEventTheorems

  const MAX_SEGMENT_BYTES: nat := 8_388_608

  // ---- lines -------------------------------------------------------------------------------------------

  /** Complete lines, and whatever follows the last line feed. */
  datatype Split = Split(lines: seq<string>, torn: string)

  function SplitLines(s: string): (r: Split)
    ensures '\n' !in r.torn
    ensures forall i | 0 <= i < |r.lines| :: IsLine(r.lines[i])
    decreases |s|
  {
    var k := IndexOf(s, '\n');
    if k == |s| then
      assert '\n' !in s;
      Split([], s)
    else
      var rest := SplitLines(s[k + 1..]);
      Split([s[..k + 1]] + rest.lines, rest.torn)
  }

  function Flatten(lines: seq<string>): string {
    if lines == [] then "" else lines[0] + Flatten(lines[1..])
  }

  lemma {:induction false} FlattenConcat(a: seq<string>, b: seq<string>)
    ensures Flatten(a + b) == Flatten(a) + Flatten(b)
  {
    if a == [] {
      assert a + b == b;
    } else {
      assert (a + b)[1..] == a[1..] + b;
      FlattenConcat(a[1..], b);
    }
  }

  lemma FlattenOne(line: string)
    ensures Flatten([line]) == line
  {
    assert [line][1..] == [];
  }

  lemma {:induction false} JoinSplit(s: string)
    ensures Flatten(SplitLines(s).lines) + SplitLines(s).torn == s
    decreases |s|
  {
    var k := IndexOf(s, '\n');
    if k < |s| {
      var rest := SplitLines(s[k + 1..]);
      JoinSplit(s[k + 1..]);
      assert SplitLines(s).lines[1..] == rest.lines;
      assert s == s[..k + 1] + s[k + 1..];
    }
  }

  lemma {:induction false} SplitJoin(lines: seq<string>, torn: string)
    requires '\n' !in torn && forall i | 0 <= i < |lines| :: IsLine(lines[i])
    ensures SplitLines(Flatten(lines) + torn) == Split(lines, torn)
  {
    hide SplitLines, IsLine;
    var s := Flatten(lines) + torn;
    if lines == [] {
      assert s == torn;
      NoLineFeed(s);
      UnfoldTorn(s);
    } else {
      var rest := Flatten(lines[1..]) + torn;
      assert s == lines[0] + rest;
      var k := |lines[0]| - 1;
      FirstLineFeed(lines[0], rest);
      LineIsNotEmpty(lines[0]);
      assert s[..k + 1] == lines[0] && s[k + 1..] == rest;
      UnfoldSplit(s, k);
      SplitJoin(lines[1..], torn);
      assert lines == [lines[0]] + lines[1..];
    }
  }

  lemma NoLineFeed(s: string)
    requires '\n' !in s
    ensures IndexOf(s, '\n') == |s|
  {
  }

  lemma LineIsNotEmpty(line: string)
    requires IsLine(line)
    ensures line != ""
  {
  }

  lemma FirstLineFeed(line: string, rest: string)
    requires IsLine(line)
    ensures IndexOf(line + rest, '\n') == |line| - 1
  {
    var s := line + rest;
    assert forall i | 0 <= i < |line| - 1 :: s[i] == line[i];
    assert s[|line| - 1] == '\n';
  }

  /** Appending a complete line to complete lines. */
  lemma SplitAppendLine(s: string, line: string)
    requires SplitLines(s).torn == "" && IsLine(line)
    ensures SplitLines(s + line) == Split(SplitLines(s).lines + [line], "")
  {
    hide SplitLines, Flatten, IsLine;
    var lines := SplitLines(s).lines;
    JoinSplit(s);
    FlattenConcat(lines, [line]);
    FlattenOne(line);
    SplitJoin(lines + [line], "");
    assert Flatten(lines) + "" == s;
    assert Flatten(lines + [line]) + "" == s + line;
  }

  /** Appending a fragment without a line feed only tears. */
  lemma SplitAppendTorn(s: string, fragment: string)
    requires '\n' !in fragment
    ensures SplitLines(s + fragment) == Split(SplitLines(s).lines, SplitLines(s).torn + fragment)
  {
    hide SplitLines, Flatten;
    var p := SplitLines(s);
    JoinSplit(s);
    SplitJoin(p.lines, p.torn + fragment);
    assert Flatten(p.lines) + (p.torn + fragment) == s + fragment;
  }

  lemma SplitTruncate(s: string)
    ensures var p := SplitLines(s);
      && |p.torn| <= |s| && s[..|s| - |p.torn|] == Flatten(p.lines)
      && SplitLines(s[..|s| - |p.torn|]) == Split(p.lines, "")
  {
    hide SplitLines, Flatten;
    var p := SplitLines(s);
    JoinSplit(s);
    SplitJoin(p.lines, "");
    assert Flatten(p.lines) + "" == Flatten(p.lines);
    assert s[..|s| - |p.torn|] == Flatten(p.lines);
  }

  /** The complete lines of a prefix are a prefix of the complete lines. */
  lemma {:induction false} SplitPrefix(s: string, k: nat)
    requires k <= |s|
    ensures SplitLines(s[..k]).lines <= SplitLines(s).lines
    decreases |s|
  {
    hide SplitLines, IsLine;
    var t := s[..k];
    var j := IndexOf(t, '\n');
    if j < |t| {
      assert s[j] == t[j] && forall i | 0 <= i < j :: s[i] == t[i];
      IndexUnique(s, '\n', j);
      UnfoldSplit(t, j);
      UnfoldSplit(s, j);
      assert t[j + 1..] == s[j + 1..][..k - j - 1];
      assert t[..j + 1] == s[..j + 1];
      SplitPrefix(s[j + 1..], k - j - 1);
    } else {
      assert SplitLines(t).lines == [] by { UnfoldTorn(t); }
    }
  }

  lemma {:induction false} UnfoldTorn(s: string)
    requires IndexOf(s, '\n') == |s|
    ensures SplitLines(s) == Split([], s)
  {
  }

  lemma {:induction false} UnfoldSplit(s: string, j: nat)
    requires j < |s| && IndexOf(s, '\n') == j
    ensures SplitLines(s).lines == [s[..j + 1]] + SplitLines(s[j + 1..]).lines
    ensures SplitLines(s).torn == SplitLines(s[j + 1..]).torn
  {
    hide IndexOf, IsLine;
  }

  lemma IndexUnique(s: string, c: char, j: nat)
    requires j < |s| && s[j] == c && forall i | 0 <= i < j :: s[i] != c
    ensures IndexOf(s, c) == j
  {
  }

  /** The longest prefix made of complete lines. */
  function Complete(s: string): string { Flatten(SplitLines(s).lines) }

  lemma CompleteIsPrefix(s: string)
    ensures Complete(s) <= s
  {
    JoinSplit(s);
  }

  /** A prefix that ends in a line feed lies within the complete lines. */
  lemma CompleteContains(c: string, s: string)
    requires c <= s && SplitLines(c).torn == ""
    ensures c <= Complete(s)
  {
    hide SplitLines, Flatten;
    SplitPrefix(s, |c|);
    assert s[..|c|] == c;
    JoinSplit(c);
    var lines := SplitLines(s).lines;
    var mine := SplitLines(c).lines;
    assert lines == mine + lines[|mine|..];
    FlattenConcat(mine, lines[|mine|..]);
    assert Flatten(mine) + "" == c;
  }

  // ---- open and closed segments ----------------------------------------------------------------------------

  predicate IsEvent(line: string) { ValidateEventLine(line).Some? }

  predicate AllEvents(lines: seq<string>) { forall i | 0 <= i < |lines| :: IsEvent(lines[i]) }

  /** `opened_at + retention_days`, when it is a representable instant. */
  function BoundedExpiry(openedAt: Instant, days: nat): Option<Instant> {
    var deadline := openedAt + days * DAY;
    if InRange(deadline) then Some(deadline) else None
  }

  function Digest(h: Header, events: seq<string>): Hex64 { SHA256(HeaderLine(h) + Flatten(events)) }

  /** `_parse_trailer_line`: a canonical trailer that agrees with the header and event bytes it closes. */
  function ParseTrailerFor(line: string, h: Header, events: seq<string>): Option<Trailer> {
    match ParseTrailer(line)
    case None => None
    case Some(t) =>
      if AllEvents(events) && t.eventCount == |events| && t.contentSha256 == Digest(h, events)
         && h.retentionDays >= 0 && BoundedExpiry(h.openedAt, h.retentionDays) == Some(t.expiresAt)
      then Some(t)
      else None
  }

  function HeaderIn(lines: seq<string>): Option<Header> { if lines == [] then None else ParseHeader(lines[0]) }

  /** The event lines between a segment's header and its trailer, if it has one. */
  function Body(lines: seq<string>): seq<string> {
    if lines == [] then [] else if IsTrailerLine(lines[|lines| - 1]) && |lines| > 1 then lines[1..|lines| - 1] else lines[1..]
  }

  function Events(data: string): seq<string> { Body(SplitLines(data).lines) }
  function HeaderOfData(data: string): Option<Header> { HeaderIn(SplitLines(data).lines) }

  /** A header and events; the tail may be torn. */
  ghost predicate OpenLines(lines: seq<string>) { HeaderIn(lines).Some? && AllEvents(lines[1..]) }

  /** A header, events, and a trailer that certifies them. */
  ghost predicate ClosedLines(lines: seq<string>) {
    && |lines| >= 2 && HeaderIn(lines).Some?
    && var h, n := HeaderIn(lines).value, |lines| - 1;
       var t := ParseTrailerFor(lines[n], h, lines[1..n]);
       t.Some? && t.value.sequence == h.sequence
  }

  ghost predicate IsOpen(data: string) { OpenLines(SplitLines(data).lines) }

  ghost predicate IsClosed(data: string) { SplitLines(data).torn == "" && ClosedLines(SplitLines(data).lines) }

  lemma EventIsNotTrailer(line: string)
    requires IsEvent(line)
    ensures !IsTrailerLine(line) && IsLine(line) && |line| <= MAX_EVENT_LINE_BYTES
  {
    hide ValidateEventLine, IsTrailerLine;
    AcceptedLineIsEventLine(line);
  }

  lemma OpenBody(lines: seq<string>)
    requires OpenLines(lines)
    ensures Body(lines) == lines[1..]
  {
    hide IsEvent, IsTrailerLine, ParseHeader;
    if |lines| > 1 {
      assert lines[1..][|lines| - 2] == lines[|lines| - 1];
      EventIsNotTrailer(lines[|lines| - 1]);
    }
  }

  lemma ClosedBody(lines: seq<string>)
    requires ClosedLines(lines)
    ensures Body(lines) == lines[1..|lines| - 1] && AllEvents(Body(lines)) && IsTrailerLine(lines[|lines| - 1])
  {
    hide ParseTrailer, IsTrailerLine, ParseHeader, IsEvent, TrailerLine;
    var last := lines[|lines| - 1];
    var t := ParseTrailer(last).value;
    ParseTrailerExact(last, t);
    TrailerIsTrailerLine(t);
  }

  lemma OpenIsNotClosed(lines: seq<string>)
    requires OpenLines(lines)
    ensures !ClosedLines(lines)
  {
    hide ParseTrailerFor, IsTrailerLine, ParseHeader, IsEvent;
    if ClosedLines(lines) {
      ClosedBody(lines);
      assert lines[1..][|lines| - 2] == lines[|lines| - 1];
      EventIsNotTrailer(lines[|lines| - 1]);
    }
  }

  /** A fresh segment is its header line. */
  lemma FreshIsOpen(h: Header)
    requires h.Valid()
    ensures SplitLines(HeaderLine(h)) == Split([HeaderLine(h)], "")
    ensures IsOpen(HeaderLine(h)) && HeaderOfData(HeaderLine(h)) == Some(h) && Events(HeaderLine(h)) == []
  {
    hide SplitLines, HeaderLine, ParseHeader, IsTrailerLine, IsLine;
    HeaderIsLine(h);
    ParseHeaderExact(HeaderLine(h), h);
    FlattenOne(HeaderLine(h));
    SplitJoin([HeaderLine(h)], "");
    assert Flatten([HeaderLine(h)]) + "" == HeaderLine(h);
  }

  /** Appending an event line keeps a whole open segment open and adds the event. */
  lemma AppendKeepsOpen(data: string, line: string)
    requires IsOpen(data) && SplitLines(data).torn == "" && IsEvent(line)
    ensures IsOpen(data + line) && SplitLines(data + line).torn == ""
    ensures Events(data + line) == Events(data) + [line] && HeaderOfData(data + line) == HeaderOfData(data)
  {
    hide SplitLines, ParseHeader, IsTrailerLine, IsEvent, IsLine;
    EventIsNotTrailer(line);
    SplitAppendLine(data, line);
    var lines := SplitLines(data).lines;
    OpenBody(lines);
    assert (lines + [line])[1..] == lines[1..] + [line];
    assert OpenLines(lines + [line]);
    OpenBody(lines + [line]);
  }

  /** Tearing a write keeps an open segment open, with the same events. */
  lemma TearKeepsOpen(data: string, fragment: string)
    requires IsOpen(data) && '\n' !in fragment
    ensures IsOpen(data + fragment) && Events(data + fragment) == Events(data)
    ensures HeaderOfData(data + fragment) == HeaderOfData(data)
    ensures SplitLines(data + fragment) == Split(SplitLines(data).lines, SplitLines(data).torn + fragment)
  {
    hide SplitLines, ParseHeader, IsTrailerLine, IsEvent;
    SplitAppendTorn(data, fragment);
  }

  /** A proper prefix of a complete line has no line feed. */
  lemma ProperPrefixIsTorn(line: string, k: nat)
    requires IsLine(line) && k < |line|
    ensures '\n' !in line[..k]
  {
  }

  /** Cutting off the torn tail changes no event. */
  lemma TruncateKeepsOpen(data: string)
    requires IsOpen(data)
    ensures var p := SplitLines(data);
      && |p.torn| <= |data| && data[..|data| - |p.torn|] == Complete(data)
      && IsOpen(Complete(data)) && SplitLines(Complete(data)) == Split(p.lines, "")
      && Events(Complete(data)) == Events(data) && HeaderOfData(Complete(data)) == HeaderOfData(data)
  {
    hide SplitLines, Flatten, ParseHeader, IsTrailerLine, IsEvent;
    SplitTruncate(data);
  }

  /** The trailer the writer emits for an open segment. */
  function TrailerFor(h: Header, events: seq<string>, lastEventAt: Option<Instant>, closedAt: Instant): Option<Trailer> {
    if h.retentionDays < 0 then None
    else match BoundedExpiry(h.openedAt, h.retentionDays)
      case None => None
      case Some(expiresAt) =>
        Some(Trailer(h.sequence, closedAt, lastEventAt, |events|, Digest(h, events), expiresAt))
  }

  /** Closing a whole open segment with the writer's trailer gives a segment the reader certifies. */
  lemma CloseCertifies(data: string, h: Header, lastEventAt: Option<Instant>, closedAt: Instant)
    requires IsOpen(data) && SplitLines(data).torn == "" && HeaderOfData(data) == Some(h)
    requires TrailerFor(h, Events(data), lastEventAt, closedAt).Some?
    requires TrailerFor(h, Events(data), lastEventAt, closedAt).value.Valid()
    ensures var t := TrailerFor(h, Events(data), lastEventAt, closedAt).value;
      && IsClosed(data + TrailerLine(t)) && Events(data + TrailerLine(t)) == Events(data)
      && HeaderOfData(data + TrailerLine(t)) == Some(h)
  {
    hide SplitLines, ParseHeader, IsTrailerLine, IsEvent, TrailerLine, ParseTrailer, IsLine, BoundedExpiry, Digest;
    var t := TrailerFor(h, Events(data), lastEventAt, closedAt).value;
    var lines := SplitLines(data).lines;
    OpenBody(lines);
    TrailerIsLine(t);
    SplitAppendLine(data, TrailerLine(t));
    ParseTrailerExact(TrailerLine(t), t);
    var all := lines + [TrailerLine(t)];
    assert all[1..|all| - 1] == lines[1..];
    assert ClosedLines(all);
    ClosedBody(all);
  }

  /** What a power cut leaves of an open segment: its header and a prefix of its events. */
  lemma CutKeepsOpen(data: string, k: nat)
    requires IsOpen(data) && |HeaderLine(HeaderOfData(data).value)| <= k <= |data|
    ensures IsOpen(data[..k]) && HeaderOfData(data[..k]) == HeaderOfData(data)
    ensures Events(data[..k]) <= Events(data)
  {
    hide SplitLines, ParseHeader, HeaderLine, IsTrailerLine, IsEvent;
    SplitPrefix(data, k);
    HeaderSurvives(data, k);
    var lines, mine := SplitLines(data).lines, SplitLines(data[..k]).lines;
    assert mine[1..] == lines[1..][..|mine| - 1];
    assert OpenLines(mine);
    OpenBody(lines);
    OpenBody(mine);
  }

  lemma HeaderSurvives(data: string, k: nat)
    requires HeaderOfData(data).Some? && |HeaderLine(HeaderOfData(data).value)| <= k <= |data|
    ensures var lines, mine := SplitLines(data).lines, SplitLines(data[..k]).lines;
      mine != [] && lines != [] && mine[0] == lines[0]
  {
    hide SplitLines, ParseHeader, HeaderLine, IsLine;
    var lines := SplitLines(data).lines;
    var h := HeaderOfData(data).value;
    ParseHeaderExact(lines[0], h);
    JoinSplit(data);
    var line := lines[0];
    assert data == line + (Flatten(lines[1..]) + SplitLines(data).torn);
    assert data[..k] == line + data[|line|..k];
    FirstLineFeed(line, data[|line|..k]);
    UnfoldSplit(data[..k], |line| - 1) by { assert IsLine(line); LinePositive(line); }
    assert data[..k][..|line|] == line;
    SplitPrefix(data, k);
  }

  lemma LinePositive(line: string)
    requires IsLine(line)
    ensures |line| >= 1
  {
  }

  /** What a power cut leaves of a segment whose trailer was not yet synced. */
  lemma CutReopensClosed(data: string, k: nat)
    requires IsClosed(data) && |HeaderLine(HeaderOfData(data).value)| <= k < |data|
    ensures IsOpen(data[..k]) && HeaderOfData(data[..k]) == HeaderOfData(data)
    ensures Events(data[..k]) <= Events(data)
  {
    hide SplitLines, ParseHeader, HeaderLine, IsTrailerLine, IsEvent, ParseTrailerFor;
    SplitPrefix(data, k);
    HeaderSurvives(data, k);
    var lines, mine := SplitLines(data).lines, SplitLines(data[..k]).lines;
    ClosedBody(lines);
    FewerLines(data, k);
    assert mine[1..] == lines[1..|lines| - 1][..|mine| - 1];
    assert OpenLines(mine);
    OpenBody(mine);
  }

  lemma FewerLines(data: string, k: nat)
    requires SplitLines(data).torn == "" && k < |data|
    ensures |SplitLines(data[..k]).lines| < |SplitLines(data).lines|
  {
    hide SplitLines, Flatten;
    SplitPrefix(data, k);
    JoinSplit(data);
    JoinSplit(data[..k]);
    var lines, mine := SplitLines(data).lines, SplitLines(data[..k]).lines;
    assert Flatten(lines) + "" == data;
    assert |Flatten(mine)| <= |data[..k]| == k;
    assert mine != lines;
    assert |mine| == |lines| ==> mine == lines;
  }

  /** Keeping more bytes keeps at least as many events. */
  lemma EventsGrow(data: string, j: nat, k: nat)
    requires IsOpen(data) || IsClosed(data)
    requires |HeaderLine(HeaderOfData(data).value)| <= j <= k <= |data|
    ensures Events(data[..j]) <= Events(data[..k]) <= Events(data)
  {
    hide IsOpen, IsClosed, SplitLines, HeaderLine, ParseHeader, IsTrailerLine;
    assert data[..|data|] == data;
    if k < |data| {
      if IsOpen(data) { CutKeepsOpen(data, k); } else { CutReopensClosed(data, k); }
    }
    if IsOpen(data[..k]) {
      CutKeepsOpen(data[..k], j);
    } else if j < k {
      CutReopensClosed(data[..k], j);
    }
    assert data[..k][..j] == data[..j];
  }

  // ---- room for the trailer --------------------------------------------------------------------------------

  /** A segment's bytes up to its trailer. */
  function Kept(lines: seq<string>): string { if lines == [] then "" else lines[0] + Flatten(Body(lines)) }

  /** Every unclosed segment leaves room for the largest trailer line. */
  predicate Roomy(data: string) { |Kept(SplitLines(data).lines)| + MAX_TRAILER_LINE_BYTES <= MAX_SEGMENT_BYTES }

  lemma KeptOfOpen(data: string)
    requires IsOpen(data)
    ensures Kept(SplitLines(data).lines) == Complete(data)
  {
    hide SplitLines, ParseHeader, IsTrailerLine, IsEvent;
    OpenBody(SplitLines(data).lines);
  }

  lemma KeptOfWholeOpen(data: string)
    requires IsOpen(data) && SplitLines(data).torn == ""
    ensures Kept(SplitLines(data).lines) == data
  {
    hide SplitLines, Flatten, IsOpen;
    KeptOfOpen(data);
    JoinSplit(data);
    assert Complete(data) + "" == data;
  }

  lemma {:induction false} FlattenPrefix(a: seq<string>, b: seq<string>)
    requires a <= b
    ensures |Flatten(a)| <= |Flatten(b)|
  {
    assert b == a + b[|a|..];
    FlattenConcat(a, b[|a|..]);
  }

  lemma HasHeader(data: string)
    requires IsOpen(data) || IsClosed(data)
    ensures HeaderOfData(data).Some? && HeaderOfData(data).value.Valid()
  {
    hide SplitLines, ParseHeader, HeaderLine, IsEvent;
    var lines := SplitLines(data).lines;
    ParseHeaderExact(lines[0], HeaderOfData(data).value);
  }

  lemma RoomyOfPrefix(data: string, k: nat)
    requires k <= |data| && Roomy(data) && (IsOpen(data) || IsClosed(data))
    requires |HeaderLine(HeaderOfData(data).value)| <= k
    ensures Roomy(data[..k])
  {
    hide SplitLines, Flatten, ParseHeader, HeaderLine, IsTrailerLine, IsOpen, IsClosed, MAX_SEGMENT_BYTES;
    HasHeader(data);
    EventsGrow(data, k, |data|);
    assert data[..|data|] == data;
    HeaderSurvives(data, k);
    FlattenPrefix(Events(data[..k]), Events(data));
  }
}

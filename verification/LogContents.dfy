/** Which bytes are an open segment and which a closed one, said without the readers that split and parse them. */
module LogContents {
  import opened Common
  import opened Clock
  import opened Calendar
  import opened LogWire
  import opened LogEvents
  import opened LogSegments

  /** A header within its bounds: a 64-bit sequence, an instant before the year 10000, and one to 3,650 days. */
  ghost predicate Headed(h: Header) {
    && 0 < h.sequence <= 9_223_372_036_854_775_807 && h.openedAt < 315_537_897_600_000 && 1 <= h.retentionDays <= 3_650
  }

  ghost predicate Eventful(events: seq<string>) { forall i | 0 <= i < |events| :: ValidateEventLine(events[i]).Some? }

  /** The bytes are a header line, event lines, and a rest without a line feed. */
  ghost predicate Opens(data: string, h: Header, events: seq<string>, torn: string) {
    Headed(h) && Eventful(events) && '\n' !in torn && data == HeaderLine(h) + Flatten(events) + torn
  }

  /** The trailer tells the header's sequence and deadline, the number of the events, and the digest of every byte before
      it. */
  ghost predicate Certifies(t: Trailer, h: Header, events: seq<string>) {
    && t.sequence == h.sequence && t.expiresAt == h.openedAt + h.retentionDays * 86_400_000 < 315_537_897_600_000
    && t.eventCount == |events| <= 9_223_372_036_854_775_807
    && t.contentSha256 == SHA256(HeaderLine(h) + Flatten(events))
    && t.closedAt < 315_537_897_600_000 && (t.lastEventAt.None? <==> events == [])
    && (t.lastEventAt.Some? ==> t.lastEventAt.value < 315_537_897_600_000)
  }

  /** The bytes are a header line, event lines, and the line of a trailer that certifies both. */
  ghost predicate Closes(data: string, h: Header, events: seq<string>, t: Trailer) {
    && Headed(h) && Eventful(events) && Certifies(t, h, events)
    && data == HeaderLine(h) + Flatten(events) + TrailerLine(t)
  }

  lemma HeadedIsValid(h: Header)
    ensures Headed(h) <==> h.Valid()
  {
    RangeEnds(h.openedAt);
  }

  /** An open segment is exactly a header line, event lines and a torn rest, and these are what its readers find in it. */
  lemma OpenExactly(data: string)
    ensures IsOpen(data) <==> exists h, events, torn :: Opens(data, h, events, torn)
    ensures forall h, events, torn | Opens(data, h, events, torn) ::
      HeaderOfData(data) == Some(h) && Events(data) == events && SplitLines(data).torn == torn
  {
    hide SplitLines, Flatten, HeaderLine, ParseHeader, ValidateEventLine, IsTrailerLine, Headed;
    forall h, events, torn | Opens(data, h, events, torn)
      ensures IsOpen(data) && HeaderOfData(data) == Some(h) && Events(data) == events && SplitLines(data).torn == torn
    {
      OpensIsOpen(data, h, events, torn);
    }
    if IsOpen(data) {
      var p := SplitLines(data);
      var h := HeaderOfData(data).value;
      ParseHeaderExact(p.lines[0], h);
      HeadedIsValid(h);
      JoinSplit(data);
      FirstLineJoins(p.lines);
      assert Opens(data, h, p.lines[1..], p.torn);
    }
  }

  lemma FirstLineJoins(lines: seq<string>)
    requires lines != []
    ensures Flatten(lines) == lines[0] + Flatten(lines[1..])
  {
  }

  lemma EventfulAreLines(events: seq<string>)
    requires Eventful(events)
    ensures forall i | 0 <= i < |events| :: IsLine(events[i])
  {
    hide ValidateEventLine, IsLine;
    forall i | 0 <= i < |events| ensures IsLine(events[i]) { EventIsNotTrailer(events[i]); }
  }

  lemma OpensIsOpen(data: string, h: Header, events: seq<string>, torn: string)
    requires Opens(data, h, events, torn)
    ensures IsOpen(data) && HeaderOfData(data) == Some(h) && Events(data) == events && SplitLines(data).torn == torn
  {
    hide SplitLines, HeaderLine, ParseHeader, ValidateEventLine, IsTrailerLine, IsLine, Headed, Flatten;
    var lines := [HeaderLine(h)] + events;
    HeadedIsValid(h);
    ParseHeaderExact(HeaderLine(h), h);
    HeaderIsLine(h);
    EventfulAreLines(events);
    FirstLineJoins(lines);
    assert lines[1..] == events;
    SplitJoin(lines, torn);
    OpenBody(lines);
  }

  /** A closed segment is exactly a header line, event lines and the line of a trailer that certifies them. */
  lemma ClosedExactly(data: string)
    ensures IsClosed(data) <==> exists h, events, t :: Closes(data, h, events, t)
    ensures forall h, events, t | Closes(data, h, events, t) ::
      HeaderOfData(data) == Some(h) && Events(data) == events && SplitLines(data).torn == ""
  {
    hide SplitLines, Flatten, HeaderLine, TrailerLine, ParseHeader, ValidateEventLine, IsTrailerLine, Headed, Certifies;
    forall h, events, t | Closes(data, h, events, t)
      ensures IsClosed(data) && HeaderOfData(data) == Some(h) && Events(data) == events && SplitLines(data).torn == ""
    {
      ClosesIsClosed(data, h, events, t);
    }
    if IsClosed(data) { ClosedCloses(data); }
  }

  lemma ClosesIsClosed(data: string, h: Header, events: seq<string>, t: Trailer)
    requires Closes(data, h, events, t)
    ensures IsClosed(data) && HeaderOfData(data) == Some(h) && Events(data) == events && SplitLines(data).torn == ""
  {
    hide SplitLines, HeaderLine, TrailerLine, ParseHeader, ParseTrailer, ValidateEventLine, IsTrailerLine, IsLine, Headed,
      Flatten;
    var lines := [HeaderLine(h)] + events + [TrailerLine(t)];
    HeadedIsValid(h);
    ParseHeaderExact(HeaderLine(h), h);
    HeaderIsLine(h);
    EventfulAreLines(events);
    CertifiedIsParsed(t, h, events);
    TrailerIsLine(t);
    JoinedLines(h, events, t);
    assert lines[1..|lines| - 1] == events;
    SplitJoin(lines, "");
    assert data + "" == data;
    assert ClosedLines(lines);
    ClosedBody(lines);
  }

  lemma JoinedLines(h: Header, events: seq<string>, t: Trailer)
    ensures Flatten([HeaderLine(h)] + events + [TrailerLine(t)]) == HeaderLine(h) + Flatten(events) + TrailerLine(t)
  {
    hide HeaderLine, TrailerLine, Flatten;
    FlattenConcat([HeaderLine(h)] + events, [TrailerLine(t)]);
    FlattenConcat([HeaderLine(h)], events);
    FlattenOne(HeaderLine(h));
    FlattenOne(TrailerLine(t));
  }

  /** A certifying trailer is what the reader accepts for this header and these events. */
  lemma CertifiedIsParsed(t: Trailer, h: Header, events: seq<string>)
    requires Headed(h) && Eventful(events)
    ensures Certifies(t, h, events) <==> t.sequence == h.sequence && ParseTrailerFor(TrailerLine(t), h, events) == Some(t)
  {
    hide HeaderLine, TrailerLine, ParseTrailer, ValidateEventLine, Flatten, InRange;
    ParseTrailerExact(TrailerLine(t), t);
    RangeEnds(t.closedAt);
    RangeEnds(t.expiresAt);
    if t.lastEventAt.Some? { RangeEnds(t.lastEventAt.value); }
  }

  lemma ClosedCloses(data: string)
    requires IsClosed(data)
    ensures exists h, events, t :: Closes(data, h, events, t)
  {
    hide SplitLines, HeaderLine, TrailerLine, ParseHeader, ParseTrailer, ValidateEventLine, IsTrailerLine, Headed, Flatten,
      Certifies;
    var lines := SplitLines(data).lines;
    var h, n := HeaderOfData(data).value, |lines| - 1;
    var t := ParseTrailerFor(lines[n], h, lines[1..n]).value;
    ParseHeaderExact(lines[0], h);
    ParseTrailerExact(lines[n], t);
    HeadedIsValid(h);
    CertifiedIsParsed(t, h, lines[1..n]);
    JoinedLines(h, lines[1..n], t);
    assert lines == [HeaderLine(h)] + lines[1..n] + [TrailerLine(t)];
    JoinSplit(data);
    assert Flatten(lines) + "" == Flatten(lines);
    assert Closes(data, h, lines[1..n], t);
  }

  /** Two segments closed by one and the same trailer have the same bytes, unless the hash collides. */
  lemma TrailerCertifiesOneContent(
    a: string, b: string, h: Header, k: Header, events: seq<string>, others: seq<string>, t: Trailer)
    requires Closes(a, h, events, t) && Closes(b, k, others, t)
    ensures a == b || exists x: string, y: string :: x != y && SHA256(x) == SHA256(y)
  {
    hide HeaderLine, TrailerLine, Flatten, ValidateEventLine, Headed;
    var x, y := HeaderLine(h) + Flatten(events), HeaderLine(k) + Flatten(others);
    assert a == x + TrailerLine(t) && b == y + TrailerLine(t);
  }
}

/** What a store or a maintenance pass knows of the active segment after reading it. */
module LogTally {
  import opened Common
  import opened Largest
  import opened JsonText
  import opened Clock
  import opened LogWire
  import opened LogEvents
  import opened LogEventTheorems
  import opened LogSegments
  import opened LogDisk
  import opened LogSteps
  import opened LogFilesystem
  import opened LogKernel
  import opened LogPublish
  import opened LogWrites

  /** The time of the last event line. */
  function LastTime(lines: seq<string>): Option<Instant> {
    if lines == [] then None else ValidateEventLine(lines[|lines| - 1])
  }

  /** The running fields of a segment: header, event count, last event time, and every byte so far, as
      given to the running digest. */
  datatype Tally = Tally(header: Header, count: nat, last: Option<Instant>, digested: string) {
    /** The fields are those of an open segment holding exactly the digested bytes. */
    ghost predicate Exact() {
      && IsOpen(digested) && SplitLines(digested).torn == "" && HeaderOfData(digested) == Some(header)
      && count == |Events(digested)| && last == LastTime(Events(digested))
    }
  }

  function FreshTally(h: Header): Tally { Tally(h, 0, None, HeaderLine(h)) }

  lemma FreshIsExact(h: Header)
    requires h.Valid()
    ensures FreshTally(h).Exact()
  {
    hide HeaderLine, IsOpen, SplitLines, Events, HeaderOfData;
    FreshIsOpen(h);
  }

  function Counted(t: Tally, line: string, at: Instant): Tally {
    Tally(t.header, t.count + 1, Some(at), t.digested + line)
  }

  lemma CountedIsExact(t: Tally, line: string, at: Instant)
    requires t.Exact() && ValidateEventLine(line) == Some(at)
    ensures Counted(t, line, at).Exact()
  {
    hide ValidateEventLine, IsOpen, SplitLines, Events, HeaderOfData;
    AppendKeepsOpen(t.digested, line);
  }

  // ---- closing with the running fields -------------------------------------------------------------------------------

  /** The trailer a closer builds from its running fields. */
  function TallyTrailer(t: Tally, closedAt: Instant): Option<Trailer> {
    if t.header.retentionDays < 0 then None
    else match BoundedExpiry(t.header.openedAt, t.header.retentionDays)
      case None => None
      case Some(expiresAt) =>
        Some(Trailer(t.header.sequence, closedAt, t.last, t.count, SHA256(t.digested), expiresAt))
  }

  /** The running digest, count and time are those of the file, so the trailer certifies the segment. */
  lemma TallyTrailerIsTheirs(t: Tally, closedAt: Instant)
    requires t.Exact() && InRange(closedAt) && |t.digested| <= MAX_SEGMENT_BYTES && TallyTrailer(t, closedAt).Some?
    ensures TallyTrailer(t, closedAt) == TrailerFor(t.header, Events(t.digested), t.last, closedAt)
    ensures TallyTrailer(t, closedAt).value.Valid() && TallyTrailer(t, closedAt).value.sequence == t.header.sequence
  {
    hide IsOpen, SplitLines, Events, HeaderOfData, ValidateEventLine, HeaderLine, Flatten, BoundedExpiry, Trailer.Valid;
    DigestedIsSegment(t.digested, t.header);
    TallyTrailerValid(t, closedAt);
  }

  lemma TallyTrailerValid(t: Tally, closedAt: Instant)
    requires t.Exact() && InRange(closedAt) && |t.digested| <= MAX_SEGMENT_BYTES && TallyTrailer(t, closedAt).Some?
    ensures TallyTrailer(t, closedAt).value.Valid() && TallyTrailer(t, closedAt).value.sequence == t.header.sequence
  {
    hide Tally.Exact, InRange, IsHex64;
    TallyFacts(t);
  }

  /** What exactness says of the running fields alone. */
  lemma TallyFacts(t: Tally)
    requires t.Exact()
    ensures t.header.Valid() && t.count <= |t.digested|
    ensures (t.count == 0 <==> t.last.None?) && (t.last.Some? ==> InRange(t.last.value))
  {
    hide IsOpen, SplitLines, Events, HeaderOfData, LastTime, InRange;
    EventCountBound(t.digested);
    LastTimeValid(t.digested);
    HasHeader(t.digested);
  }

  lemma DigestedIsSegment(c: string, h: Header)
    requires IsOpen(c) && SplitLines(c).torn == "" && HeaderOfData(c) == Some(h)
    ensures c == HeaderLine(h) + Flatten(Events(c))
  {
    hide ParseHeader, HeaderLine, IsEvent, IsTrailerLine, SplitLines;
    var lines := SplitLines(c).lines;
    JoinSplit(c);
    OpenBody(lines);
    ParseHeaderExact(lines[0], h);
    assert c == Flatten(lines) + "";
  }

  lemma {:induction false} LinesBound(lines: seq<string>)
    requires forall i | 0 <= i < |lines| :: lines[i] != ""
    ensures |lines| <= |Flatten(lines)|
  {
    if lines != [] { LinesBound(lines[1..]); }
  }

  lemma EventCountBound(c: string)
    requires IsOpen(c)
    ensures |Events(c)| <= |c|
  {
    hide ParseHeader, IsEvent, IsTrailerLine;
    var lines := SplitLines(c).lines;
    JoinSplit(c);
    OpenBody(lines);
    LinesBound(lines);
  }

  lemma LastTimeValid(c: string)
    requires IsOpen(c)
    ensures var events := Events(c);
      (events == [] <==> LastTime(events).None?) && (LastTime(events).Some? ==> InRange(LastTime(events).value))
  {
    hide ParseHeader, IsTrailerLine, ValidateEventLine;
    var lines := SplitLines(c).lines;
    OpenBody(lines);
    if lines[1..] != [] {
      var line := lines[1..][|lines| - 2];
      assert IsEvent(line);
      var e := AcceptedLineIsProjected(line, ValidateEventLine(line).value);
    }
  }

  // ---- reading the active segment back ----------------------------------------------------------------------------------

  /** Scans stored event lines: the first line that is not an event decides the failure. */
  method ScanEvents(lines: seq<string>) returns (r: Result<Option<Instant>, Code>)
    ensures r.Success? <==> AllEvents(lines)
    ensures r.Success? ==> r.value == LastTime(lines)
    ensures r.Failure? ==> exists k ::
      && 0 <= k < |lines| && AllEvents(lines[..k]) && !IsEvent(lines[k])
      && r.error == if !IsTrailerLine(lines[k]) then EVENT
                    else if k == |lines| - 1 then RECOVERY_REQUIRED else AMBIGUOUS
  {
    hide ValidateEventLine, IsTrailerLine;
    var last: Option<Instant> := None;
    for index := 0 to |lines|
      invariant AllEvents(lines[..index])
      invariant last == LastTime(lines[..index])
    {
      var line := lines[index];
      if IsTrailerLine(line) {
        if IsEvent(line) { EventIsNotTrailer(line); }
        if index == |lines| - 1 {
          return Failure(RECOVERY_REQUIRED);
        }
        return Failure(AMBIGUOUS);
      }
      var at := ValidateEventLine(line);
      if at.None? {
        return Failure(EVENT);
      }
      last := at;
      assert lines[..index + 1] == lines[..index] + [line];
    }
    assert lines[..|lines|] == lines;
    r := Success(last);
  }

  /** `_split_active`: some complete line, and no blank one. */
  predicate Splits(p: Split) { p.lines != [] && forall i | 0 <= i < |p.lines| :: p.lines[i] != "\n" }

  /** What reading the active segment yields. */
  datatype ActiveState = ActiveState(inode: Inode, tally: Tally)

  /** The active segment is one a store may append to. */
  ghost predicate Appendable(s: Fs) {
    && Current in s.dir && s.dir[Current] in s.files && Links(s.dir, s.dir[Current]) == 1
    && var c := s.files[s.dir[Current]].data;
       && |c| <= MAX_SEGMENT_BYTES && IsOpen(c) && SplitLines(c).torn == ""
       && Above(HeaderOfData(c).value.sequence, s.dir) && HeaderOfData(c).value.sequence > 0
  }

  /** The directory has nothing to recover. */
  ghost predicate Settled(s: Fs) {
    && Staging !in s.dir && |Rotations(s.dir)| <= MAX_ROTATIONS && (Current in s.dir ==> Appendable(s))
  }

  /** The content of an active segment, judged as `_open_active` and `_read_active_state` both judge it. */
  method JudgeContent(inode: Inode, c: string, highest: int) returns (r: Result<ActiveState, Code>)
    ensures r.Success? <==>
      IsOpen(c) && SplitLines(c).torn == "" && HeaderOfData(c).value.sequence > highest
    ensures r.Success? ==> r.value.inode == inode && r.value.tally.Exact() && r.value.tally.digested == c
    ensures r.Failure? && IsOpen(c) && HeaderOfData(c).value.sequence > highest ==> r.error == RECOVERY_REQUIRED
    ensures r.Failure? && IsClosed(c) && HeaderOfData(c).value.sequence > highest ==> r.error == RECOVERY_REQUIRED
    ensures r.Failure? ==> r.error != UNCODED
  {
    hide ParseHeader, IsTrailerLine, ValidateEventLine, ParseTrailerFor;
    var p := SplitLines(c);
    if IsOpen(c) { OpenSplits(p); }
    if IsClosed(c) { ClosedSplits(p); }
    if !Splits(p) {
      return Failure(OPEN);
    }
    if p.torn != "" {
      return Failure(RECOVERY_REQUIRED);
    }
    var header := ParseHeader(p.lines[0]);
    if header.None? {
      return Failure(HEADER);
    }
    if header.value.sequence <= highest {
      return Failure(SEQUENCE);
    }
    var events := p.lines[1..];
    var scan := ScanEvents(events);
    if scan.Failure? {
      if IsClosed(c) { ClosedScan(p.lines, scan.error); }
      return Failure(scan.error);
    }
    assert OpenLines(p.lines);
    OpenBody(p.lines);
    r := Success(ActiveState(inode, Tally(header.value, |events|, scan.value, c)));
  }

  lemma OpenSplits(p: Split)
    requires OpenLines(p.lines)
    ensures Splits(p)
  {
    hide ParseHeader, ValidateEventLine, HeaderLine;
    ParseHeaderExact(p.lines[0], HeaderIn(p.lines).value);
    HeaderStartsWithPreamble(HeaderIn(p.lines).value);
    forall i | 0 < i < |p.lines| ensures p.lines[i] != "\n" {
      assert p.lines[1..][i - 1] == p.lines[i];
      EventNotBlank(p.lines[i]);
    }
  }

  lemma EventNotBlank(line: string)
    requires IsEvent(line)
    ensures line != "\n"
  {
    hide ValidateEventLine, Print, EventMembers;
    var e := AcceptedLineIsProjected(line, ValidateEventLine(line).value);
    PrintNotEmpty(e);
  }

  lemma PrintNotEmpty(e: Event)
    ensures |EventLine(e)| > 1
  {
    hide EventMembers;
  }

  lemma ClosedSplits(p: Split)
    requires ClosedLines(p.lines)
    ensures Splits(p)
  {
    hide ParseHeader, ValidateEventLine, HeaderLine, ParseTrailer, TrailerLine, IsTrailerLine;
    ParseHeaderExact(p.lines[0], HeaderIn(p.lines).value);
    HeaderStartsWithPreamble(HeaderIn(p.lines).value);
    var n := |p.lines| - 1;
    ClosedBody(p.lines);
    forall i | 0 < i < |p.lines| ensures p.lines[i] != "\n" {
      if i < n {
        assert p.lines[1..n][i - 1] == p.lines[i];
        EventNotBlank(p.lines[i]);
      } else {
        BlankIsNotTrailer();
      }
    }
  }

  lemma BlankIsNotTrailer()
    ensures !IsTrailerLine("\n")
  {
  }

  /** Only the trailer of a closed segment stops the scan. */
  lemma ClosedScan(lines: seq<string>, error: Code)
    requires ClosedLines(lines)
    requires exists k ::
      && 0 <= k < |lines| - 1 && AllEvents(lines[1..][..k]) && !IsEvent(lines[1..][k])
      && error == if !IsTrailerLine(lines[1..][k]) then EVENT
                  else if k == |lines| - 2 then RECOVERY_REQUIRED else AMBIGUOUS
    ensures error == RECOVERY_REQUIRED
  {
    hide ParseHeader, ValidateEventLine, ParseTrailer, IsTrailerLine;
    var n := |lines| - 1;
    ClosedBody(lines);
    var k :| && 0 <= k < n && AllEvents(lines[1..][..k]) && !IsEvent(lines[1..][k])
      && error == if !IsTrailerLine(lines[1..][k]) then EVENT
                  else if k == n - 1 then RECOVERY_REQUIRED else AMBIGUOUS;
    assert lines[1..][n - 1] == lines[n];
    assert forall j | 0 <= j < n - 1 :: lines[1..][j] == LogSegments.Body(lines)[j];
  }

  // ---- authenticating the directory ---------------------------------------------------------------------------------------

  /** In a good directory the active inode has one name, or two of which one is its own rotated name. */
  lemma ActiveLinks(d: Dir, files: Files)
    requires Good(d, files) && Current in d
    ensures 1 <= Links(d, d[Current]) <= 2
    ensures Links(d, d[Current]) == 1 <==> Unlinked(d, files)
    ensures Links(d, d[Current]) == 2 ==>
      var s := SequenceOf(files[d[Current]]); s.Some? && Rotated(s.value) in d && d[Rotated(s.value)] == d[Current]
  {
    hide OpenFile, ClosedFile, Rotations, PendingRotation, SequenceOf, EventsDurable;
    assert CurrentOk(d, files);
    FileHasSequence(files[d[Current]]);
    var s := SequenceOf(files[d[Current]]).value;
    if Rotated(s) !in d {
      UnlinkedIsSingle(d, files);
    } else {
      forall n <- d.Keys ensures d[n] == d[Current] ==> n == Current || n == Rotated(s) {
        if n.Rotated? { assert RotatedOk(d, files, n.sequence); }
      }
      assert (set n <- d.Keys | d[n] == d[Current]) == {Current, Rotated(s)};
    }
  }

  /** Everything `_open_active` needs to know of an active segment's file in a good directory. */
  lemma GoodActive(d: Dir, files: Files)
    requires Good(d, files) && Current in d
    ensures d[Current] in files && |files[d[Current]].data| <= MAX_SEGMENT_BYTES
    ensures var c := files[d[Current]].data;
      && (IsOpen(c) || IsClosed(c)) && HeaderOfData(c).Some? && HeaderOfData(c).value.sequence > 0
      && (Links(d, d[Current]) == 1 ==> Above(HeaderOfData(c).value.sequence, d))
  {
    hide IsOpen, IsClosed, Rotations, PendingRotation, EventsDurable, HeaderLine, Roomy, HeaderOfData;
    assert CurrentOk(d, files);
    FileHasSequence(files[d[Current]]);
    ActiveLinks(d, files);
  }

  /** The checks `_open_active` and `_read_active_state` share: staging, rotations, links, content, sequence. */
  method Authenticate(disk: Disk) returns (r: Result<Option<ActiveState>, Code>, rotated: set<int>)
    modifies disk
    ensures r.Success? ==> forall q :: q in rotated <==> Rotated(q) in disk.s.dir
    ensures disk.NoEffect()
    ensures r.Success? ==>
      && disk.alive && disk.faults == old(disk.faults) && Settled(disk.s) && (r.value.None? <==> Current !in disk.s.dir)
    ensures r.Success? && r.value.Some? ==>
      && r.value.value.tally.Exact() && r.value.value.inode == disk.s.dir[Current]
      && r.value.value.tally.digested == disk.s.files[disk.s.dir[Current]].data
    ensures r.Failure? && disk.alive && disk.faults == old(disk.faults) ==> !Settled(disk.s) && r.error != UNCODED
    ensures r.Failure? && disk.alive && disk.faults == old(disk.faults) && old(disk.Now()).Ok() ==>
      r.error == RECOVERY_REQUIRED
  {
    hide Snap.Ok, Good, World, Halted, Rotations, HeaderOfData, IsOpen, IsClosed, SplitLines;
    if disk.Now().Ok() { GoodDirectory(disk.Now()); }
    var staging := disk.StatName(Staging);
    if staging.Found? {
      return Failure(RECOVERY_REQUIRED), {};
    }
    if staging.Unreadable? {
      return Failure(OPEN), {};
    }
    var scan := disk.ScanRotated();
    if scan.None? {
      return Failure(UNCODED), {};
    }
    rotated := scan.value;
    if |rotated| > MAX_ROTATIONS {
      return Failure(ROTATIONS), rotated;
    }
    r := AuthenticateCurrent(disk, rotated);
  }

  lemma GoodDirectory(x: Snap)
    requires x.Ok()
    ensures (forall n <- x.fs.dir.Keys :: x.fs.dir[n] in x.fs.files) && |Rotations(x.fs.dir)| <= MAX_ROTATIONS
  {
    hide RotatedOk, CurrentOk, StagingOk, PendingRotation, At, Rotations;
    CalmWorld(x);
  }

  lemma AboveHighest(d: Dir, rotated: set<int>, h: int)
    requires h > 0 && forall q :: q in rotated <==> Rotated(q) in d
    ensures h > Highest(rotated) <==> Above(h, d)
  {
  }

  method AuthenticateCurrent(disk: Disk, rotated: set<int>) returns (r: Result<Option<ActiveState>, Code>)
    requires Staging !in disk.s.dir && |Rotations(disk.s.dir)| <= MAX_ROTATIONS
    requires forall q :: q in rotated <==> Rotated(q) in disk.s.dir
    modifies disk
    ensures disk.NoEffect()
    ensures r.Success? ==>
      && disk.alive && disk.faults == old(disk.faults) && Settled(disk.s) && (r.value.None? <==> Current !in disk.s.dir)
    ensures r.Success? && r.value.Some? ==>
      && r.value.value.tally.Exact() && r.value.value.inode == disk.s.dir[Current]
      && r.value.value.tally.digested == disk.s.files[disk.s.dir[Current]].data
    ensures r.Failure? && disk.alive && disk.faults == old(disk.faults) ==> !Settled(disk.s) && r.error != UNCODED
    ensures r.Failure? && disk.alive && disk.faults == old(disk.faults) && old(disk.Now()).Ok() ==>
      r.error == RECOVERY_REQUIRED
  {
    hide Snap.Ok, Good, World, Halted, Rotations, HeaderOfData, IsOpen, IsClosed, SplitLines, Tally.Exact, Above;
    if disk.Now().Ok() { GoodDirectory(disk.Now()); }
    var named := disk.StatName(Current);
    if named.Missing? {
      return Success(None);
    }
    if named.Unreadable? {
      return Failure(OPEN);
    }
    var i := named.inode;
    if disk.Now().Ok() { CalmWorld(disk.Now()); GoodActive(disk.s.dir, disk.s.files); ActiveLinks(disk.s.dir, disk.s.files); }
    if named.links != 1 && named.links != 2 {
      return Failure(FILE);
    }
    if named.size > MAX_SEGMENT_BYTES {
      return Failure(OPEN);
    }
    var content := disk.Read(i);
    if content.None? {
      return Failure(OPEN);
    }
    if named.links != 1 {
      return Failure(RECOVERY_REQUIRED);
    }
    var c := content.value;
    if IsOpen(c) || IsClosed(c) {
      HasHeader(c);
      AboveHighest(disk.s.dir, rotated, HeaderOfData(c).value.sequence);
    }
    var judged := JudgeContent(i, c, Highest(rotated));
    r := if judged.Success? then Success(Some(judged.value)) else Failure(judged.error);
  }
}

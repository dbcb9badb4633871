/** Recovery: repairing what a crash left of the logs directory, and refusing everything else untouched. */
module LogRecovery {
  import opened Common
  import opened Largest
  import opened LogWire
  import opened LogEvents
  import opened LogSegments
  import opened LogDisk
  import opened LogSteps
  import opened LogNames
  import opened LogVersions
  import opened LogFilesystem
  import opened LogKernel
  import opened LogPublish
  import opened LogWrites
  import opened LogTally
  import opened LogStore

  datatype Report = Report(truncatedBytes: nat, removedStaging: bool, completedRotation: bool)

  // ---- judging the active segment's lines -----------------------------------------------------------------------

  /** Where the first trailer line stands, if there is one. */
  method FirstTrailer(lines: seq<string>) returns (at: nat)
    ensures at <= |lines| && (at < |lines| ==> IsTrailerLine(lines[at]))
    ensures forall i | 0 <= i < at :: !IsTrailerLine(lines[i])
  {
    hide IsTrailerLine;
    at := 0;
    while at < |lines| && !IsTrailerLine(lines[at])
      invariant at <= |lines| && forall i | 0 <= i < at :: !IsTrailerLine(lines[i])
    {
      at := at + 1;
    }
  }

  method AllLinesAreEvents(lines: seq<string>) returns (ok: bool)
    ensures ok <==> AllEvents(lines)
  {
    hide ValidateEventLine;
    for i := 0 to |lines|
      invariant AllEvents(lines[..i])
    {
      if ValidateEventLine(lines[i]).None? {
        assert !IsEvent(lines[i]);
        return false;
      }
      assert lines[..i + 1] == lines[..i] + [lines[i]];
    }
    assert lines[..|lines|] == lines;
    ok := true;
  }

  datatype Judgement = OpenSegment | ClosedSegment

  /** The lines of a segment whose header is `h`: open, closed by an authentic trailer, or refused. */
  method JudgeLines(lines: seq<string>, h: Header, links: nat) returns (r: Result<Judgement, Code>)
    requires lines != [] && ParseHeader(lines[0]) == Some(h)
    ensures r == Success(OpenSegment) <==> OpenLines(lines) && links == 1
    ensures r == Success(ClosedSegment) <==> ClosedLines(lines)
    ensures OpenLines(lines) && links != 1 ==> r == Failure(FILE)
  {
    hide ParseHeader, ValidateEventLine, IsTrailerLine, ParseTrailerFor;
    var body := lines[1..];
    var at := FirstTrailer(body);
    if OpenLines(lines) { EventsAreNotTrailers(body); OpenIsNotClosed(lines); }
    if ClosedLines(lines) { ClosedTrailerIsFirst(lines); }
    if at < |body| - 1 {
      return Failure(AMBIGUOUS);
    }
    if at >= |body| {
      if links != 1 {
        return Failure(FILE);
      }
      var ok := AllLinesAreEvents(body);
      return if ok then Success(OpenSegment) else Failure(EVENT);
    }
    var events := body[..at];
    assert events == lines[1..|lines| - 1] && body[at] == lines[|lines| - 1];
    var ok := AllLinesAreEvents(events);
    if !ok {
      if ClosedLines(lines) { ClosedBody(lines); }
      return Failure(EVENT);
    }
    var t := ParseTrailerFor(body[at], h, events);
    if t.None? || t.value.sequence != h.sequence {
      return Failure(RECOVER);
    }
    r := Success(ClosedSegment);
  }

  lemma EventsAreNotTrailers(lines: seq<string>)
    requires AllEvents(lines)
    ensures forall i | 0 <= i < |lines| :: !IsTrailerLine(lines[i])
  {
    hide IsEvent, IsTrailerLine;
    forall i | 0 <= i < |lines| ensures !IsTrailerLine(lines[i]) { EventIsNotTrailer(lines[i]); }
  }

  lemma ClosedTrailerIsFirst(lines: seq<string>)
    requires ClosedLines(lines)
    ensures forall i | 0 <= i < |lines| - 2 :: !IsTrailerLine(lines[1..][i])
    ensures IsTrailerLine(lines[1..][|lines| - 2])
  {
    hide IsEvent, IsTrailerLine, ParseHeader, ParseTrailerFor;
    ClosedBody(lines);
    EventsAreNotTrailers(lines[1..|lines| - 1]);
    forall i | 0 <= i < |lines| - 2 ensures !IsTrailerLine(lines[1..][i]) {
      assert lines[1..][i] == lines[1..|lines| - 1][i];
    }
  }

  // ---- what recovery accepts ----------------------------------------------------------------------------------------

  /** Above every rotation, or the highest one itself under both names. */
  ghost predicate Unconflicted(s: Fs, i: Inode, q: int) {
    Above(q, s.dir) || (Rotated(q) in s.dir && s.dir[Rotated(q)] == i && Above(q + 1, s.dir))
  }

  /** An open segment, its tail possibly torn, under its one name. */
  ghost predicate RepairableOpen(s: Fs, i: Inode) {
    && i in s.files && Links(s.dir, i) == 1 && IsOpen(s.files[i].data)
    && Above(HeaderOfData(s.files[i].data).value.sequence, s.dir)
  }

  /** A segment whose last complete line is the trailer that certifies it. */
  ghost predicate CertifiedLines(s: Fs, i: Inode) {
    && i in s.files && ClosedLines(SplitLines(s.files[i].data).lines) && 1 <= Links(s.dir, i) <= 2
    && Unconflicted(s, i, HeaderOfData(s.files[i].data).value.sequence)
  }

  /** A finished trailer whose rename did not complete: not yet linked, or linked to its own twin. */
  ghost predicate RepairableClosed(s: Fs, i: Inode) {
    && CertifiedLines(s, i)
    && var q := HeaderOfData(s.files[i].data).value.sequence;
       if Links(s.dir, i) == 2 then Rotated(q) in s.dir && s.dir[Rotated(q)] == i else Rotated(q) !in s.dir
  }

  ghost predicate Bounded(s: Fs, i: Inode) {
    i in s.files && |s.files[i].data| <= MAX_SEGMENT_BYTES && |Rotations(s.dir)| <= MAX_ROTATIONS
  }

  /** The active segment is as a crash of this protocol leaves it. */
  ghost predicate Repairable(s: Fs) {
    Current in s.dir ==>
      var i := s.dir[Current]; Bounded(s, i) && (RepairableOpen(s, i) || RepairableClosed(s, i))
  }

  datatype Finding = Finding(inode: Inode, links: nat, header: Header, torn: nat, judgement: Judgement)

  /** What inspection reports of the active segment. */
  ghost predicate Describes(f: Finding, s: Fs) {
    && Current in s.dir && s.dir[Current] == f.inode && f.inode in s.files && f.links == Links(s.dir, f.inode)
    && HeaderOfData(s.files[f.inode].data) == Some(f.header) && f.torn == |SplitLines(s.files[f.inode].data).torn|
    && if f.judgement == OpenSegment then RepairableOpen(s, f.inode) else CertifiedLines(s, f.inode)
  }

  /** The sequence check, made before anything is changed. */
  method CheckSequence(disk: Disk, i: Inode, q: int, rotated: set<int>) returns (ok: bool)
    requires q > 0 && forall p :: p in rotated <==> Rotated(p) in disk.s.dir
    requires disk.alive && i in disk.s.files
    modifies disk
    ensures disk.NoEffect()
    ensures ok ==> disk.alive && disk.faults == old(disk.faults) && Unconflicted(disk.s, i, q)
    ensures !ok && disk.alive && disk.faults == old(disk.faults) ==> !Unconflicted(disk.s, i, q)
  {
    hide Halted;
    var highest := Highest(rotated);
    AboveHighest(disk.s.dir, rotated, q);
    if q != highest {
      assert q < highest ==> Rotated(highest) in disk.s.dir;
      return q > highest;
    }
    assert Rotated(q) in disk.s.dir && Above(q + 1, disk.s.dir);
    var twin := disk.StatName(Rotated(q));
    ok := twin.Found? && twin.inode == i;
  }

  /** The reading half of `_repair_active`; it changes nothing. */
  method Inspect(disk: Disk) returns (r: Result<Option<Finding>, Code>)
    requires WellFormed(disk.s)
    modifies disk
    ensures disk.NoEffect()
    ensures r.Success? ==>
      && disk.alive && disk.faults == old(disk.faults) && (r.value.None? <==> Current !in disk.s.dir)
      && (r.value.Some? ==> Describes(r.value.value, disk.s) && Bounded(disk.s, disk.s.dir[Current]))
    ensures r.Failure? && disk.alive && disk.faults == old(disk.faults) ==>
      && Current in disk.s.dir
      && !(Bounded(disk.s, disk.s.dir[Current])
           && (RepairableOpen(disk.s, disk.s.dir[Current]) || CertifiedLines(disk.s, disk.s.dir[Current])))
    ensures r.Failure? && disk.alive && disk.faults == old(disk.faults) && StuckTwin(disk.s) ==> r.error == FILE
  {
    hide Halted, Rotations, SplitLines, ParseHeader, ParseTrailerFor, IsEvent, Above, Unconflicted;
    var named := disk.StatName(Current);
    if named.Missing? {
      return Success(None);
    }
    if named.Unreadable? {
      return Failure(RECOVER);
    }
    var i := named.inode;
    if named.links != 1 && named.links != 2 {
      return Failure(FILE);
    }
    if named.size > MAX_SEGMENT_BYTES {
      return Failure(RECOVER);
    }
    var content := disk.Read(i);
    if content.None? {
      return Failure(RECOVER);
    }
    var p := SplitLines(content.value);
    if OpenLines(p.lines) { OpenSplits(p); }
    if ClosedLines(p.lines) { ClosedSplits(p); }
    if !Splits(p) {
      return Failure(RECOVER);
    }
    var header := ParseHeader(p.lines[0]);
    if header.None? {
      return Failure(HEADER);
    }
    var h := header.value;
    ParseHeaderExact(p.lines[0], h);
    var rotated := disk.ScanRotated();
    if rotated.None? {
      return Failure(RECOVER);
    }
    if |rotated.value| > MAX_ROTATIONS {
      return Failure(ROTATIONS);
    }
    var ok := CheckSequence(disk, i, h.sequence, rotated.value);
    if !ok {
      OpenIsUnconflicted(disk.s, i, h.sequence);
      return Failure(SEQUENCE);
    }
    var judged := JudgeLines(p.lines, h, named.links);
    if judged.Failure? {
      return Failure(judged.error);
    }
    if named.links == 1 { SingleIsAbove(disk.s, i, h.sequence); }
    r := Success(Some(Finding(i, named.links, h, |p.torn|, judged.value)));
  }

  lemma OpenIsUnconflicted(s: Fs, i: Inode, q: int)
    ensures Above(q, s.dir) ==> Unconflicted(s, i, q)
    ensures Rotated(q) in s.dir && s.dir[Rotated(q)] == i && Above(q + 1, s.dir) ==> Unconflicted(s, i, q)
  {
  }

  lemma SingleIsAbove(s: Fs, i: Inode, q: int)
    requires Current in s.dir && s.dir[Current] == i && Unconflicted(s, i, q) && Links(s.dir, i) == 1
    ensures Above(q, s.dir)
  {
    if Rotated(q) in s.dir && s.dir[Rotated(q)] == i {
      SubsetSmaller({Current, Rotated(q)}, set n <- s.dir.Keys | s.dir[n] == i);
    }
  }

  /** The active segment bears its rotated name too, but its trailer has not survived. */
  ghost predicate StuckTwin(s: Fs) {
    && Current in s.dir && s.dir[Current] in s.files && IsOpen(s.files[s.dir[Current]].data)
    && var q := HeaderOfData(s.files[s.dir[Current]].data).value.sequence;
       && Rotated(q) in s.dir && s.dir[Rotated(q)] == s.dir[Current] && Above(q + 1, s.dir)
       && Links(s.dir, s.dir[Current]) == 2 && Bounded(s, s.dir[Current])
  }

  // ---- repairing ------------------------------------------------------------------------------------------------------

  /** No rotation has been claimed certified beyond what a finished trailer's durability allows. */
  ghost predicate Honest(x: Snap) {
    x.ledger.certified && Current in x.fs.dir && x.fs.dir[Current] in x.fs.files && ClosedFile(x.fs.files[x.fs.dir[Current]])
    ==> x.fs.files[x.fs.dir[Current]].synced == |x.fs.files[x.fs.dir[Current]].data|
  }

  /** In a good directory, an open judgement means an open segment under one name; a closed one, a whole closed
      segment. */
  lemma FindingIsGood(x: Snap, f: Finding)
    requires x.Ok() && Describes(f, x.fs)
    ensures f.judgement == OpenSegment ==> Unlinked(x.fs.dir, x.fs.files) && OpenFile(x.fs.files[f.inode])
    ensures f.judgement == ClosedSegment ==>
      f.torn == 0 && ClosedFile(x.fs.files[f.inode]) && SequenceOf(x.fs.files[f.inode]) == Some(f.header.sequence)
  {
    hide SplitLines, OpenLines, ClosedLines, Roomy, HeaderLine, EventsDurable, HeaderOfData, Rotations, PendingRotation;
    var d, files := x.fs.dir, x.fs.files;
    CalmWorld(x);
    assert CurrentOk(d, files);
    var c := files[f.inode].data;
    FileHasSequence(files[f.inode]);
    if f.judgement == OpenSegment {
      SingleLink(d, files);
      OpenNotClosed(c);
    } else if IsOpen(c) {
      OpenIsNotClosed(SplitLines(c).lines);
    }
  }

  /** `ftruncate` to the last complete line. */
  lemma TruncateOk(x: Snap, i: Inode)
    requires x.Ok() && x.Calm() && Unlinked(x.fs.dir, x.fs.files) && x.fs.dir[Current] == i && OpenFile(x.fs.files[i])
    ensures var y := x.(fs := WithFile(x.fs, i, Truncated(x.fs.files[i])));
      y.Ok() && y.Calm() && Steady(x, y)
  {
    hide At, Synced, World, Good, HeaderOfData, Events, OpenFile, SplitLines, Preserved, Flatten, Firm, Grown, Sealed;
    hide LeftOf;
    CalmWorld(x);
    FileLengths(x, i);
    GrownByTruncation(x.fs.files[i]);
    OpenIsNotSealed(x.fs.files[i]);
    TruncateStep(x.fs.dir, x.fs.files, x.ledger);
    CompleteIsPrefix(x.fs.files[i].data);
    var g := Truncated(x.fs.files[i]);
    FileStepOk(x, i, g, x.ledger);
    PreservedFile(x.fs, i, g);
    TruncatedIsLeftOf(x.fs.files[i]);
    OneFile(x.fs, i, g);
  }

  lemma TruncatedIsLeftOf(f: File)
    requires OpenFile(f)
    ensures LeftOf(f, Truncated(f))
  {
    hide OpenFile, ClosedFile, Events, HeaderOfData, Truncated;
    TruncatedFile(f);
  }

  /** Dropping the torn tail is truncation to the complete lines. */
  lemma TornLength(f: File)
    requires f.synced <= |f.data|
    ensures var n := |SplitLines(f.data).torn|;
      n <= |f.data| && Shortened(f, |f.data| - n) == Truncated(f)
  {
    hide SplitLines, Flatten;
    SplitTruncate(f.data);
  }

  /** What a successful repair makes of the directory. */
  ghost predicate Repaired(x: Fs, y: Fs, truncated: nat, completed: bool) {
    if Current !in x.dir then y == x && truncated == 0 && !completed
    else
      var i := x.dir[Current];
      && i in x.files
      && var f := x.files[i];
         && truncated == |SplitLines(f.data).torn|
         && y.files == (if truncated == 0 then x.files else x.files[i := Flushed(Truncated(f))])
         && if completed
            then CertifiedLines(x, i) && Rotation(x.(files := y.files), y, HeaderOfData(f.data).value.sequence)
            else RepairableOpen(x, i) && y.dir == x.dir && y.worlds == if truncated == 0 then x.worlds else {x.dir}
  }

  /** Inode `i` is the active segment, open, under its one name. */
  ghost predicate OwnOpen(x: Snap, i: Inode) {
    x.Ok() && x.Calm() && Unlinked(x.fs.dir, x.fs.files) && x.fs.dir[Current] == i && OpenFile(x.fs.files[i])
  }

  /** The snapshots on the way to active inode `i` without its torn tail. */
  ghost predicate Trimming(x: Snap, i: Inode, m: Snap)
    requires i in x.fs.files
  {
    var g := Truncated(x.fs.files[i]);
    m == x || m == x.(fs := WithFile(x.fs, i, g)) || m == x.(fs := WithFile(x.fs, i, Flushed(g)))
  }

  /** Truncates the torn tail and makes it durable. */
  method DropTail(disk: Disk, i: Inode, torn: nat, ghost open: bool) returns (ok: bool)
    requires disk.alive && i in disk.s.files && torn == |SplitLines(disk.s.files[i].data).torn|
    requires disk.s.files[i].synced <= |disk.s.files[i].data|
    modifies disk
    ensures exists m :: Trimming(old(disk.Now()), i, m) && Stops(m, disk.alive, disk.Now())
    ensures ok ==> disk.Now() == old(disk.Now()).(fs := WithFile(old(disk.s), i, Flushed(Truncated(old(disk.s.files[i])))))
    ensures old(open && OwnOpen(disk.Now(), i)) ==>
      Safe(old(disk.Now()), disk.alive, disk.Now()) && (disk.alive ==> disk.Now().Calm())
    ensures ok ==>
      disk.alive && disk.s == WithFile(old(disk.s), i, Flushed(Truncated(old(disk.s.files[i]))))
    ensures disk.faults >= old(disk.faults) && (ok ==> disk.faults == old(disk.faults))
    ensures disk.alive && disk.faults == old(disk.faults) ==> ok
  {
    hide At, Synced, World, Good, Halted, Safe, Steady, OpenFile, SplitLines, Truncated, Unlinked, Snap.Ok;
    ghost var x := disk.Now();
    ghost var ready := open && OwnOpen(x, i);
    if ready { SafeStart(x); }
    TornLength(disk.s.files[i]);
    ok := disk.Truncate(i, |disk.s.files[i].data| - torn);
    if !ok {
      assert Trimming(x, i, x) && Stops(x, disk.alive, disk.Now());
      if ready { SafeRefusal(x, x, disk.alive, disk.Now()); }
      return;
    }
    ghost var y := disk.Now();
    if ready {
      TruncateOk(x, i);
      SafeStep(x, x, y);
    }
    ok := disk.Fsync(i);
    if !ok {
      assert Trimming(x, i, y) && Stops(y, disk.alive, disk.Now());
      if ready { SafeRefusal(x, y, disk.alive, disk.Now()); }
      return;
    }
    if ready {
      SyncSteady(y, i);
      SafeStep(x, y, disk.Now());
    }
    assert disk.s.files == x.fs.files[i := Flushed(Truncated(x.fs.files[i]))];
    assert Trimming(x, i, disk.Now()) && Stops(disk.Now(), disk.alive, disk.Now());
  }

  /** The snapshots on the way through the repair of a good directory: an open segment is trimmed, a closed one gets its
      rotated name. */
  ghost predicate Repairing(x: Snap, m: Snap) {
    || m == x
    || (Current in x.fs.dir && RepairableOpen(x.fs, x.fs.dir[Current])
        && (Trimming(x, x.fs.dir[Current], m) || m == Trimmed(x, x.fs.dir[Current])))
    || (Current in x.fs.dir && CertifiedLines(x.fs, x.fs.dir[Current])
        && Rotating(x, HeaderOfData(x.fs.files[x.fs.dir[Current]].data).value.sequence, m))
  }

  /** The torn tail is gone, on the device too. */
  ghost function Trimmed(x: Snap, i: Inode): Snap
    requires i in x.fs.files
  {
    x.(fs := WithFile(x.fs, i, Flushed(Truncated(x.fs.files[i])))).DirSynced()
  }

  /** `_repair_active`. */
  method RepairActive(disk: Disk) returns (r: Result<(nat, bool), Code>)
    requires disk.alive && WellFormed(disk.s) && disk.s.Valid()
    modifies disk
    ensures old(disk.Now().Ok()) ==> exists m :: Repairing(old(disk.Now()), m) && Stops(m, disk.alive, disk.Now())
    ensures old(disk.Now().Ok() && disk.Now().Calm() && Honest(disk.Now())) ==>
      Safe(old(disk.Now()), disk.alive, disk.Now()) && (r.Success? ==> disk.Now().Calm())
    ensures r.Success? ==> disk.alive && Repaired(old(disk.s), disk.s, r.value.0, r.value.1)
    ensures disk.faults >= old(disk.faults) && (r.Success? ==> disk.faults == old(disk.faults))
    ensures disk.alive && disk.faults == old(disk.faults) ==> (r.Success? <==> Repairable(old(disk.s)))
    ensures disk.alive && disk.faults == old(disk.faults) && r.Failure? && old(disk.Now().Ok()) ==> disk.s == old(disk.s)
    ensures disk.alive && disk.faults == old(disk.faults) && StuckTwin(old(disk.s)) ==> r == Failure(FILE)
  {
    hide Halted, Good, Safe, Steady, Rotations, SplitLines, Snap.Ok, RepairableOpen, CertifiedLines, HeaderOfData;
    hide ClosedFile, Honest, OpenFile, StuckTwin, SequenceOf, Truncated, OwnOpen, Trimming, Trimmed, Rotating;
    ghost var x := disk.Now();
    ghost var ready := x.Ok() && x.Calm() && Honest(x);
    if ready { SafeStart(x); }
    if StuckTwin(disk.s) { StuckIsRefused(disk.s); }
    var inspected := Inspect(disk);
    assert Repairing(x, x) && Stops(x, disk.alive, disk.Now());
    if ready { SafeRefusal(x, x, disk.alive, disk.Now()); }
    if inspected.Failure? {
      return Failure(inspected.error);
    }
    if inspected.value.None? {
      return Success((0, false));
    }
    var f := inspected.value.value;
    if ready { ReadyFinding(x, f); }
    if disk.Now().Ok() { GoodFinding(disk.Now(), f); FindingIsGood(disk.Now(), f); }
    if f.judgement == ClosedSegment { CertifiedIsNotOpen(disk.s, f.inode); }
    r := RepairFound(disk, f, ready);
    if x.Ok() { RepairIsUnderWay(x, f, disk.alive, disk.Now()); }
    if ready { SafeAfter(x, x, disk.alive, disk.Now()); }
  }

  lemma RepairIsUnderWay(x: Snap, f: Finding, alive: bool, y: Snap)
    requires Describes(f, x.fs)
    requires if f.judgement == OpenSegment
             then exists m :: (Trimming(x, f.inode, m) || m == Trimmed(x, f.inode)) && Stops(m, alive, y)
             else exists m :: Rotating(x, f.header.sequence, m) && Stops(m, alive, y)
    ensures exists m :: Repairing(x, m) && Stops(m, alive, y)
  {
    hide Halted, SplitLines, HeaderOfData, RepairableOpen, CertifiedLines, Rotating, Trimming, Trimmed, Links;
    if f.judgement == OpenSegment {
      var m :| (Trimming(x, f.inode, m) || m == Trimmed(x, f.inode)) && Stops(m, alive, y);
      assert Repairing(x, m);
    } else {
      var m :| Rotating(x, f.header.sequence, m) && Stops(m, alive, y);
      assert Repairing(x, m);
    }
  }

  /** The writing half of `_repair_active`. */
  method RepairFound(disk: Disk, f: Finding, ghost ready: bool) returns (r: Result<(nat, bool), Code>)
    requires disk.alive && disk.s.Valid() && Describes(f, disk.s)
    requires ready ==>
      && disk.Now().Ok() && disk.Now().Calm()
      && if f.judgement == OpenSegment then OwnOpen(disk.Now(), f.inode)
         else f.torn == 0 && ReadyToRotate(disk.Now(), f.header.sequence)
    modifies disk
    ensures f.judgement == ClosedSegment && f.torn == 0 ==>
      exists m :: Rotating(old(disk.Now()), f.header.sequence, m) && Stops(m, disk.alive, disk.Now())
    ensures f.judgement == OpenSegment ==>
      exists m :: (Trimming(old(disk.Now()), f.inode, m) || m == Trimmed(old(disk.Now()), f.inode)) && Stops(m, disk.alive, disk.Now())
    ensures ready ==> Safe(old(disk.Now()), disk.alive, disk.Now()) && (r.Success? ==> disk.Now().Calm())
    ensures r.Success? ==> disk.alive && Repaired(old(disk.s), disk.s, r.value.0, r.value.1)
    ensures disk.faults >= old(disk.faults) && (r.Success? ==> disk.faults == old(disk.faults))
    ensures disk.alive && disk.faults == old(disk.faults) ==>
      (r.Success? <==> f.judgement == OpenSegment || RepairableClosed(old(disk.s), f.inode))
  {
    hide Halted, Good, Safe, Steady, Rotations, SplitLines, Snap.Ok, HeaderOfData, ClosedFile, Complete, IsOpen;
    hide ClosedLines, OpenFile, SequenceOf, Truncated, OwnOpen, ReadyToRotate, Above, Unconflicted, Links, Rotating;
    ghost var x := disk.Now();
    if ready { SafeStart(x); }
    var closed := f.judgement == ClosedSegment;
    if f.torn > 0 {
      var ok := DropTail(disk, f.inode, f.torn, ready);
      if !ok {
        return Failure(RECOVER);
      }
    }
    ghost var y := disk.Now();
    if !closed {
      assert Trimming(x, f.inode, y) && Stops(y, disk.alive, y);
      if f.torn > 0 {
        var ok := disk.FsyncDir();
        if ready { SyncedAfterTail(x, y, ok, disk.alive, disk.Now()); }
        if !ok {
          assert Stops(y, disk.alive, disk.Now());
          return Failure(RECOVER);
        }
        assert disk.Now() == Trimmed(x, f.inode) && Stops(disk.Now(), disk.alive, disk.Now());
      }
      return Success((f.torn, false));
    }
    var c := CompleteRotation(disk, f.header.sequence, f.inode, f.links);
    if ready { SafeAfter(x, y, disk.alive, disk.Now()); }
    r := if c.None? then Success((f.torn, true)) else Failure(RECOVER);
  }

  lemma SyncedAfterTail(x: Snap, y: Snap, ok: bool, alive: bool, z: Snap)
    requires Safe(x, true, y)
    requires if ok then alive && z == y.DirSynced() else if alive then z == y else Halted(y, z)
    ensures Safe(x, alive, z) && (ok ==> z.Calm())
  {
    hide Safe, Steady, Halted;
    if ok {
      SafeIsOk(x, y);
      SyncDirSteady(y);
      SafeStep(x, y, z);
    } else {
      SafeRefusal(x, y, alive, z);
    }
  }

  /** In a good directory a certified segment is always repairable. */
  lemma GoodFinding(x: Snap, f: Finding)
    requires x.Ok() && Describes(f, x.fs)
    ensures f.judgement == ClosedSegment ==> RepairableClosed(x.fs, f.inode)
    ensures Bounded(x.fs, f.inode)
  {
    hide World, ClosedFile, OpenFile, SplitLines, OpenLines, ClosedLines, HeaderOfData, CertifiedLines, RepairableOpen;
    hide Good, Rotations;
    CalmWorld(x);
    GoodDirectory(x);
    ActiveLinks(x.fs.dir, x.fs.files);
    GoodActive(x.fs.dir, x.fs.files);
  }

  lemma CertifiedIsNotOpen(s: Fs, i: Inode)
    requires CertifiedLines(s, i)
    ensures !RepairableOpen(s, i)
  {
    hide SplitLines, OpenLines, ClosedLines, HeaderOfData;
    if RepairableOpen(s, i) { OpenIsNotClosed(SplitLines(s.files[i].data).lines); }
  }

  lemma StuckIsRefused(s: Fs)
    requires StuckTwin(s)
    ensures Current in s.dir && !RepairableOpen(s, s.dir[Current]) && !CertifiedLines(s, s.dir[Current])
  {
    hide SplitLines, OpenLines, ClosedLines, HeaderOfData;
    OpenIsNotClosed(SplitLines(s.files[s.dir[Current]].data).lines);
  }

  lemma ReadyFinding(x: Snap, f: Finding)
    requires x.Ok() && x.Calm() && Honest(x) && Describes(f, x.fs)
    ensures f.judgement == OpenSegment ==> OwnOpen(x, f.inode)
    ensures f.judgement == ClosedSegment ==> f.torn == 0 && ReadyToRotate(x, f.header.sequence)
  {
    hide World, ClosedFile, OpenFile, SplitLines, OpenLines, ClosedLines, HeaderOfData;
    FindingIsGood(x, f);
  }

  // ---- the staging file -------------------------------------------------------------------------------------------------

  /** What a crash of publication leaves, as the classifier sees it: a prefix of the fixed preamble, or one whole
      header above every rotation. */
  ghost predicate StagingArtifact(c: string, d: Dir) {
    c <= HEADER_PREAMBLE || (|Rotations(d)| <= MAX_ROTATIONS && exists h :: NextHeader(c, h, d))
  }

  ghost predicate NextHeader(c: string, h: Header, d: Dir) { h.Valid() && c == HeaderLine(h) && Above(h.sequence, d) }

  ghost predicate Removable(s: Fs) {
    Staging in s.dir ==>
      var j := s.dir[Staging];
      && j in s.files && Links(s.dir, j) == 1 && |s.files[j].data| <= MAX_HEADER_LINE_BYTES
      && StagingArtifact(s.files[j].data, s.dir)
  }

  lemma PreambleHasNoLineFeed()
    ensures '\n' !in HEADER_PREAMBLE && |HEADER_PREAMBLE| == 30
  {
  }

  /** `_classify_staging`. */
  method ClassifyStaging(disk: Disk, c: string) returns (r: Result<bool, Code>)
    requires disk.alive
    modifies disk
    ensures disk.NoEffect()
    ensures r.Success? ==> disk.alive && disk.faults == old(disk.faults) && (r.value <==> StagingArtifact(c, disk.s.dir))
    ensures r.Failure? && disk.alive && disk.faults == old(disk.faults) ==>
      !StagingArtifact(c, disk.s.dir) && |Rotations(disk.s.dir)| > MAX_ROTATIONS
  {
    hide Halted, ParseHeader, HeaderLine, HEADER_PREAMBLE, Rotations, Above, IsLine, SplitLines;
    PreambleHasNoLineFeed();
    if c == "" || c[|c| - 1] != '\n' {
      WholeHeaderEndsInLineFeed(c);
      return Success('\n' !in c && c <= HEADER_PREAMBLE);
    }
    var lines := SplitLines(c).lines;
    SingleLine(c);
    if |lines| != 1 {
      return Success(false);
    }
    var h := ParseHeader(lines[0]);
    if h.None? {
      HeaderUnique(c);
      return Success(false);
    }
    ParseHeaderExact(lines[0], h.value);
    var rotated := disk.ScanRotated();
    if rotated.None? {
      return Failure(UNCODED);
    }
    if |rotated.value| > MAX_ROTATIONS {
      return Failure(ROTATIONS);
    }
    AboveHighest(disk.s.dir, rotated.value, h.value.sequence);
    OnlyHeader(c, h.value, disk.s.dir);
    r := Success(h.value.sequence > Highest(rotated.value));
  }

  lemma WholeHeaderEndsInLineFeed(c: string)
    requires c == "" || c[|c| - 1] != '\n'
    ensures forall h: Header :: h.Valid() ==> c != HeaderLine(h)
  {
    hide HeaderLine;
    forall h: Header | h.Valid() ensures c != HeaderLine(h) { HeaderIsLine(h); }
  }

  lemma SingleLine(c: string)
    requires c != "" && c[|c| - 1] == '\n'
    ensures |SplitLines(c).lines| == 1 ==> SplitLines(c).lines[0] == c
    ensures !(c <= HEADER_PREAMBLE)
    ensures forall h: Header :: h.Valid() && c == HeaderLine(h) ==> |SplitLines(c).lines| == 1
  {
    hide SplitLines, HeaderLine, HEADER_PREAMBLE;
    PreambleHasNoLineFeed();
    assert '\n' in c;
    JoinSplit(c);
    var p := SplitLines(c);
    assert c[|c| - |p.torn|..] == p.torn;
    if |p.lines| == 1 {
      assert p.lines == [p.lines[0]];
      FlattenOne(p.lines[0]);
    }
    forall h: Header | h.Valid() && c == HeaderLine(h) ensures |SplitLines(c).lines| == 1 { FreshIsOpen(h); }
  }

  lemma HeaderUnique(c: string)
    requires ParseHeader(c).None?
    ensures forall h: Header :: h.Valid() ==> c != HeaderLine(h)
  {
    hide HeaderLine, ParseHeader;
    forall h: Header | h.Valid() ensures c != HeaderLine(h) { ParseHeaderExact(c, h); }
  }

  lemma OnlyHeader(c: string, h: Header, d: Dir)
    requires ParseHeader(c) == Some(h) && !(c <= HEADER_PREAMBLE) && |Rotations(d)| <= MAX_ROTATIONS
    ensures StagingArtifact(c, d) <==> Above(h.sequence, d)
  {
    hide HeaderLine, ParseHeader, HEADER_PREAMBLE, Rotations, Above;
    ParseHeaderExact(c, h);
    if StagingArtifact(c, d) {
      var g :| NextHeader(c, g, d);
      ParseHeaderExact(c, g);
    }
    if Above(h.sequence, d) { assert NextHeader(c, h, d); }
  }

  lemma DropStagingOk(x: Snap)
    requires x.Ok() && x.Calm()
    ensures var y := x.Changed(Drop(Staging));
      y.Ok() && Steady(x, y)
  {
    hide At, Synced, World, Preserved, Good, Firm;
    CalmWorld(x);
    DropStagingStep(x.fs.dir, x.fs.files, x.ledger);
    FirmStaging(x.fs.worlds, x.fs.dir, x.fs.files, x.ledger.promised, Drop(Staging));
    ChangeOk(x, Drop(Staging));
    PreservedDir(x.fs, ChangeDir(x.fs, Drop(Staging)));
  }

  /** The snapshots on the way to a directory without a staging file. */
  ghost predicate Unstaging(x: Snap, m: Snap) {
    || m == x
    || (Staging in x.fs.dir && (m == x.Changed(Drop(Staging)) || m == x.Changed(Drop(Staging)).DirSynced()))
  }

  /** `_remove_staging`: unlinks only what the classifier recognises. */
  method RemoveStaging(disk: Disk) returns (r: Result<bool, Code>)
    requires disk.alive && WellFormed(disk.s)
    modifies disk
    ensures exists m :: Unstaging(old(disk.Now()), m) && Stops(m, disk.alive, disk.Now())
    ensures old(disk.Now().Ok() && disk.Now().Calm()) ==>
      Safe(old(disk.Now()), disk.alive, disk.Now()) && (r.Success? ==> disk.Now().Calm())
    ensures r.Success? ==>
      && disk.alive && Removable(old(disk.s)) && (r.value <==> Staging in old(disk.s.dir))
      && if r.value then disk.s == SyncedDir(ChangeDir(old(disk.s), Drop(Staging))) else disk.s == old(disk.s)
    ensures disk.faults >= old(disk.faults) && (r.Success? ==> disk.faults == old(disk.faults))
    ensures disk.alive && disk.faults == old(disk.faults) ==> (r.Success? <==> Removable(old(disk.s)))
    ensures disk.alive && disk.faults == old(disk.faults) && r.Failure? ==>
      disk.s == old(disk.s) && (|Rotations(disk.s.dir)| <= MAX_ROTATIONS ==> r.error == RECOVER)
  {
    hide Halted, Good, Safe, Steady, Snap.Ok, StagingArtifact, Links;
    ghost var x := disk.Now();
    assert Unstaging(x, x);
    ghost var ready := x.Ok() && x.Calm();
    if ready { SafeStart(x); }
    var named := disk.StatName(Staging);
    assert Stops(x, disk.alive, disk.Now());
    if ready { SafeRefusal(x, x, disk.alive, disk.Now()); }
    if named.Missing? {
      return Success(false);
    }
    if named.Unreadable? || named.links != 1 || named.size > MAX_HEADER_LINE_BYTES {
      return Failure(RECOVER);
    }
    var content := disk.Read(named.inode);
    assert Stops(x, disk.alive, disk.Now());
    if ready { SafeRefusal(x, x, disk.alive, disk.Now()); }
    if content.None? {
      return Failure(RECOVER);
    }
    var artifact := ClassifyStaging(disk, content.value);
    assert Stops(x, disk.alive, disk.Now());
    if ready { SafeRefusal(x, x, disk.alive, disk.Now()); }
    if artifact.Failure? {
      return Failure(artifact.error);
    }
    if !artifact.value {
      return Failure(RECOVER);
    }
    var probe := disk.StatName(Staging);
    assert Stops(x, disk.alive, disk.Now());
    if ready { SafeRefusal(x, x, disk.alive, disk.Now()); }
    if !probe.Found? || probe.inode != named.inode {
      return Failure(RECOVER);
    }
    var ok := UnlinkStaging(disk);
    if ready { SafeAfter(x, x, disk.alive, disk.Now()); }
    r := if ok then Success(true) else Failure(RECOVER);
  }

  method UnlinkStaging(disk: Disk) returns (ok: bool)
    requires disk.alive
    modifies disk
    ensures exists m :: Unstaging(old(disk.Now()), m) && Stops(m, disk.alive, disk.Now())
    ensures old(disk.Now().Ok() && disk.Now().Calm()) ==>
      Safe(old(disk.Now()), disk.alive, disk.Now()) && (ok ==> disk.Now().Calm())
    ensures ok ==> disk.alive && disk.s == SyncedDir(ChangeDir(old(disk.s), Drop(Staging)))
    ensures disk.faults >= old(disk.faults) && (ok ==> disk.faults == old(disk.faults))
    ensures disk.alive && disk.faults == old(disk.faults) ==> (ok <==> Staging in old(disk.s.dir))
  {
    hide Halted, Good, Safe, Steady, Snap.Ok;
    ghost var x := disk.Now();
    ghost var ready := x.Ok() && x.Calm();
    if ready { SafeStart(x); }
    ok := disk.Unlink(Staging);
    if !ok {
      assert Unstaging(x, x) && Stops(x, disk.alive, disk.Now());
      if ready { SafeRefusal(x, x, disk.alive, disk.Now()); }
      return;
    }
    ghost var y := disk.Now();
    if ready {
      DropStagingOk(x);
      SafeStep(x, x, y);
    }
    ok := disk.FsyncDir();
    assert Unstaging(x, y) && (ok ==> Unstaging(x, disk.Now()));
    assert Stops(if ok then disk.Now() else y, disk.alive, disk.Now());
    if ready { SyncedAfterTail(x, y, ok, disk.alive, disk.Now()); }
  }

  // ---- when recovery succeeds ----------------------------------------------------------------------------------------------

  /** The staging file was torn inside the header's variable part: past the preamble, before the line feed. */
  predicate StuckStaging(s: Fs) {
    && Staging in s.dir && s.dir[Staging] in s.files
    && var c := s.files[s.dir[Staging]].data; |c| > |HEADER_PREAMBLE| && '\n' !in c
  }

  lemma RepairableUnlessStuck(x: Snap)
    requires x.Ok()
    ensures Repairable(x.fs) <==> !StuckTwin(x.fs)
  {
    hide SplitLines, OpenLines, ClosedLines, HeaderOfData, Roomy, HeaderLine, EventsDurable, PendingRotation, Rotations;
    hide Links;
    var s := x.fs;
    if Current in s.dir {
      var i := s.dir[Current];
      CalmWorld(x);
      GoodDirectory(x);
      GoodActive(s.dir, s.files);
      ActiveLinks(s.dir, s.files);
      assert CurrentOk(s.dir, s.files);
      FileHasSequence(s.files[i]);
      if IsOpen(s.files[i].data) { OpenIsNotClosed(SplitLines(s.files[i].data).lines); }
    }
  }

  lemma RemovableUnlessStuck(x: Snap)
    requires x.Ok()
    ensures Removable(x.fs) <==> !StuckStaging(x.fs)
  {
    hide HeaderLine, OpenFile, ClosedFile, Rotations, RotatedOk, CurrentOk, PendingRotation, HEADER_PREAMBLE, Above;
    var s := x.fs;
    if Staging in s.dir {
      CalmWorld(x);
      GoodDirectory(x);
      assert StagingOk(s.dir, s.files);
      var j := s.dir[Staging];
      var h :| StagedAs(s.files[j], h, s.dir);
      assert (set n <- s.dir.Keys | s.dir[n] == j) == {Staging};
      StagedArtifact(s.files[j].data, h, s.dir);
    }
  }

  /** A prefix of a header is an artifact to the classifier exactly when it ends within the preamble or is whole. */
  lemma StagedArtifact(c: string, h: Header, d: Dir)
    requires h.Valid() && c <= HeaderLine(h) && Above(h.sequence, d) && |Rotations(d)| <= MAX_ROTATIONS
    ensures StagingArtifact(c, d) <==> |c| <= |HEADER_PREAMBLE| || '\n' in c
    ensures |c| <= MAX_HEADER_LINE_BYTES
  {
    hide HeaderLine, Rotations, Above, HEADER_PREAMBLE;
    PreambleHasNoLineFeed();
    HeaderLineLength(h);
    HeaderStartsWithPreamble(h);
    HeaderIsLine(h);
    if |c| <= |HEADER_PREAMBLE| {
      assert c == HEADER_PREAMBLE[..|c|];
    } else if '\n' in c {
      assert |c| == |HeaderLine(h)| && c == HeaderLine(h);
      assert NextHeader(c, h, d);
    } else {
      forall g: Header | NextHeader(c, g, d) ensures false { HeaderIsLine(g); }
    }
  }

  /** While every rotation is certified, no twin is stuck. */
  lemma CertifiedIsNotStuck(x: Snap)
    requires x.Ok() && x.ledger.certified
    ensures !StuckTwin(x.fs)
  {
    hide Snap.Ok, StuckTwin;
    OkIsVouched(x);
    VouchedIsNotStuck(x);
  }

  // ---- recovery --------------------------------------------------------------------------------------------------------------

  /** The ledger at the start of a recovery: if it may complete a rotation over a trailer that is not on the device,
      rotations can no longer be claimed certified. */
  ghost function Weakened(x: Snap): Snap {
    x.(ledger := x.ledger.(certified := x.ledger.certified && !UnsyncedTrailer(x.fs)))
  }

  ghost predicate UnsyncedTrailer(s: Fs) {
    && Current in s.dir && s.dir[Current] in s.files && ClosedFile(s.files[s.dir[Current]])
    && s.files[s.dir[Current]].synced != |s.files[s.dir[Current]].data|
  }

  lemma WeakenedOk(x: Snap)
    requires x.Ok()
    ensures Weakened(x).Ok() && Honest(Weakened(x)) && (x.Calm() ==> Weakened(x).Calm()) && (Booked(x) ==> Booked(Weakened(x)))
  {
    hide At, Synced, Good, ClosedFile, Certified, Firm;
    var y := Weakened(x);
    forall w <- y.own ensures World(w, y.fs.files, y.ledger) {
      assert World(w, x.fs.files, x.ledger);
      forall n ensures Records(w, y.fs.files, y.ledger, n) { assert Records(w, x.fs.files, x.ledger, n); }
    }
  }

  /** Recovery as a whole: the active segment repaired, then the staging file removed. */
  ghost predicate Recovered(x: Fs, y: Fs, r: Report) {
    exists m :: Repaired(x, m, r.truncatedBytes, r.completedRotation) && Removable(m)
      && y == (if r.removedStaging then SyncedDir(ChangeDir(m, Drop(Staging))) else m) && (r.removedStaging <==> Staging in m.dir)
  }

  /** The snapshot a recovery begins with. */
  ghost function Beginning(x: Snap): Snap {
    Weakened(x.(own := {x.fs.dir}, ledger := Ledger(x.ledger.promised, LogOf(x.fs), {}, x.ledger.certified)))
  }

  /** The snapshots a recovery passes that finds a good directory at `x`. */
  ghost predicate Visits(x: Snap, m: Snap) { Repairing(x, m) || (Current !in x.fs.dir && Unstaging(x, m)) }

  // ---- recovery of any directory ---------------------------------------------------------------------------------------------

  /** What a successful repair makes of the file system: the torn tail is gone, and a closed segment has its rotated name
      alone. */
  ghost function AfterRepair(s: Fs): Fs
    requires Repairable(s)
  {
    if Current !in s.dir then s
    else
      var i := s.dir[Current];
      var whole := SplitLines(s.files[i].data).torn == "";
      var files := if whole then s.files else s.files[i := Flushed(Truncated(s.files[i]))];
      if RepairableOpen(s, i) then if whole then s else Fs(files, s.dir, {s.dir})
      else RotationOf(s.(files := files), HeaderOfData(s.files[i].data).value.sequence)
  }

  ghost function RotationOf(s: Fs, q: int): Fs
    requires Current in s.dir
  {
    var d := s.dir[Rotated(q) := s.dir[Current]] - {Current};
    Fs(s.files, d, {d})
  }

  /** Recovery succeeds on the directory, whatever made it: the active segment can be repaired, and what is then staged
      removed. */
  ghost predicate Recoverable(s: Fs) { Repairable(s) && Removable(AfterRepair(s)) }

  ghost function AfterRecovery(s: Fs): Fs
    requires Repairable(s)
  {
    var m := AfterRepair(s);
    if Staging in m.dir then SyncedDir(ChangeDir(m, Drop(Staging))) else m
  }

  lemma RepairedIs(x: Fs, y: Fs, truncated: nat, completed: bool)
    requires Repairable(x) && Repaired(x, y, truncated, completed)
    ensures y == AfterRepair(x)
  {
    hide SplitLines, RepairableOpen, CertifiedLines, HeaderOfData, Truncated, Rotations, Links;
    if Current in x.dir && completed { CertifiedIsNotOpen(x, x.dir[Current]); }
  }

  /** No directory loses an event to a recovery. */
  lemma RecoveryKeepsLog(s: Fs)
    requires Recoverable(s)
    ensures forall n :: LogOf(AfterRecovery(s))(n) == LogOf(s)(n)
  {
    hide At, AfterRepair, Repairable, Removable;
    var m := AfterRepair(s);
    forall n ensures LogOf(AfterRecovery(s))(n) == LogOf(s)(n) {
      RepairKeepsSlot(s, n);
      StagingIsNoSlot(Drop(Staging), m.dir, m.files, n);
    }
  }

  lemma RepairKeepsSlot(s: Fs, n: int)
    requires Repairable(s)
    ensures LogOf(AfterRepair(s))(n) == LogOf(s)(n)
  {
    hide SplitLines, IsOpen, ClosedLines, Events, HeaderOfData, Rotations, Links, Complete, ParseHeader;
    if Current in s.dir {
      var f := s.files[s.dir[Current]];
      TrimKeepsEvents(f.data);
      if !RepairableOpen(s, s.dir[Current]) { CertifiedHasHeader(s, s.dir[Current]); }
    }
  }

  lemma CertifiedHasHeader(s: Fs, i: Inode)
    requires CertifiedLines(s, i)
    ensures i in s.files && HeaderOfData(s.files[i].data).Some?
  {
    hide ParseHeader, ParseTrailerFor, SplitLines, Above, Links;
  }

  lemma TrimKeepsEvents(data: string)
    ensures SplitLines(Complete(data)) == Split(SplitLines(data).lines, "")
    ensures Events(Complete(data)) == Events(data) && HeaderOfData(Complete(data)) == HeaderOfData(data)
  {
    hide SplitLines, Flatten, Body, HeaderIn;
    SplitTruncate(data);
  }

  /** A repaired active segment is open and whole, and a repair away from done only if it was closed. */
  lemma RepairedActive(s: Fs)
    requires Repairable(s) && Current in s.dir
    ensures var m := AfterRepair(s);
      if Current in m.dir
      then m.dir == s.dir && |Rotations(m.dir)| <= MAX_ROTATIONS && RepairableOpen(m, m.dir[Current])
           && |m.files[m.dir[Current]].data| <= MAX_SEGMENT_BYTES && SplitLines(m.files[m.dir[Current]].data).torn == ""
      else !RepairableOpen(s, s.dir[Current]) && CertifiedLines(s, s.dir[Current])
  {
    hide SplitLines, Flatten, HeaderOfData, IsOpen, ClosedLines, Links, Above, Rotations;
    var f := s.files[s.dir[Current]];
    TrimKeepsEvents(f.data);
    CompleteIsPrefix(f.data);
    if RepairableOpen(s, s.dir[Current]) { TruncateKeepsOpen(f.data); }
  }

  lemma RepairIsWellFormed(s: Fs)
    requires WellFormed(s) && s.Valid() && Repairable(s)
    ensures WellFormed(AfterRepair(s)) && AfterRepair(s).Valid() && (Staging in AfterRepair(s).dir <==> Staging in s.dir)
    ensures Current in AfterRepair(s).dir ==> Current in s.dir
  {
    hide SplitLines, HeaderOfData, RepairableOpen, CertifiedLines, Rotations, Links, Flatten;
    if Current in s.dir && !RepairableOpen(s, s.dir[Current]) { RotatedSequence(s, s.dir[Current]); }
  }

  lemma NothingToRepair(y: Fs)
    requires Current !in y.dir && Staging !in y.dir
    ensures Repairable(y) && AfterRepair(y) == y && Removable(y) && (Settled(y) <==> |Rotations(y.dir)| <= MAX_ROTATIONS)
  {
  }

  /** Removing the staging name leaves an open, whole active segment as it was. */
  lemma ActiveStays(m: Fs, y: Fs)
    requires Current in m.dir && RepairableOpen(m, m.dir[Current]) && |Rotations(m.dir)| <= MAX_ROTATIONS
    requires |m.files[m.dir[Current]].data| <= MAX_SEGMENT_BYTES && SplitLines(m.files[m.dir[Current]].data).torn == ""
    requires y == if Staging in m.dir then SyncedDir(ChangeDir(m, Drop(Staging))) else m
    ensures Repairable(y) && AfterRepair(y) == y && Removable(y) && Settled(y) && |Rotations(y.dir)| <= MAX_ROTATIONS
  {
    hide SplitLines, IsEvent, ParseHeader, Rotations, Links;
    var c := m.files[m.dir[Current]].data;
    SingleSurvives(m.dir);
    RotationsUnchanged(m.dir, y.dir);
    ParseHeaderExact(SplitLines(c).lines[0], HeaderOfData(c).value);
  }

  lemma SingleSurvives(d: Dir)
    requires Current in d && Links(d, d[Current]) == 1
    ensures Links(d - {Staging}, d[Current]) == 1
  {
    var i := d[Current];
    if Staging in d && d[Staging] == i { SubsetSmaller({Current, Staging}, set n <- d.Keys | d[n] == i); }
    assert (set n <- (d - {Staging}).Keys | (d - {Staging})[n] == i) == set n <- d.Keys | d[n] == i;
  }

  /** A recovered directory needs no further recovery, and it opens unless it holds too many rotations. */
  lemma RecoveredStays(s: Fs)
    requires WellFormed(s) && s.Valid() && Recoverable(s)
    ensures var y := AfterRecovery(s);
      && WellFormed(y) && y.Valid() && Recoverable(y) && AfterRecovery(y) == y
      && (Settled(y) <==> |Rotations(y.dir)| <= MAX_ROTATIONS)
  {
    hide SplitLines, HeaderOfData, IsOpen, ClosedLines, Links, Above, Rotations, StagingArtifact, AfterRepair;
    hide RepairableOpen, CertifiedLines, Repairable, Settled;
    RepairIsWellFormed(s);
    var m, y := AfterRepair(s), AfterRecovery(s);
    if Current in m.dir {
      RepairedActive(s);
      ActiveStays(m, y);
    } else {
      NothingToRepair(y);
    }
  }

  // ---- after an undone change ------------------------------------------------------------------------------------------------

  /** The host after a recovery, with the log as it stands for a fresh start. */
  ghost function Restored(y: Snap): Snap
    requires Repairable(y.fs)
  {
    var s := AfterRecovery(y.fs);
    Snap(s, {s.dir}, false, Ledger(y.ledger.promised, LogOf(s), {}, y.ledger.certified))
  }

  /** Once recovered, a directory in which older changes have been undone is as good as any, unless it holds too many
      rotations: what it shows is the log, and every promise ever made is kept in it. */
  lemma SalvagedIsOk(y: Snap)
    requires Vouched(y) && y.lost && Recoverable(y.fs) && |Rotations(AfterRecovery(y.fs).dir)| <= MAX_ROTATIONS
    ensures Restored(y).Ok() && forall n :: Restored(y).Slot(n) == y.Slot(n)
  {
    hide Good, Names, At, Repairable, Removable, AfterRepair, AfterRecovery, Honours, Certified, Rotations, Snap.Ok;
    hide Settled;
    VouchedIsWellFormed(y);
    RecoveredStays(y.fs);
    RecoveryKeepsLog(y.fs);
    var z := Restored(y);
    forall n ensures z.Slot(n) == y.Slot(n) { assert LogOf(z.fs)(n) == LogOf(y.fs)(n); }
    RecoveredIsDurable(y.fs, y.ledger.certified);
    SettledIsGood(z.fs, y.ledger.certified);
    DurableIsOk(z, y);
  }

  /** What every stop leaves is a directory that recovery can be tried on. */
  lemma VouchedIsWellFormed(x: Snap)
    requires Vouched(x)
    ensures WellFormed(x.fs) && x.fs.Valid()
  {
    hide OpenFile, ClosedFile, HeaderOfData;
    forall n <- x.fs.dir.Keys ensures n.Rotated? ==> n.sequence >= 0 {
      if n.Rotated? { FileHasSequence(x.fs.files[x.fs.dir[n]]); }
    }
  }

  /** All of it is on the device, every name is a whole segment's, and `certified` rotations are. */
  ghost predicate Durable(s: Fs, certified: bool) {
    && s.worlds == {s.dir} && (forall i <- s.files.Keys :: s.files[i].synced == |s.files[i].data|)
    && Names(s.dir, s.files) && (certified ==> Certified(s.dir, s.files))
  }

  /** The active segment before and after its repair. */
  lemma RepairedSegment(s: Fs)
    requires Names(s.dir, s.files) && Repairable(s) && Current in s.dir
    ensures var f := s.files[s.dir[Current]];
      if RepairableOpen(s, s.dir[Current])
      then OpenFile(f) && Whole(Flushed(Truncated(f))) && SequenceOf(Flushed(Truncated(f))) == SequenceOf(f)
      else
        && ClosedFile(f) && SplitLines(f.data).torn == "" && HeaderOfData(f.data).Some?
        && SequenceOf(f) == Some(HeaderOfData(f.data).value.sequence)
  {
    hide SplitLines, HeaderOfData, OpenLines, ClosedLines, Events, Roomy, Links, Above, Rotations, Truncated;
    var f := s.files[s.dir[Current]];
    assert Whole(f);
    FileHasSequence(f);
    if RepairableOpen(s, s.dir[Current]) {
      OpenNotClosed(f.data);
      TruncatedFile(f);
      FlushedFile(Truncated(f));
    } else if OpenFile(f) {
      OpenIsNotClosed(SplitLines(f.data).lines);
    }
  }

  lemma RepairedIsDurable(s: Fs, certified: bool)
    requires Durable(s, certified) && Repairable(s)
    ensures Durable(AfterRepair(s), certified)
  {
    hide SplitLines, HeaderOfData, OpenFile, ClosedFile, SequenceOf, Truncated, Rotations, Links, RepairableOpen;
    hide CertifiedLines;
    if Current in s.dir {
      RepairedSegment(s);
      FileHasSequence(s.files[s.dir[Current]]);
    }
  }

  lemma RecoveredIsDurable(s: Fs, certified: bool)
    requires Durable(s, certified) && Repairable(s)
    ensures Durable(AfterRecovery(s), certified)
  {
    hide AfterRepair, Repairable, Whole, SequenceOf, ClosedFile;
    RepairedIsDurable(s, certified);
  }

  /** Nothing is staged or pending, and the active segment lies above every rotation. */
  lemma SettledIsGood(s: Fs, certified: bool)
    requires Durable(s, certified) && Settled(s)
    ensures Good(s.dir, s.files)
  {
    hide SplitLines, HeaderOfData, IsOpen, IsClosed, Events, Roomy, HeaderLine, Links, Rotations;
    forall q | Rotated(q) in s.dir ensures RotatedOk(s.dir, s.files, q) {
      var f := s.files[s.dir[Rotated(q)]];
      assert Whole(f) && f.data[..f.synced] == f.data;
    }
    if Current in s.dir {
      var f := s.files[s.dir[Current]];
      assert Whole(f);
      FileHasSequence(f);
      OpenNotClosed(f.data);
    }
  }

  lemma DurableIsSynced(files: Files)
    requires forall i <- files.Keys :: files[i].synced == |files[i].data|
    ensures Synced(files) == files
  {
    forall i <- files.Keys ensures Synced(files)[i] == files[i] { assert files[i].data[..files[i].synced] == files[i].data; }
  }

  lemma DurableIsOk(z: Snap, before: Snap)
    requires Durable(z.fs, z.ledger.certified) && Good(z.fs.dir, z.fs.files) && z.own == {z.fs.dir} && !z.lost
    requires Fallen(before) && z.ledger == Ledger(before.ledger.promised, LogOf(z.fs), {}, z.ledger.certified)
    requires forall n :: z.Slot(n) == before.Slot(n)
    ensures z.Ok()
  {
    hide Good, Names, At, Certified, Synced;
    DurableIsSynced(z.fs.files);
    DurableIsSynced(before.fs.files);
    forall n
      ensures Records(z.fs.dir, z.fs.files, z.ledger, n) && z.ledger.promised(n) <= At(z.fs.dir, Synced(z.fs.files), n)
    {
      assert z.Slot(n) == before.Slot(n) && before.ledger.promised(n) <= At(before.fs.dir, Synced(before.fs.files), n);
    }
    assert World(z.fs.dir, z.fs.files, z.ledger);
    assert Version(z.fs.dir, z.fs.dir, z.fs.files, z.ledger.promised);
  }

  /** `recover_structured_logs`. */
  method Recover(disk: Disk) returns (r: Result<Report, Code>)
    requires disk.alive && WellFormed(disk.s) && disk.s.Valid()
    modifies disk
    ensures old(disk.Now().Ok()) ==> exists m :: Visits(Beginning(old(disk.Now())), m) && Stops(m, disk.alive, disk.Now())
    ensures disk.faults >= old(disk.faults) && (r.Success? ==> disk.faults == old(disk.faults))
    ensures old(disk.Now().Ok()) ==> Outcome(Weakened(old(disk.Now())), disk.alive, disk.Now())
    ensures r.Success? ==> disk.alive && Recovered(old(disk.s), disk.s, r.value)
    ensures disk.alive && disk.faults == old(disk.faults) ==> (r.Success? <==> Recoverable(old(disk.s)))
    ensures r.Success? ==> Recoverable(old(disk.s)) && disk.s == AfterRecovery(old(disk.s))
    ensures r.Success? && old(disk.Now().Ok()) ==> Settled(disk.s) && disk.Now().Calm()
    ensures disk.alive && disk.faults == old(disk.faults) && old(disk.Now().Ok()) ==>
      && (r.Success? <==> !StuckTwin(old(disk.s)) && !StuckStaging(old(disk.s)))
      && (r.Failure? ==> disk.s == old(disk.s) && r.error == if StuckTwin(old(disk.s)) then FILE else RECOVER)
    ensures disk.alive && disk.faults == old(disk.faults) && old(Settled(disk.s)) ==>
      r == Success(Report(0, false, false)) && disk.s == old(disk.s)
  {
    hide Halted, Good, Safe, Steady, Snap.Ok, Outcome, Booked, Honest, StuckTwin, StuckStaging, Repaired, Settled;
    hide Recoverable, AfterRecovery;
    ghost var x := disk.Now();
    ghost var ok := x.Ok();
    disk.Enter();
    disk.ledger := Weakened(disk.Now()).ledger;
    ghost var x0 := disk.Now();
    if ok { EnterWeakened(x, x0); }
    var locked := disk.Lock();
    if ok { OutcomeThenNoEffect(Weakened(x), x0, disk.alive, disk.Now()); }
    if !locked {
      assert Visits(x0, x0) && Stops(x0, disk.alive, disk.Now());
      return Failure(LOCK);
    }
    r := RecoverLocked(disk);
    if ok { OutcomeTransitive(Weakened(x), x0, disk.alive, disk.Now()); }
  }

  method RecoverLocked(disk: Disk) returns (r: Result<Report, Code>)
    requires disk.alive && WellFormed(disk.s) && disk.s.Valid()
    modifies disk
    ensures old(disk.Now().Ok()) ==> exists m :: Visits(old(disk.Now()), m) && Stops(m, disk.alive, disk.Now())
    ensures disk.faults >= old(disk.faults) && (r.Success? ==> disk.faults == old(disk.faults))
    ensures old(disk.Now().Ok() && disk.Now().Calm() && Booked(disk.Now()) && Honest(disk.Now())) ==>
      Outcome(old(disk.Now()), disk.alive, disk.Now()) && (r.Success? ==> Settled(disk.s) && disk.Now().Calm())
    ensures r.Success? ==> disk.alive && Recovered(old(disk.s), disk.s, r.value)
    ensures disk.alive && disk.faults == old(disk.faults) ==> (r.Success? <==> Recoverable(old(disk.s)))
    ensures r.Success? ==> Recoverable(old(disk.s)) && disk.s == AfterRecovery(old(disk.s))
    ensures disk.alive && disk.faults == old(disk.faults) && old(disk.Now().Ok()) ==>
      && (r.Success? <==> !StuckTwin(old(disk.s)) && !StuckStaging(old(disk.s)))
      && (r.Failure? ==> disk.s == old(disk.s) && r.error == if StuckTwin(old(disk.s)) then FILE else RECOVER)
    ensures disk.alive && disk.faults == old(disk.faults) && old(Settled(disk.s)) ==>
      r == Success(Report(0, false, false)) && disk.s == old(disk.s)
  {
    hide Halted, Good, Safe, Steady, Snap.Ok, Outcome, Booked, Honest, StuckTwin, StuckStaging, Repaired, Settled;
    hide Repairable, Removable, AfterRepair, Repairing, Visits, Unstaging, Stops, ClosedFile, Recovered, AfterRecovery;
    ghost var x := disk.Now();
    ghost var ready := x.Ok() && x.Calm() && Booked(x) && Honest(x);
    if x.Ok() { RepairableUnlessStuck(x); RemovableUnlessStuck(x); OneOfTwo(x); }
    if Settled(x.fs) { SettledIsRepairable(x.fs); }
    var repaired := RepairActive(disk);
    ghost var y := disk.Now();
    if ready { SafeIsOutcome(x, disk.alive, y); }
    if x.Ok() { RepairVisits(x, disk.alive, y); }
    if repaired.Failure? {
      return Failure(repaired.error);
    }
    if ready { OutcomeIsOk(x, y); }
    RepairedIsWellFormed(x.fs, y.fs, repaired.value.0, repaired.value.1);
    RepairedIs(x.fs, y.fs, repaired.value.0, repaired.value.1);
    if Settled(x.fs) { SettledStays(x.fs, y.fs, repaired.value.0, repaired.value.1); }
    var removed := RemoveStaging(disk);
    if x.Ok() { RemovalVisits(x, y, disk.alive, disk.Now()); }
    if ready {
      SafeIsOutcome(y, disk.alive, disk.Now());
      OutcomeTransitive(x, y, disk.alive, disk.Now());
    }
    if removed.Failure? {
      if x.Ok() { GoodDirectory(x); }
      return Failure(removed.error);
    }
    var report := Report(repaired.value.0, removed.value, repaired.value.1);
    RecoveryEnds(x.fs, y.fs, disk.s, report);
    if ready {
      OutcomeIsOk(x, disk.Now());
      RecoveredIsSettled(x, y.fs, disk.Now(), report);
    }
    r := Success(report);
  }

  lemma RecoveryEnds(x: Fs, m: Fs, y: Fs, r: Report)
    requires Repairable(x) && Repaired(x, m, r.truncatedBytes, r.completedRotation) && m == AfterRepair(x) && Removable(m)
    requires r.removedStaging <==> Staging in m.dir
    requires y == if r.removedStaging then SyncedDir(ChangeDir(m, Drop(Staging))) else m
    ensures Recovered(x, y, r) && Recoverable(x) && y == AfterRecovery(x)
  {
    hide Repairable, Repaired, Removable, AfterRepair;
  }

  lemma RepairVisits(x: Snap, alive: bool, y: Snap)
    requires exists m :: Repairing(x, m) && Stops(m, alive, y)
    ensures exists m :: Visits(x, m) && Stops(m, alive, y)
    ensures alive ==> Repairing(x, y)
  {
    hide Repairing, Halted;
    var m :| Repairing(x, m) && Stops(m, alive, y);
    assert Visits(x, m);
  }

  lemma RemovalVisits(x: Snap, y: Snap, alive: bool, z: Snap)
    requires Repairing(x, y) && (Current in x.fs.dir ==> Staging !in y.fs.dir)
    requires exists m :: Unstaging(y, m) && Stops(m, alive, z)
    ensures exists m :: Visits(x, m) && Stops(m, alive, z)
  {
    hide Trimming, Trimmed, Rotating, RepairableOpen, CertifiedLines, HeaderOfData, Halted;
    var m :| Unstaging(y, m) && Stops(m, alive, z);
    assert Visits(x, m);
  }

  // ---- every stop of a recovery -----------------------------------------------------------------------------------------------

  /** Every snapshot a recovery passes keeps the invariant. */
  lemma VisitedIsOk(x: Snap, m: Snap)
    requires x.Ok() && x.Calm() && Honest(x) && Visits(x, m)
    ensures m.Ok() && m.ledger == x.ledger
  {
    hide Snap.Ok, SameLog, Preserved, RepairableOpen, CertifiedLines, HeaderOfData, Honest, Trimming, Trimmed, Rotating;
    hide SplitLines, Links;
    if Repairing(x, m) && m != x {
      var i := x.fs.dir[Current];
      if RepairableOpen(x.fs, i) { DescribesActive(x.fs, OpenSegment); }
      if RepairableOpen(x.fs, i) && (Trimming(x, i, m) || m == Trimmed(x, i)) {
        ReadyFinding(x, Described(x.fs, OpenSegment));
        TrimmingIsOk(x, i, m);
      } else {
        DescribesActive(x.fs, ClosedSegment);
        ReadyFinding(x, Described(x.fs, ClosedSegment));
        RotatingIsOk(x, HeaderOfData(x.fs.files[i].data).value.sequence, m);
      }
    } else if m != x {
      DropStagingOk(x);
      SyncDirSteady(x.Changed(Drop(Staging)));
    }
  }

  /** What inspection makes of the active segment, once it is judged. */
  ghost function Described(s: Fs, j: Judgement): Finding
    requires Current in s.dir && s.dir[Current] in s.files && HeaderOfData(s.files[s.dir[Current]].data).Some?
  {
    var i := s.dir[Current];
    Finding(i, Links(s.dir, i), HeaderOfData(s.files[i].data).value, |SplitLines(s.files[i].data).torn|, j)
  }

  lemma DescribesActive(s: Fs, j: Judgement)
    requires Current in s.dir
    requires if j == OpenSegment then RepairableOpen(s, s.dir[Current]) else CertifiedLines(s, s.dir[Current])
    ensures s.dir[Current] in s.files && HeaderOfData(s.files[s.dir[Current]].data).Some? && Describes(Described(s, j), s)
  {
    hide ParseHeader, ParseTrailerFor, IsEvent, SplitLines, Above, Links;
  }

  lemma TrimmingIsOk(x: Snap, i: Inode, m: Snap)
    requires OwnOpen(x, i) && i in x.fs.files && (Trimming(x, i, m) || m == Trimmed(x, i))
    ensures m.Ok() && m.ledger == x.ledger
  {
    hide Snap.Ok, SameLog, Preserved, Truncated, OpenFile, SequenceOf, NothingNew, Unlinked;
    var g := Truncated(x.fs.files[i]);
    var y := x.(fs := WithFile(x.fs, i, g));
    var z := x.(fs := WithFile(x.fs, i, Flushed(g)));
    TruncateOk(x, i);
    SyncSteady(y, i);
    assert WithFile(y.fs, i, Flushed(g)) == z.fs;
    SyncDirSteady(z);
  }

  lemma RotatingIsOk(x: Snap, q: int, m: Snap)
    requires ReadyToRotate(x, q) && Rotating(x, q, m)
    ensures m.Ok() && m.ledger == x.ledger
  {
    hide Snap.Ok, SameLog, Preserved, ClosedFile, SequenceOf, Retiring, Named;
    if m != x {
      if Rotated(q) in x.fs.dir {
        TwinIsNamed(x, q);
        RetiringIsOk(x, q, m);
      } else {
        LinkOk(x, q);
        RetiringIsOk(x.Changed(Bind(Rotated(q), x.fs.dir[Current])), q, m);
      }
    }
  }

  lemma RetiringIsOk(x: Snap, q: int, m: Snap)
    requires Named(x, q) && Retiring(x, m)
    ensures m.Ok() && m.ledger == x.ledger
  {
    hide SameLog, Preserved, SequenceOf, Firm, World, Stamped;
    NamedIsOk(x, q);
    NamedSynced(x, q);
    NamedIsOk(x.DirSynced(), q);
    RetireOk(x.DirSynced(), q);
    SyncDirSteady(x.DirSynced().Changed(Drop(Current)));
  }

  lemma BeginningIsOk(x: Snap)
    requires x.Ok()
    ensures var y := Beginning(x);
      y.Ok() && y.Calm() && Honest(y) && y.fs == x.fs && (y.ledger.certified <==> x.ledger.certified && !UnsyncedTrailer(x.fs))
  {
    hide World, Firm, Stamped, UnsyncedTrailer, SameLog;
    var e := x.(own := {x.fs.dir}, ledger := Ledger(x.ledger.promised, LogOf(x.fs), {}, x.ledger.certified));
    EnterOk(x, e);
    WeakenedOk(e);
  }

  /** No rotation can be stuck while rotations are vouched for. */
  lemma VouchedIsNotStuck(y: Snap)
    requires Vouched(y) && y.ledger.certified
    ensures !StuckTwin(y.fs)
  {
    hide SplitLines, OpenLines, ClosedLines, HeaderOfData, Roomy, HeaderLine, Links, Names;
    if StuckTwin(y.fs) {
      OpenIsNotClosed(SplitLines(y.fs.files[y.fs.dir[Current]].data).lines);
    }
  }

  lemma SettledIsRepairable(s: Fs)
    requires Settled(s)
    ensures Repairable(s) && Removable(s) && Staging !in s.dir
  {
  }

  lemma SettledStays(x: Fs, y: Fs, truncated: nat, completed: bool)
    requires Settled(x) && Repaired(x, y, truncated, completed)
    ensures y == x && truncated == 0 && !completed
  {
    hide CertifiedLines, RepairableOpen, SplitLines, IsOpen, HeaderOfData, Complete, Links, Above;
    if Current in x.dir {
      if completed { CertifiedIsNotOpen(x, x.dir[Current]); AppendableIsRepairable(x); }
    }
  }

  lemma AppendableIsRepairable(s: Fs)
    requires Current in s.dir && Appendable(s)
    ensures RepairableOpen(s, s.dir[Current])
  {
  }

  /** In a good directory the active segment and the staging file never coexist. */
  lemma OneOfTwo(x: Snap)
    requires x.Ok()
    ensures Current in x.fs.dir ==> Staging !in x.fs.dir && !StuckStaging(x.fs)
    ensures Current !in x.fs.dir ==> !StuckTwin(x.fs)
  {
    hide HEADER_PREAMBLE;
    CalmWorld(x);
    if Current in x.fs.dir { NoStaging(x.fs.dir, x.fs.files); }
  }

  lemma RepairedIsWellFormed(x: Fs, y: Fs, truncated: nat, completed: bool)
    requires WellFormed(x) && Repaired(x, y, truncated, completed)
    ensures WellFormed(y) && (Staging in y.dir <==> Staging in x.dir)
    ensures Staging !in x.dir ==> Removable(y)
    ensures Current !in x.dir ==> y == x
  {
    hide CertifiedLines, RepairableOpen, SplitLines, Complete, Links, StagingArtifact;
    if Current in x.dir && completed { RotatedSequence(x, x.dir[Current]); }
  }

  lemma RotatedSequence(s: Fs, i: Inode)
    requires CertifiedLines(s, i)
    ensures i in s.files && HeaderOfData(s.files[i].data).Some? && HeaderOfData(s.files[i].data).value.sequence >= 0
  {
    hide ParseHeader, ParseTrailerFor, SplitLines;
    var lines := SplitLines(s.files[i].data).lines;
    ParseHeaderExact(lines[0], HeaderIn(lines).value);
  }

  lemma RecoveredIsSettled(x: Snap, m: Fs, y: Snap, r: Report)
    requires x.Ok() && y.Ok() && Repaired(x.fs, m, r.truncatedBytes, r.completedRotation)
    requires r.removedStaging <==> Staging in m.dir
    requires y.fs == if r.removedStaging then SyncedDir(ChangeDir(m, Drop(Staging))) else m
    ensures Settled(y.fs)
  {
    hide Snap.Ok, CertifiedLines, SplitLines, Complete, Above, HeaderOfData, IsOpen, Rotations, HEADER_PREAMBLE, Links;
    GoodDirectory(y);
    OneOfTwo(x);
    if Current in y.fs.dir {
      CalmWorld(y);
      GoodActive(y.fs.dir, y.fs.files);
      assert Current in x.fs.dir && y.fs == m && m.dir == x.fs.dir;
      RepairedSegmentIsWhole(x.fs, m, r.truncatedBytes);
    }
  }

  lemma RepairedSegmentIsWhole(x: Fs, m: Fs, truncated: nat)
    requires Current in x.dir && Repaired(x, m, truncated, false)
    ensures var c := m.files[m.dir[Current]].data;
      IsOpen(c) && SplitLines(c).torn == "" && Links(m.dir, m.dir[Current]) == 1
  {
    hide SplitLines, Flatten, HeaderOfData, IsOpen, Links;
    var f := x.files[x.dir[Current]];
    if truncated > 0 { TruncateKeepsOpen(f.data); }
  }

  lemma EnterWeakened(x: Snap, y: Snap)
    requires x.Ok()
    requires exists e :: Entered(x, e) && y == Weakened(e)
    ensures Outcome(Weakened(x), true, y) && Booked(y) && y.Calm() && y.Ok() && Honest(y)
  {
    hide At, Synced, World, Preserved, SameLog, UnsyncedTrailer;
    var e :| Entered(x, e) && y == Weakened(e);
    WeakenedOk(x);
    EnterOk(x, e);
    WeakenedOk(e);
    EnterOutcome(Weakened(x), y);
  }
}

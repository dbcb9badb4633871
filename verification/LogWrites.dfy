/** Appending to, closing and flushing the active segment, as steps of the whole file system. */
module LogWrites {
  import opened Common
  import opened LogWire
  import opened LogEvents
  import opened LogSegments
  import opened LogDisk
  import opened LogSteps
  import opened LogNames
  import opened LogVersions
  import opened LogFilesystem
  import opened LogKernel
  import opened LogPublish

  // ---- the active segment ------------------------------------------------------------------------------------------

  /** The active inode is `i`, open, whole, without a rotated name, and holds exactly `c`. */
  ghost predicate Active(x: Snap, i: Inode, c: string) {
    && x.Ok() && x.Calm() && Unlinked(x.fs.dir, x.fs.files) && x.fs.dir[Current] == i
    && OpenFile(x.fs.files[i]) && x.fs.files[i].data == c && SplitLines(c).torn == ""
  }

  /** An inode with a single name has no rotated name beside the current one. */
  lemma SingleLink(d: Dir, files: Files)
    requires Good(d, files) && Current in d && Links(d, d[Current]) == 1
    ensures Unlinked(d, files)
  {
    hide OpenFile, ClosedFile, SequenceOf, StagingOk, Rotations, PendingRotation;
    assert CurrentOk(d, files);
    FileHasSequence(files[d[Current]]);
    var s := SequenceOf(files[d[Current]]).value;
    if Rotated(s) in d {
      SubsetSmaller({Current, Rotated(s)}, set n <- d.Keys | d[n] == d[Current]);
    }
  }

  /** An active segment without a rotated name has a single link. */
  lemma UnlinkedIsSingle(d: Dir, files: Files)
    requires Good(d, files) && Unlinked(d, files)
    ensures Links(d, d[Current]) == 1
  {
    hide OpenFile, ClosedFile, Rotations, PendingRotation, SequenceOf;
    RotationsApart(d, files);
    forall n <- d.Keys ensures d[n] == d[Current] ==> n == Current {
      if n.Rotated? { assert Rotated(n.sequence) in d; }
    }
    assert (set n <- d.Keys | d[n] == d[Current]) == {Current};
  }

  lemma ActiveIs(x: Snap, i: Inode, c: string)
    requires x.Ok() && x.Calm() && Current in x.fs.dir && x.fs.dir[Current] == i && Links(x.fs.dir, i) == 1
    requires i in x.fs.files && x.fs.files[i].data == c && IsOpen(c) && SplitLines(c).torn == ""
    ensures Active(x, i, c)
  {
    hide IsOpen, IsClosed, SplitLines, HeaderLine, Roomy;
    CalmWorld(x);
    SingleLink(x.fs.dir, x.fs.files);
    FileHasSequence(x.fs.files[i]);
    assert CurrentOk(x.fs.dir, x.fs.files);
    OpenNotClosed(c);
  }

  lemma OpenNotClosed(c: string)
    requires IsOpen(c)
    ensures !IsClosed(c)
  {
    hide OpenLines, ClosedLines, SplitLines;
    OpenIsNotClosed(SplitLines(c).lines);
  }

  // ---- appending -------------------------------------------------------------------------------------------------------

  /** The log with one more event at the end of sequence `q`, the last of the log. */
  ghost predicate Appended(x: Snap, y: Snap, q: int, line: string) {
    && (forall n :: y.Slot(n) == if n == q then x.Slot(n) + [line] else x.Slot(n))
    && (forall n :: x.DurableSlot(n) <= y.DurableSlot(n))
    && Above(q, x.fs.dir)
  }

  lemma AppendOk(x: Snap, i: Inode, c: string, line: string)
    requires Active(x, i, c) && IsEvent(line) && |c| + |line| + MAX_TRAILER_LINE_BYTES <= MAX_SEGMENT_BYTES
    ensures HeaderOfData(c).Some?
    ensures var q := HeaderOfData(c).value.sequence;
      var y := x.(
        fs := WithFile(x.fs, i, Extended(x.fs.files[i], line)), ledger := WithRecorded(x.ledger, q, Events(c) + [line]));
      Active(y, i, c + line) && Appended(x, y, q, line) && Preserved(x.fs, y.fs) && Events(c + line) == Events(c) + [line]
      && HeaderOfData(c + line) == HeaderOfData(c)
  {
    hide At, Synced, World, Good, HeaderOfData, Events, OpenFile, ClosedFile, SplitLines, Preserved, IsEvent, Firm, Grown;
    hide Sealed;
    CalmWorld(x);
    AppendStep(x.fs.dir, x.fs.files, line, x.ledger);
    CurrentIsTop(x.fs.dir, x.fs.files);
    var g := Extended(x.fs.files[i], line);
    GrownByWrite(x.fs.files[i], g);
    OpenIsNotSealed(x.fs.files[i]);
    FileLengths(x, i);
    FileStepOk(x, i, g, WithRecorded(x.ledger, SequenceOf(x.fs.files[i]).value, Events(c) + [line]));
    PreservedGrowth(x.fs, i, g);
  }

  lemma FileLengths(x: Snap, i: Inode)
    requires x.Ok() && i in x.fs.files
    ensures x.fs.files[i].synced <= |x.fs.files[i].data|
  {
  }

  lemma TearOk(x: Snap, i: Inode, c: string, fragment: string)
    requires Active(x, i, c) && '\n' !in fragment && |fragment| <= MAX_EVENT_LINE_BYTES
    requires |c| + |fragment| <= MAX_SEGMENT_BYTES
    ensures var y := x.(fs := WithFile(x.fs, i, Extended(x.fs.files[i], fragment)));
      y.Ok() && y.Calm() && Steady(x, y)
  {
    hide At, Synced, World, Good, HeaderOfData, Events, OpenFile, ClosedFile, SplitLines, Preserved, Firm, Grown, Sealed;
    CalmWorld(x);
    TearStep(x.fs.dir, x.fs.files, fragment, x.ledger);
    var g := Extended(x.fs.files[i], fragment);
    GrownByWrite(x.fs.files[i], g);
    OpenIsNotSealed(x.fs.files[i]);
    FileLengths(x, i);
    FileStepOk(x, i, g, x.ledger);
    PreservedGrowth(x.fs, i, g);
  }

  // ---- closing -----------------------------------------------------------------------------------------------------------

  /** The active segment may be closed by trailer `t`: the one its header and events determine, at `closedAt`. */
  ghost predicate Closable(x: Snap, i: Inode, c: string, t: Trailer) {
    && Active(x, i, c) && |Rotations(x.fs.dir)| < MAX_ROTATIONS && t.Valid() && HeaderOfData(c).Some?
    && TrailerFor(HeaderOfData(c).value, Events(c), t.lastEventAt, t.closedAt) == Some(t)
  }

  lemma CloseOk(x: Snap, i: Inode, c: string, t: Trailer)
    requires Closable(x, i, c, t) && x.fs.files[i].synced == |c|
    ensures var y := x.(fs := WithFile(x.fs, i, Extended(x.fs.files[i], TrailerLine(t))));
      && y.Ok() && y.Calm() && Steady(x, y) && y.fs.dir[Current] == i
      && ClosedFile(y.fs.files[i]) && SequenceOf(y.fs.files[i]) == Some(t.sequence)
  {
    hide At, Synced, World, Good, HeaderOfData, Events, OpenFile, ClosedFile, SplitLines, Preserved, TrailerLine;
    hide TrailerFor, Rotations, Firm, Grown, Sealed;
    CalmWorld(x);
    var f := x.fs.files[i];
    assert EventsDurable(f) by { assert f.data[..f.synced] == f.data; }
    TrailerSequence(HeaderOfData(c).value, Events(c), t);
    CloseStep(x.fs.dir, x.fs.files, HeaderOfData(c).value, t.lastEventAt, t.closedAt, x.ledger);
    var g := Extended(f, TrailerLine(t));
    GrownByWrite(f, g);
    OpenIsNotSealed(f);
    FileStepOk(x, i, g, x.ledger);
    PreservedGrowth(x.fs, i, g);
  }

  lemma TrailerSequence(h: Header, events: seq<string>, t: Trailer)
    requires TrailerFor(h, events, t.lastEventAt, t.closedAt) == Some(t)
    ensures t.sequence == h.sequence
  {
    hide Digest;
  }

  lemma FlushedClosed(x: Snap, i: Inode, q: int)
    requires x.Ok() && x.Calm() && Current in x.fs.dir && x.fs.dir[Current] == i && i in x.fs.files
    requires ClosedFile(x.fs.files[i]) && SequenceOf(x.fs.files[i]) == Some(q)
    ensures var y := x.(fs := WithFile(x.fs, i, Flushed(x.fs.files[i])));
      ReadyToRotate(y, q) && Steady(x, y)
  {
    hide ClosedFile, OpenFile, SequenceOf, World, Steady, EventsDurable;
    SyncSteady(x, i);
    FileLengths(x, i);
    FlushedFile(x.fs.files[i]);
  }

  lemma FlushedActive(x: Snap, i: Inode, c: string, t: Trailer)
    requires Closable(x, i, c, t)
    ensures var y := x.(fs := WithFile(x.fs, i, Flushed(x.fs.files[i])));
      Closable(y, i, c, t) && Steady(x, y) && y.fs.files[i].synced == |c|
  {
    hide OpenFile, SequenceOf, World, Steady, EventsDurable, SplitLines, TrailerFor, HeaderOfData, Events, Rotations;
    SyncSteady(x, i);
    FileLengths(x, i);
    FlushedFile(x.fs.files[i]);
    assert SequenceOf(Flushed(x.fs.files[i])) == SequenceOf(x.fs.files[i]);
  }

  /** Room for the trailer, in bytes. */
  lemma TrailerFits(x: Snap, i: Inode, c: string)
    requires Active(x, i, c)
    ensures |c| + MAX_TRAILER_LINE_BYTES <= MAX_SEGMENT_BYTES
  {
    hide SplitLines, HeaderLine, IsOpen;
    KeptOfWholeOpen(c);
  }

  /** The close of a segment: sync the events, write the trailer, sync it. */
  method CloseSegment(disk: Disk, i: Inode, t: Trailer, ghost c: string) returns (ok: bool)
    requires i in disk.s.files && t.Valid()
    modifies disk
    ensures old(disk.alive && Closable(disk.Now(), i, c, t)) ==>
      Safe(old(disk.Now()), disk.alive, disk.Now()) && (ok ==> ReadyToRotate(disk.Now(), t.sequence))
    ensures ok ==>
      disk.alive && disk.s == WithFile(old(disk.s), i, Flushed(Extended(old(disk.s.files[i]), TrailerLine(t))))
    ensures disk.faults >= old(disk.faults)
    ensures disk.alive && disk.faults == old(disk.faults) ==> ok
  {
    hide At, Synced, World, Halted, Safe, Steady, Closable, ClosedFile, SequenceOf, TrailerLine, ReadyToRotate;
    ghost var x := disk.Now();
    ghost var ready := disk.alive && Closable(x, i, c, t);
    if ready { ClosableIsSafe(x, i, c, t); }
    ok := disk.Fsync(i);
    if !ok {
      if ready { SafeRefusal(x, x, disk.alive, disk.Now()); }
      return;
    }
    ghost var x1 := disk.Now();
    if ready {
      FlushedActive(x, i, c, t);
      ClosableIsSafe(x1, i, c, t);
      SafeStep(x, x, x1);
    }
    ok := WriteTrailer(disk, i, t, x, c, ready);
    if ok {
      assert disk.s.files == x.fs.files[i := Flushed(Extended(x.fs.files[i], TrailerLine(t)))];
    }
  }

  lemma ClosableIsSafe(x: Snap, i: Inode, c: string, t: Trailer)
    requires Closable(x, i, c, t)
    ensures x.Ok() && Safe(x, true, x)
  {
    hide Safe;
    SafeStart(x);
  }

  method WriteTrailer(disk: Disk, i: Inode, t: Trailer, ghost x: Snap, ghost c: string, ghost ready: bool) returns (ok: bool)
    requires i in disk.s.files && t.Valid()
    requires ready ==>
      disk.alive && Safe(x, true, disk.Now()) && Closable(disk.Now(), i, c, t) && disk.s.files[i].synced == |c|
    modifies disk
    ensures ready ==> Safe(x, disk.alive, disk.Now()) && (ok ==> ReadyToRotate(disk.Now(), t.sequence))
    ensures ok ==>
      disk.alive && disk.s == WithFile(old(disk.s), i, Flushed(Extended(old(disk.s.files[i]), TrailerLine(t))))
    ensures disk.faults >= old(disk.faults)
    ensures disk.alive && disk.faults == old(disk.faults) ==> ok
  {
    hide At, Synced, World, Halted, Safe, Steady, Closable, ClosedFile, SequenceOf, TrailerLine, ReadyToRotate, OpenFile;
    ghost var x1 := disk.Now();
    var line := TrailerLine(t);
    var written := disk.Write(i, line);
    if written.None? {
      if ready { SafeRefusal(x, x1, disk.alive, disk.Now()); }
      return false;
    }
    ghost var x2 := disk.Now();
    if ready { TrailerWritten(x, x1, i, c, t, written.value); }
    if written.value != |line| {
      return false;
    }
    assert line[..|line|] == line;
    ok := disk.Fsync(i);
    if !ok {
      if ready { SafeRefusal(x, x2, disk.alive, disk.Now()); }
      return;
    }
    if ready {
      FlushedClosed(x2, i, t.sequence);
      ReadyIsOk(disk.Now(), t.sequence);
      SafeStep(x, x2, disk.Now());
    }
    assert disk.s.files == x1.fs.files[i := Flushed(Extended(x1.fs.files[i], TrailerLine(t)))];
  }

  lemma ReadyIsOk(x: Snap, q: int)
    requires ReadyToRotate(x, q)
    ensures x.Ok() && x.Calm()
  {
  }

  /** A trailer written in part tears the segment; written whole, it closes it. */
  lemma TrailerWritten(x: Snap, x1: Snap, i: Inode, c: string, t: Trailer, k: nat)
    requires Safe(x, true, x1) && Closable(x1, i, c, t) && x1.fs.files[i].synced == |c| && k <= |TrailerLine(t)|
    ensures var y := x1.(fs := WithFile(x1.fs, i, Extended(x1.fs.files[i], TrailerLine(t)[..k])));
      && Safe(x, true, y)
      && (k == |TrailerLine(t)| ==>
        && y.Ok() && y.Calm() && Current in y.fs.dir && y.fs.dir[Current] == i
        && ClosedFile(y.fs.files[i]) && SequenceOf(y.fs.files[i]) == Some(t.sequence))
  {
    hide At, Synced, World, Safe, Steady, ClosedFile, OpenFile, SequenceOf, TrailerLine, TrailerFor, HeaderOfData;
    hide SplitLines, Rotations;
    var line := TrailerLine(t);
    if k == |line| {
      assert line[..k] == line;
      CloseOk(x1, i, c, t);
    } else {
      TrailerIsLine(t);
      TrailerLineLength(t);
      TrailerFits(x1, i, c);
      ProperPrefixIsTorn(line, k);
      TearOk(x1, i, c, line[..k]);
    }
    SafeStep(x, x1, x1.(fs := WithFile(x1.fs, i, Extended(x1.fs.files[i], line[..k]))));
  }
}

/** System calls on the logs directory, any of which may fail, tear, or be the last before a crash. */
module LogFilesystem {
  import opened Common
  import opened LogWire
  import opened LogEvents
  import opened LogSegments
  import opened LogDisk
  import opened LogSteps
  import opened LogNames
  import opened LogVersions

  /** The inodes, the directory as running processes see it, and every directory a power cut may leave:
      each entry change since the last directory fsync may or may not have reached the device. */
  datatype Fs = Fs(files: Files, dir: Dir, worlds: set<Dir>) {
    predicate Valid() { dir in worlds && forall i <- files.Keys :: files[i].synced <= |files[i].data| }

    /** Every entry change is on the device. */
    predicate Clean() { worlds == {dir} }
  }

  /** A file system with its ledger. `own` holds the visible directory and the versions of it that differ only in what the
      current operation has changed; `lost` says that a power cut has undone a change older than that. */
  datatype Snap = Snap(fs: Fs, own: set<Dir>, lost: bool, ledger: Ledger) {
    /** Nothing is lost, every version of the directory keeps the promises, and the operation's own versions hold the
        recorded log. */
    ghost predicate Ok() {
      && !lost && fs.Valid() && fs.dir in own && own <= fs.worlds && Firm(fs.worlds, fs.dir, fs.files, ledger.promised)
      && (ledger.certified ==> Stamped(fs.worlds, fs.files))
      && forall w <- own :: World(w, fs.files, ledger)
    }

    ghost predicate Calm() { own == {fs.dir} }

    /** No version that a power cut might leave undoes a change older than the operation. */
    ghost predicate Recent() { own == fs.worlds }

    ghost function Slot(n: int): seq<string> { At(fs.dir, fs.files, n) }
    ghost function DurableSlot(n: int): seq<string> { At(fs.dir, Synced(fs.files), n) }

    /** After a directory operation. */
    function Changed(op: DirOp): Snap { this.(fs := ChangeDir(fs, op), own := Spread(op, own)) }

    /** After a directory sync. */
    function DirSynced(): Snap { this.(fs := SyncedDir(fs), own := {fs.dir}) }
  }

  /** The log a file system holds, sequence by sequence. */
  ghost function LogOf(s: Fs): int -> seq<string> { n => At(s.dir, s.files, n) }

  function WithFile(s: Fs, i: Inode, f: File): Fs { s.(files := s.files[i := f]) }

  function ChangeDir(s: Fs, op: DirOp): Fs {
    s.(dir := Apply(op, s.dir), worlds := Spread(op, s.worlds))
  }

  function SyncedDir(s: Fs): Fs { s.(worlds := {s.dir}) }

  /** A process death keeps the file system; a power cut leaves some version of the directory and a prefix of every
      file. */
  ghost predicate Halted(x: Snap, y: Snap) { y == x || PowerCut(x, y) }

  ghost predicate PowerCut(x: Snap, y: Snap) {
    && y.fs.dir in x.fs.worlds && y.fs.worlds == {y.fs.dir} && CutFiles(x.fs.files, y.fs.files)
    && y.own == {y.fs.dir} && y.lost == (x.lost || y.fs.dir !in x.own)
    && y.ledger == Ledger(x.ledger.promised, LogOf(y.fs), {}, x.ledger.certified)
  }

  // ---- what a whole operation may do to the log --------------------------------------------------------------------

  /** The same log, with at least as much of it durable. */
  ghost predicate SameLog(x: Snap, y: Snap) {
    forall n :: y.Slot(n) == x.Slot(n) && x.DurableSlot(n) <= y.DurableSlot(n)
  }

  /** Only the end of the last segment that holds events is missing, apart from what was being pruned. */
  ghost predicate LostOnlyTail(l: Ledger, y: Snap) {
    forall n, m :: n < m && n !in l.pruned && m !in l.pruned && y.Slot(n) != l.recorded(n) ==> l.recorded(m) == []
  }

  /** Closed by a trailer, all of it on the device. */
  ghost predicate Sealed(f: File) { IsClosed(f.data) && f.synced == |f.data| }

  /** Sealed inodes are as they were. */
  ghost predicate SealedStay(x: Fs, y: Fs) {
    forall i <- x.files.Keys :: Sealed(x.files[i]) ==> i in y.files && y.files[i] == x.files[i]
  }

  // ---- where events come from ------------------------------------------------------------------------------------------

  /** A segment without events, or less than a segment: part of a header. */
  ghost predicate Barren(f: File) {
    if Whole(f) then Events(f.data) == [] else exists h: Header :: h.Valid() && f.data <= HeaderLine(h)
  }

  /** The same segment with no more than its first events; what holds none still holds none. */
  ghost predicate LeftOf(f: File, g: File) {
    && (Barren(f) ==> Barren(g))
    && (Whole(f) ==>
          && Whole(g) && SequenceOf(g) == SequenceOf(f) && HeaderOfData(g.data) == HeaderOfData(f.data)
          && Events(g.data) <= Events(f.data))
  }

  /** No inode holds an event that it did not hold before, and new ones hold none. */
  ghost predicate NothingNew(x: Fs, y: Fs) {
    && x.files.Keys <= y.files.Keys
    && forall i <- y.files.Keys :: if i in x.files then LeftOf(x.files[i], y.files[i]) else Barren(y.files[i])
  }

  /** What every operation that adds no event keeps, also when a crash undoes older changes. */
  ghost predicate Inherits(x: Fs, y: Fs) { SealedStay(x, y) && NothingNew(x, y) }

  /** The event line is of the UTC day on which the segment with header `h` was opened. */
  ghost predicate OnDay(line: string, h: Header) {
    var at := ValidateEventLine(line); at.Some? && at.value / 86_400_000 == h.openedAt / 86_400_000
  }

  /** A segment holds the events of one UTC day, that of its header. */
  ghost predicate Dated(f: File) {
    || Barren(f)
    || (Whole(f) && HeaderOfData(f.data).Some? && forall line <- Events(f.data) :: OnDay(line, HeaderOfData(f.data).value))
  }

  ghost predicate AllDated(files: Files) { forall i <- files.Keys :: Dated(files[i]) }

  lemma LeftIsDated(f: File, g: File)
    requires LeftOf(f, g) && Dated(f)
    ensures Dated(g)
  {
    hide Barren, Whole, Events, SequenceOf, HeaderOfData, OnDay;
  }

  lemma NothingNewIsDated(x: Fs, y: Fs)
    requires NothingNew(x, y) && AllDated(x.files)
    ensures AllDated(y.files)
  {
    hide Barren, Whole, Events, SequenceOf, HeaderOfData, LeftOf;
    forall i <- y.files.Keys ensures Dated(y.files[i]) {
      if i in x.files { LeftIsDated(x.files[i], y.files[i]); }
    }
  }

  lemma NothingNewTransitive(x: Fs, y: Fs, z: Fs)
    requires NothingNew(x, y) && NothingNew(y, z)
    ensures NothingNew(x, z)
  {
    hide Barren, Whole, Events, SequenceOf, HeaderOfData;
    forall i <- z.files.Keys
      ensures if i in x.files then LeftOf(x.files[i], z.files[i]) else Barren(z.files[i])
    {
      if i in x.files { assert i in y.files; }
    }
  }

  lemma InheritsTransitive(x: Fs, y: Fs, z: Fs)
    requires Inherits(x, y) && Inherits(y, z)
    ensures Inherits(x, z)
  {
    hide SealedStay, NothingNew;
    SealedTransitive(x, y, z);
    NothingNewTransitive(x, y, z);
  }

  /** Entries alone hold no events. */
  lemma SameFilesInherit(x: Fs, y: Fs)
    requires y.files == x.files
    ensures Inherits(x, y) && NothingNew(x, y)
  {
    hide Barren, Whole, Events, SequenceOf, HeaderOfData, Sealed;
  }

  lemma OneFile(x: Fs, i: Inode, g: File)
    requires if i in x.files then LeftOf(x.files[i], g) else Barren(g)
    ensures NothingNew(x, WithFile(x, i, g))
  {
    hide Barren, Whole, Events, SequenceOf, HeaderOfData;
  }

  /** A whole segment that is part of a header is that header. */
  lemma HeaderIsBarren(f: File, h: Header)
    requires h.Valid() && f.data <= HeaderLine(h)
    ensures Barren(f)
  {
    hide HeaderLine, IsOpen, IsClosed, Events, HeaderOfData, SplitLines, Roomy;
    if Whole(f) {
      PartOfHeader(f.data, h);
      FreshIsOpen(h);
    }
  }

  lemma PartOfHeader(c: string, h: Header)
    requires h.Valid() && c <= HeaderLine(h) && (IsOpen(c) || IsClosed(c))
    ensures c == HeaderLine(h)
  {
    hide HeaderLine, ParseHeader, ParseTrailerFor, IsEvent;
    HeaderIsLine(h);
    var p := SplitLines(c);
    JoinSplit(c);
    assert IsLine(p.lines[0]);
    var k := |p.lines[0]| - 1;
    assert c[k] == p.lines[0][k] == '\n';
  }

  /** Syncing, and a crash, leave what they find. */
  lemma CutIsLeftOf(f: File, g: File)
    requires CutFile(f, g)
    ensures LeftOf(f, g)
  {
    hide OpenFile, ClosedFile, Events, HeaderOfData, HeaderLine;
    if Whole(f) {
      if OpenFile(f) { CutOpenFile(f, g); } else { CutClosedFile(f, g); }
    } else if h: Header :| h.Valid() && f.data <= HeaderLine(h) {
      HeaderIsBarren(g, h);
    }
  }

  lemma FlushIsLeftOf(f: File)
    requires f.synced <= |f.data|
    ensures LeftOf(f, Flushed(f))
  {
    hide OpenFile, ClosedFile, Events, HeaderOfData, HeaderLine;
    if Whole(f) {
      FlushedFile(f);
    } else if h: Header :| h.Valid() && f.data <= HeaderLine(h) {
      HeaderIsBarren(Flushed(f), h);
    }
  }

  lemma CutInherits(x: Fs, y: Fs)
    requires CutFiles(x.files, y.files)
    ensures Inherits(x, y)
  {
    hide Barren, Whole, Events, SequenceOf, Sealed, LeftOf, CutFile;
    CutKeepsSealed(x, y);
    forall i <- y.files.Keys ensures LeftOf(x.files[i], y.files[i]) {
      assert CutFile(x.files[i], y.files[i]);
      CutIsLeftOf(x.files[i], y.files[i]);
    }
  }

  // ---- crashes -----------------------------------------------------------------------------------------------------------

  /** Whatever has been undone, every name is a file's, every segment's name a whole segment's, and rotations are certified
      while the ledger says so. */
  ghost predicate Vouched(y: Snap) {
    && y.fs.Valid() && Names(y.fs.dir, y.fs.files) && (y.ledger.certified ==> Certified(y.fs.dir, y.fs.files))
    && (y.lost ==> Fallen(y))
  }

  /** After a power cut everything is on the device, and every promise is kept. */
  ghost predicate Fallen(y: Snap) {
    && y.fs.worlds == {y.fs.dir} && (forall i <- y.fs.files.Keys :: y.fs.files[i].synced == |y.fs.files[i].data|)
    && Honours(y.fs.dir, y.fs.files, y.ledger.promised)
  }

  /** A crash: everything promised is still there; and unless an older change was undone, nothing beyond what was
      recorded. */
  ghost predicate Survived(x: Snap, y: Snap) {
    && y.ledger.promised == x.ledger.promised && y.ledger.certified == x.ledger.certified && Inherits(x.fs, y.fs)
    && (forall n :: x.ledger.promised(n) <= y.Slot(n)) && (x.Recent() ==> !y.lost) && Vouched(y)
    && (!y.lost ==> y.Ok() && (forall n :: y.Slot(n) <= x.ledger.recorded(n)) && LostOnlyTail(x.ledger, y))
  }

  lemma SameLogTransitive(x: Snap, y: Snap, z: Snap)
    requires SameLog(x, y) && SameLog(y, z)
    ensures SameLog(x, z)
  {
    hide At;
    forall n ensures z.Slot(n) == x.Slot(n) && x.DurableSlot(n) <= z.DurableSlot(n) {
      assert y.Slot(n) == x.Slot(n) && x.DurableSlot(n) <= y.DurableSlot(n);
      assert z.Slot(n) == y.Slot(n) && y.DurableSlot(n) <= z.DurableSlot(n);
    }
  }

  /** The crash theorem of the directory model: a crash anywhere keeps every promise, and, unless it undoes a change
      older than the operation, the invariant. */
  lemma HaltSurvives(x: Snap, y: Snap)
    requires x.Ok() && Halted(x, y)
    ensures Survived(x, y)
  {
    hide Good, At, Synced, Firm, CutFiles, Inherits, Vouched;
    if y == x {
      StopSurvives(x);
    } else {
      FirmCut(x.fs.worlds, x.fs.dir, x.fs.files, x.ledger.promised, y.fs.dir, y.fs.files);
      CutStaysVouched(x, y);
      CutInherits(x.fs, y.fs);
      if !y.lost { CutSurvives(x, y); }
    }
  }

  /** A cut spares what is on the device, so rotations stay certified in whatever version it leaves. */
  lemma CutStaysVouched(x: Snap, y: Snap)
    requires x.Ok() && PowerCut(x, y)
    ensures Vouched(y)
  {
    hide ClosedFile, OpenFile, SequenceOf, Firm, World, Names, Fallen;
    CutKeepsNames(x, y);
    if x.ledger.certified {
      assert Certified(y.fs.dir, x.fs.files);
      forall i <- x.fs.files.Keys
        ensures ClosedFile(x.fs.files[i]) && x.fs.files[i].synced == |x.fs.files[i].data| ==> y.fs.files[i] == x.fs.files[i]
      {
        assert CutFile(x.fs.files[i], y.fs.files[i]);
      }
    }
  }

  lemma CutKeepsNames(x: Snap, y: Snap)
    requires x.Ok() && PowerCut(x, y)
    ensures y.fs.Valid() && Names(y.fs.dir, y.fs.files) && Fallen(y)
  {
    hide Names, Lags, Honours, World, Stamped;
    FirmCut(x.fs.worlds, x.fs.dir, x.fs.files, x.ledger.promised, y.fs.dir, y.fs.files);
    assert Version(y.fs.dir, y.fs.dir, y.fs.files, x.ledger.promised);
    forall i <- y.fs.files.Keys ensures y.fs.files[i].synced == |y.fs.files[i].data| {
      assert CutFile(x.fs.files[i], y.fs.files[i]);
    }
  }

  lemma OkIsVouched(x: Snap)
    requires x.Ok()
    ensures Vouched(x)
  {
    hide Good, Names, Lags, Honours, Stamped, Fallen;
    CalmWorld(x);
    assert Version(x.fs.dir, x.fs.dir, x.fs.files, x.ledger.promised);
  }

  lemma CutKeepsSealed(x: Fs, y: Fs)
    requires CutFiles(x.files, y.files)
    ensures SealedStay(x, y)
  {
    hide IsClosed;
    forall i <- x.files.Keys ensures Sealed(x.files[i]) ==> i in y.files && y.files[i] == x.files[i] {
      assert CutFile(x.files[i], y.files[i]);
    }
  }

  lemma StopSurvives(x: Snap)
    requires x.Ok()
    ensures Survived(x, x)
  {
    hide Good, At, Synced, Firm, Inherits, Vouched;
    OkIsVouched(x);
    SameFilesInherit(x.fs, x.fs);
    assert World(x.fs.dir, x.fs.files, x.ledger);
    forall n ensures x.ledger.promised(n) <= x.Slot(n) <= x.ledger.recorded(n) {
      assert Records(x.fs.dir, x.fs.files, x.ledger, n);
      assert x.ledger.promised(n) <= At(x.fs.dir, Synced(x.fs.files), n);
      DurableWithin(x.fs.dir, x.fs.files, n);
    }
    forall n | n !in x.ledger.pruned ensures x.Slot(n) == x.ledger.recorded(n) {
      assert Records(x.fs.dir, x.fs.files, x.ledger, n);
    }
  }

  /** A power cut that undoes nothing older than the operation loses at most the end of the log. */
  lemma CutSurvives(x: Snap, y: Snap)
    requires x.Ok() && PowerCut(x, y) && !y.lost && Firm({y.fs.dir}, y.fs.dir, y.fs.files, y.ledger.promised)
    ensures y.Ok() && (forall n :: y.Slot(n) <= x.ledger.recorded(n)) && LostOnlyTail(x.ledger, y)
  {
    hide Good, At, Synced, Firm, ClosedFile, HeaderOfData;
    var d, after := y.fs.dir, y.fs.files;
    CutWorld(d, x.fs.files, after, x.ledger);
    forall i <- after.Keys ensures after[i].synced <= |after[i].data| { assert CutFile(x.fs.files[i], after[i]); }
    forall n
      ensures y.Slot(n) <= x.ledger.recorded(n)
      ensures Records(d, after, y.ledger, n) && y.ledger.promised(n) <= At(d, Synced(after), n)
    {
      assert Records(d, x.fs.files, x.ledger, n);
    }
    forall n, m | n < m && n !in x.ledger.pruned && m !in x.ledger.pruned && y.Slot(n) != x.ledger.recorded(n)
      ensures x.ledger.recorded(m) == []
    {
      assert Records(d, x.fs.files, x.ledger, n) && Records(d, x.fs.files, x.ledger, m);
      NothingAbove(d, x.fs.files, n, m);
    }
  }

  lemma NothingAbove(d: Dir, files: Files, n: int, m: int)
    requires Good(d, files) && Current in d && SequenceOf(files[d[Current]]) == Some(n) && n < m
    ensures At(d, files, m) == []
  {
    hide OpenFile, ClosedFile, Events, HeaderOfData, StagingOk, PendingRotation, Rotations;
    assert CurrentOk(d, files);
  }

  /** What is durable is in the log. */
  lemma DurableWithin(d: Dir, files: Files, n: int)
    requires Good(d, files)
    ensures At(d, Synced(files), n) <= At(d, files, n)
  {
    hide OpenFile, ClosedFile, Events, HeaderOfData, StagingOk, PendingRotation, Rotations;
    if Rotated(n) in d {
      assert RotatedOk(d, files, n);
    } else if Current in d {
      assert CurrentOk(d, files);
      var f := files[d[Current]];
      CutSynced(f);
      FlushedFile(f);
    }
  }

  // ---- what an operation may do to the files ------------------------------------------------------------------------

  /** The inodes the protocol may still write to. */
  ghost predicate Writable(d: Dir, i: Inode) { (Current in d && d[Current] == i) || (Staging in d && d[Staging] == i) }

  /** No complete line is ever lost, only the active and staged inodes change, no inode becomes active or staged again
      once it has ceased to be, and sealed inodes never change. */
  ghost predicate Preserved(x: Fs, y: Fs) {
    && SealedStay(x, y)
    && forall i <- x.files.Keys ::
      && i in y.files && Complete(x.files[i].data) <= y.files[i].data
      && (!Writable(x.dir, i) ==> y.files[i].data == x.files[i].data && !Writable(y.dir, i))
  }

  lemma SealedTransitive(x: Fs, y: Fs, z: Fs)
    requires SealedStay(x, y) && SealedStay(y, z)
    ensures SealedStay(x, z)
  {
    hide Sealed;
    forall i <- x.files.Keys ensures Sealed(x.files[i]) ==> i in z.files && z.files[i] == x.files[i] {
      if Sealed(x.files[i]) { assert i in y.files.Keys; }
    }
  }

  lemma PreservedTransitive(x: Fs, y: Fs, z: Fs)
    requires Preserved(x, y) && Preserved(y, z)
    ensures Preserved(x, z)
  {
    hide SplitLines, Flatten, Writable, Sealed, SealedStay;
    SealedTransitive(x, y, z);
    forall i <- x.files.Keys
      ensures i in z.files && Complete(x.files[i].data) <= z.files[i].data
      ensures !Writable(x.dir, i) ==> z.files[i].data == x.files[i].data && !Writable(z.dir, i)
    {
      SplitTruncate(x.files[i].data);
      CompleteContains(Complete(x.files[i].data), y.files[i].data);
    }
  }

  /** Writing to, or syncing, an inode that is new or still writable. */
  lemma PreservedFile(x: Fs, i: Inode, g: File)
    requires i in x.files ==> Complete(x.files[i].data) <= g.data
    requires i in x.files && !Writable(x.dir, i) ==> g.data == x.files[i].data
    requires i in x.files && Sealed(x.files[i]) ==> g == x.files[i]
    ensures Preserved(x, WithFile(x, i, g))
  {
    hide SplitLines, Flatten, Sealed;
    forall k <- x.files.Keys ensures Complete(x.files[k].data) <= WithFile(x, i, g).files[k].data {
      CompleteIsPrefix(x.files[k].data);
    }
  }

  lemma PreservedGrowth(x: Fs, i: Inode, g: File)
    requires i in x.files && x.files[i].data <= g.data && (Writable(x.dir, i) || x.files[i].data == g.data)
    requires Sealed(x.files[i]) ==> g == x.files[i]
    ensures Preserved(x, WithFile(x, i, g))
  {
    hide Complete, Sealed;
    CompleteIsPrefix(x.files[i].data);
    PreservedFile(x, i, g);
  }

  /** A directory change that makes no old inode writable. */
  lemma PreservedDir(x: Fs, y: Fs)
    requires y.files == x.files && forall i <- x.files.Keys :: Writable(y.dir, i) ==> Writable(x.dir, i)
    ensures Preserved(x, y)
  {
    hide Complete, Sealed;
    forall i <- x.files.Keys ensures Complete(x.files[i].data) <= y.files[i].data { CompleteIsPrefix(x.files[i].data); }
  }

  lemma OpenIsNotSealed(f: File)
    requires OpenFile(f)
    ensures !Sealed(f)
  {
    hide SplitLines, OpenLines, ClosedLines, Roomy, HeaderLine, HeaderOfData;
    OpenIsNotClosed(SplitLines(f.data).lines);
  }

  lemma PreservedSeals(x: Fs, y: Fs)
    requires Preserved(x, y)
    ensures SealedStay(x, y)
  {
  }

  // ---- the protocol's steps on a snapshot -------------------------------------------------------------------------------

  lemma CalmWorld(x: Snap)
    requires x.Ok()
    ensures World(x.fs.dir, x.fs.files, x.ledger) && Good(x.fs.dir, x.fs.files)
  {
  }

  /** A change of one file that keeps the visible directory good, while the operation has changed no entry. */
  lemma FileStepOk(x: Snap, i: Inode, g: File, l: Ledger)
    requires x.Ok() && x.Calm() && g.synced <= |g.data| && World(x.fs.dir, x.fs.files[i := g], l)
    requires l.promised == x.ledger.promised && (i in x.fs.files && Whole(x.fs.files[i]) ==> Grown(x.fs.files[i], g))
    requires l.certified == x.ledger.certified && (i in x.fs.files && Sealed(x.fs.files[i]) ==> g == x.fs.files[i])
    ensures var y := x.(fs := WithFile(x.fs, i, g), ledger := l); y.Ok() && y.Calm()
  {
    hide World, Firm, Grown, Whole, IsClosed, Roomy, Stamped;
    if l.certified { StampedFile(x.fs.worlds, x.fs.dir, x.fs.files, x.ledger.promised, i, g); }
    FirmFile(x.fs.worlds, x.fs.dir, x.fs.files, x.ledger.promised, i, g);
  }

  lemma SyncOk(x: Snap, i: Inode)
    requires x.Ok() && i in x.fs.files
    ensures var y := x.(fs := WithFile(x.fs, i, Flushed(x.fs.files[i])));
      y.Ok() && SameLog(x, y)
  {
    hide World, At, Synced, Firm, Grown, Whole;
    var y := x.(fs := WithFile(x.fs, i, Flushed(x.fs.files[i])));
    forall w <- x.own
      ensures World(w, y.fs.files, x.ledger)
      ensures forall n :: At(w, y.fs.files, n) == At(w, x.fs.files, n)
      ensures forall n :: At(w, Synced(x.fs.files), n) <= At(w, Synced(y.fs.files), n)
    {
      SyncStep(w, x.fs.files, i, x.ledger);
    }
    if Whole(x.fs.files[i]) { GrownBySync(x.fs.files[i]); }
    FirmFile(x.fs.worlds, x.fs.dir, x.fs.files, x.ledger.promised, i, Flushed(x.fs.files[i]));
  }

  lemma SyncDirOk(x: Snap)
    requires x.Ok()
    ensures var y := x.DirSynced(); y.Ok() && y.Calm() && SameLog(x, y)
  {
    hide World, At, Synced, Firm;
    FirmSync(x.fs.worlds, x.fs.dir, x.fs.files, x.ledger.promised);
  }

  /** After a directory operation from a calm state the operation's own versions are the old and the new. */
  lemma ChangeOk(x: Snap, op: DirOp)
    requires x.Ok() && x.Calm() && World(Apply(op, x.fs.dir), x.fs.files, x.ledger)
    requires Firm(Spread(op, x.fs.worlds), Apply(op, x.fs.dir), x.fs.files, x.ledger.promised)
    requires x.ledger.certified && op.Bind? && op.name.Rotated? && op.inode in x.fs.files ==>
      ClosedFile(x.fs.files[op.inode]) && x.fs.files[op.inode].synced == |x.fs.files[op.inode].data|
    ensures var y := x.Changed(op); y.Ok() && y.own == {x.fs.dir, y.fs.dir}
  {
    hide World, Firm, Stamped, ClosedFile, Apply, Spread;
    if x.ledger.certified { StampedSpread(x.fs.worlds, x.fs.files, op); }
    OnlyTwo(op, x.fs.dir);
    SpreadGrows(op, x.own, x.fs.worlds);
  }

  lemma OnlyTwo(op: DirOp, d: Dir)
    ensures Spread(op, {d}) == {d, Apply(op, d)}
  {
    assert (set w <- {d} :: Apply(op, w)) == {Apply(op, d)};
  }

  lemma SpreadGrows(op: DirOp, a: set<Dir>, b: set<Dir>)
    requires a <= b
    ensures Spread(op, a) <= Spread(op, b) && forall w <- b :: Apply(op, w) in Spread(op, b)
  {
  }

  /** Publishing from a state in which only the staging entry is uncertain. */
  lemma PublishOk(x: Snap, d: Dir, j: Inode, h: Header)
    requires x.Ok() && Staging !in d && Current !in d && x.fs.dir == d[Staging := j] && x.own <= {d, x.fs.dir}
    requires j in x.fs.files && h.Valid() && x.fs.files[j] == File(HeaderLine(h), |HeaderLine(h)|)
    requires Above(h.sequence, d) && forall n <- d.Keys :: d[n] != j
    ensures var y := x.Changed(Publish(j));
      && y.Ok() && SameLog(x, y) && y.fs.dir == d[Current := j]
  {
    hide World, At, Synced, Above, HeaderLine, Good, OpenFile, Events, HeaderOfData, SplitLines, Firm, ClosedFile;
    var y := x.Changed(Publish(j));
    var e := d[Current := j];
    assert Apply(Publish(j), d) == e && Apply(Publish(j), x.fs.dir) == e;
    CalmWorld(x);
    AboveStaged(h.sequence, d, j);
    PublishStep(x.fs.dir, x.fs.files, j, h, x.ledger);
    FirmPublish(x.fs.worlds, x.fs.dir, x.fs.files, x.ledger.promised, j);
    SpreadGrows(Publish(j), x.own, x.own);
    SpreadGrows(Publish(j), x.own, x.fs.worlds);
    forall w <- y.own ensures World(w, x.fs.files, x.ledger) {
      if w !in x.own {
        assert exists v :: v in x.own && w == Apply(Publish(j), v);
      }
    }
  }

  lemma AboveStaged(sequence: int, d: Dir, j: Inode)
    requires Above(sequence, d)
    ensures Above(sequence, d[Staging := j])
  {
  }
}

/** Where the log's guarantees end: inputs on which recovery refuses or a flushed event can be lost, and exactly when. */
module LogLimits {
  import opened Common
  import opened Clock
  import opened LogWire
  import opened LogEvents
  import opened LogEventTheorems
  import opened LogSegments
  import opened LogDisk
  import opened LogSteps
  import opened LogNames
  import opened LogVersions
  import opened LogFilesystem
  import opened LogKernel
  import opened LogPublish
  import opened LogWrites
  import opened LogTally
  import opened LogStore
  import opened LogRecovery

  // ---- a process at work on a fresh segment ------------------------------------------------------------------------------------

  /** The directory holds one segment: nothing but the header `h`, on the device. */
  ghost predicate HeaderOnly(s: Fs, j: Inode, h: Header) {
    s.dir == map[Current := j] && s.files == map[j := HeaderFile(h)]
  }

  /** A process opens the log, appends one event and flushes. */
  method AppendAndFlush(disk: Disk, h: Header, e: Event, ghost j: Inode) returns (ok: bool)
    requires disk.alive && disk.Now().Ok() && HeaderOnly(disk.s, j, h) && h.Valid()
    requires e.Valid() && |EventLine(e)| <= MAX_EVENT_LINE_BYTES && Date(e.ts) == Date(h.openedAt)
    modifies disk
    ensures disk.faults >= old(disk.faults)
    ensures disk.alive && disk.faults == old(disk.faults) ==> ok
    ensures ok ==>
      var data := HeaderLine(h) + EventLine(e);
      && disk.Now().Ok() && IsEvent(EventLine(e)) && disk.s.dir == map[Current := j] && disk.s.worlds == old(disk.s.worlds)
      && disk.s.files == map[j := File(data, |data|)] && disk.ledger.certified == old(disk.ledger.certified)
  {
    hide Snap.Ok, World, Outcome, HeaderLine, EventLine, Settled, Coherent, Tally.Exact, Logged, MayRotate, Good, IsOpen;
    hide Events, HeaderOfData, SplitLines, At, Synced, Halted, PromisedBut, Secured, AllPromised, Links, CertifiedCopy;
    hide ValidateEventLine, Active, Booked, IsClosed, Roomy;
    HeaderIsSettled(disk.s, j, h);
    ghost var x := disk.Now();
    var store := new StructuredLogStore(disk, h.retentionDays);
    var r := store.Open(h.openedAt);
    if r.Some? {
      return false;
    }
    ghost var opening := disk.Now();
    OutcomeIsOk(x, opening);
    OpenedOnHeader(store.tally, disk.s, store.descriptor, j, h);
    NotYetDue(h, store.tally, e);
    r := store.Append(e);
    if r.Some? {
      return false;
    }
    LoggedIsOk(opening, disk.Now(), store.tally.header.sequence, EventLine(e));
    ghost var y := disk.Now();
    ProjectedLineIsAccepted(e);
    r := store.Flush();
    ok := r.None?;
    if ok { OutcomeIsOk(y, disk.Now()); }
  }

  lemma HeaderIsSettled(s: Fs, j: Inode, h: Header)
    requires HeaderOnly(s, j, h) && h.Valid()
    ensures Settled(s) && WellFormed(s) && Current in s.dir && s.dir[Current] == j
  {
    hide HeaderLine, IsOpen, HeaderOfData, SplitLines, Events;
    FreshIsOpen(h);
    HeaderLineLength(h);
    assert Rotations(s.dir) == {};
    assert (set n <- s.dir.Keys | s.dir[n] == j) == {Current};
  }

  lemma OpenedOnHeader(t: Tally, s: Fs, i: Inode, j: Inode, h: Header)
    requires HeaderOnly(s, j, h) && h.Valid() && t.Exact() && Coherent(s, i, |t.digested|) && t.digested <= s.files[i].data
    ensures i == j && t.digested == HeaderLine(h) && t.header == h
  {
    hide HeaderLine, IsOpen, HeaderOfData, SplitLines, Events, Links;
    FreshIsOpen(h);
  }

  /** The first event of the day does not rotate a fresh segment. */
  lemma NotYetDue(h: Header, t: Tally, e: Event)
    requires h.Valid() && t.digested == HeaderLine(h) && t.header == h && |EventLine(e)| <= MAX_EVENT_LINE_BYTES
    ensures |t.digested| + |EventLine(e)| + MAX_TRAILER_LINE_BYTES <= MAX_SEGMENT_BYTES
  {
    hide HeaderLine, EventLine;
    HeaderLineLength(h);
  }

  // ---- a torn staging header -----------------------------------------------------------------------------------------

  /** The file system while the header of a first or next segment is being staged, `k` bytes of it written. */
  function MidStaging(x: Snap, j: Inode, h: Header, k: nat): Snap
    requires k <= |HeaderLine(h)|
  {
    x.(fs := WithFile(x.fs, j, File(HeaderLine(h)[..k], 0)))
  }

  /** A crash while `k` bytes of the staged header are written leaves a directory recovery refuses exactly when the
      cut falls after the thirty-byte preamble and before the final line feed. */
  lemma TornStagingIsRefusedIff(x: Snap, d: Dir, j: Inode, h: Header, k: nat)
    requires Staged(x, d, j) && x.fs.files[j] == File("", 0) && h.Valid() && Above(h.sequence, d) && k <= |HeaderLine(h)|
    ensures var y := MidStaging(x, j, h, k);
      && y.Ok()
      && (!Removable(y.fs) <==> 30 < k < |HeaderLine(h)|)
  {
    hide HeaderLine, World, Steady, HEADER_PREAMBLE, Removable, Above, Snap.Ok;
    var y := MidStaging(x, j, h, k);
    var c := HeaderLine(h)[..k];
    StagedWriteOk(x, d, j, File(c, 0), h);
    RemovableUnlessStuck(y);
    TornHeader(h, k);
  }

  /** The file system a power cut leaves of a staging file of which `c` has reached the device. */
  function OnlyStaging(j: Inode, c: string): Fs { Fs(map[j := File(c, |c|)], map[Staging := j], {map[Staging := j]}) }

  /** From the empty directory: a process stages the header of the first segment and is stopped before it syncs it. A power
      cut may leave any prefix of what was written, and recovery refuses exactly the lengths in between. */
  method StageAndDie(h: Header) returns (written: Option<nat>, disk: Disk)
    requires h.Valid() && h.sequence == 1
    ensures disk.alive && disk.faults == 0 ==> written == Some(|HeaderLine(h)|)
    ensures written.Some? ==>
      && disk.Now().Ok() && Staging in disk.s.dir && written.value <= |HeaderLine(h)|
      && forall k: nat | k <= written.value ::
        var y := AfterCut(disk.Now(), OnlyStaging(disk.s.dir[Staging], HeaderLine(h)[..k]));
        && PowerCut(disk.Now(), y) && y.Ok()
        && (!Removable(y.fs) <==> 30 < k < |HeaderLine(h)|)
  {
    hide HeaderLine, World, Steady, Removable, Snap.Ok, Staged;
    disk := new Disk(Fs(map[], map[], {map[]}));
    EmptyIsOk(disk.Now());
    ghost var x := disk.Now();
    var created := disk.CreateStaging();
    if created.None? {
      return None, disk;
    }
    var j := created.value;
    CreateOk(x, j, h);
    ghost var y := disk.Now();
    written := disk.Write(j, HeaderLine(h));
    if written.Some? {
      StagingTornByCut(y, j, h, disk.Now(), written.value, 0);
      forall k: nat | k <= written.value
        ensures var z := AfterCut(disk.Now(), OnlyStaging(j, HeaderLine(h)[..k]));
          PowerCut(disk.Now(), z) && z.Ok() && (!Removable(z.fs) <==> 30 < k < |HeaderLine(h)|)
      {
        StagingTornByCut(y, j, h, disk.Now(), written.value, k);
      }
    }
  }

  lemma StagingTornByCut(x: Snap, j: Inode, h: Header, y: Snap, n: nat, k: nat)
    requires Staged(x, map[], j) && h.Valid() && h.sequence == 1 && k <= n <= |HeaderLine(h)|
    requires x.fs.files == map[j := File("", 0)] && map[Staging := j] in x.own
    requires y == x.(fs := WithFile(x.fs, j, Extended(File("", 0), HeaderLine(h)[..n])))
    ensures var z := AfterCut(y, OnlyStaging(j, HeaderLine(h)[..k]));
      y.Ok() && PowerCut(y, z) && z.Ok() && (!Removable(z.fs) <==> 30 < k < |HeaderLine(h)|)
  {
    hide HeaderLine, World, Steady, HEADER_PREAMBLE, Removable, Firm, Stamped;
    var line := HeaderLine(h);
    StagedWriteOk(x, map[], j, Extended(File("", 0), line[..n]), h);
    var z := AfterCut(y, OnlyStaging(j, line[..k]));
    assert line[..n][..k] == line[..k];
    assert PowerCut(y, z);
    HaltSurvives(y, z);
    RemovableUnlessStuck(z);
    TornHeader(h, k);
  }

  /** A prefix of a header is neither preamble nor whole exactly between the two. */
  lemma TornHeader(h: Header, k: nat)
    requires h.Valid() && k <= |HeaderLine(h)|
    ensures '\n' !in HeaderLine(h)[..k] && k > |HEADER_PREAMBLE| <==> 30 < k < |HeaderLine(h)|
  {
    hide HeaderLine, HEADER_PREAMBLE;
    PreambleHasNoLineFeed();
    HeaderIsLine(h);
    if k == |HeaderLine(h)| { assert HeaderLine(h)[..k][k - 1] == '\n'; }
  }

  // ---- a trailer completed without being synced ---------------------------------------------------------------------------

  /** What a power cut leaves when recovery has just linked the rotated name of a segment whose trailer never reached
      the device: everything but the unsynced bytes. */
  function TwinAfterCut(x: Snap, q: int): Fs
    requires Current in x.fs.dir && x.fs.dir[Current] in x.fs.files
  {
    var dir := x.fs.dir[Rotated(q) := x.fs.dir[Current]];
    Fs(map i <- x.fs.files.Keys :: Cut(x.fs.files[i]), dir, {dir})
  }

  function Cut(f: File): File {
    if f.synced <= |f.data| then File(f.data[..f.synced], f.synced) else f
  }

  /** The state after a power cut that leaves `s`. */
  ghost function AfterCut(x: Snap, s: Fs): Snap {
    Snap(s, {s.dir}, x.lost || s.dir !in x.own, Ledger(x.ledger.promised, LogOf(s), {}, x.ledger.certified))
  }

  /** Recovery may link a trailer that is not on the device. A power cut right after the link then leaves an active
      segment under two names without a trailer, which every later recovery refuses. The events are all still there. */
  lemma UnsyncedTrailerMayStick(x: Snap, q: int)
    requires x.Ok() && x.Calm() && Unlinked(x.fs.dir, x.fs.files) && UnsyncedTrailer(x.fs)
    requires SequenceOf(x.fs.files[x.fs.dir[Current]]) == Some(q)
    ensures var linked := Weakened(x).Changed(Bind(Rotated(q), x.fs.dir[Current]));
      var y := AfterCut(linked, TwinAfterCut(x, q));
      && linked.Ok() && Halted(linked, y) && y.Ok() && StuckTwin(y.fs) && !Repairable(y.fs)
      && forall n :: y.Slot(n) == x.Slot(n)
  {
    hide World, Good, ClosedFile, OpenFile, SequenceOf, At, Synced, StuckTwin, Repairable, Preserved, Whole, IsClosed;
    hide Events, HeaderLine, Firm;
    WeakenedOk(x);
    WeakenedIsReady(x, q);
    LinkOk(Weakened(x), q);
    var i := x.fs.dir[Current];
    var linked := Weakened(x).Changed(Bind(Rotated(q), i));
    var y := AfterCut(linked, TwinAfterCut(x, q));
    CutIsCut(x);
    assert Halted(linked, y);
    HaltSurvives(linked, y);
    TwinIsStuck(x, y, q);
    RepairableUnlessStuck(y);
    forall n ensures linked.Slot(n) == x.Slot(n) { assert linked.Slot(n) == Weakened(x).Slot(n); }
    TwinKeepsEvents(x, linked, y, q);
  }

  lemma TwinKeepsEvents(x: Snap, linked: Snap, y: Snap, q: int)
    requires (forall n :: linked.Slot(n) == x.Slot(n)) && linked.Ok() && PowerCut(linked, y) && y.fs.dir == linked.fs.dir
    requires Current in y.fs.dir && y.fs.dir[Current] in linked.fs.files && SequenceOf(linked.fs.files[y.fs.dir[Current]]) == Some(q)
    requires Rotated(q) in y.fs.dir
    ensures forall n :: y.Slot(n) == x.Slot(n)
  {
    hide Events, OpenFile, ClosedFile, HeaderOfData, Firm, Good, Synced, CutFile;
    CalmWorld(linked);
    GoodNames(linked.fs.dir, linked.fs.files);
    CutRotated(linked.fs.dir, linked.fs.files, y.fs.files, q);
    forall n ensures y.Slot(n) == x.Slot(n) {
      assert linked.Slot(n) == x.Slot(n);
      CutSlot(linked.fs.dir, linked.fs.files, y.fs.files, n);
    }
  }

  /** Exactly then: a recovery that begins while rotations are certified can be stopped so that it leaves a stuck twin if
      and only if the trailer it finds is not on the device. The stop may be a crash anywhere, also one that undoes changes
      older than the recovery. */
  lemma RecoveryMayStickIff(x: Snap)
    requires x.Ok() && x.ledger.certified
    ensures (exists m, y :: Visits(Beginning(x), m) && Halted(m, y) && StuckTwin(y.fs)) <==> UnsyncedTrailer(x.fs)
  {
    hide Snap.Ok, UnsyncedTrailer, StuckTwin, Visits, Honest, Halted, Repairable, SequenceOf;
    var b := Beginning(x);
    BeginningIsOk(x);
    if UnsyncedTrailer(x.fs) {
      UnsyncedIsUnlinked(x);
      RecoveryLinks(x);
    } else {
      forall m, y | Visits(b, m) && Halted(m, y) ensures !StuckTwin(y.fs) {
        VisitedIsOk(b, m);
        HaltIsVouched(m, y);
        VouchedIsNotStuck(y);
      }
    }
  }

  lemma HaltIsVouched(m: Snap, y: Snap)
    requires m.Ok() && m.ledger.certified && Halted(m, y)
    ensures Vouched(y) && y.ledger.certified
  {
    hide Snap.Ok, Vouched;
    HaltSurvives(m, y);
  }

  lemma UnsyncedIsUnlinked(x: Snap)
    requires x.Ok() && x.ledger.certified && UnsyncedTrailer(x.fs)
    ensures Unlinked(x.fs.dir, x.fs.files) && SequenceOf(x.fs.files[x.fs.dir[Current]]).Some?
  {
    hide ClosedFile, OpenFile, HeaderOfData, Firm, StagingOk, RotatedOk, Rotations, PendingRotation, EventsDurable;
    CalmWorld(x);
    FileHasSequence(x.fs.files[x.fs.dir[Current]]);
    assert CurrentOk(x.fs.dir, x.fs.files);
  }

  /** Recovery passes the link, and the cut may come there. */
  lemma RecoveryLinks(x: Snap)
    requires x.Ok() && UnsyncedTrailer(x.fs) && Unlinked(x.fs.dir, x.fs.files)
    ensures exists m, y :: Visits(Beginning(x), m) && Halted(m, y) && StuckTwin(y.fs) && forall n :: y.Slot(n) == x.Slot(n)
  {
    hide Snap.Ok, UnsyncedTrailer, StuckTwin, Halted, Repairable, SequenceOf, CertifiedLines, World, Trimming;
    hide RepairableOpen, SameLog;
    var e := x.(own := {x.fs.dir}, ledger := Ledger(x.ledger.promised, LogOf(x.fs), {}, x.ledger.certified));
    EnterOk(x, e);
    UnsyncedIsCertified(x);
    var q := SequenceOf(x.fs.files[x.fs.dir[Current]]).value;
    UnsyncedTrailerMayStick(e, q);
    var linked := Beginning(x).Changed(Bind(Rotated(q), x.fs.dir[Current]));
    assert Rotating(Beginning(x), q, linked);
    assert Visits(Beginning(x), linked);
  }

  lemma UnsyncedIsCertified(x: Snap)
    requires x.Ok() && UnsyncedTrailer(x.fs) && Unlinked(x.fs.dir, x.fs.files)
    ensures CertifiedLines(x.fs, x.fs.dir[Current])
    ensures var f := x.fs.files[x.fs.dir[Current]];
      HeaderOfData(f.data).Some? && SequenceOf(f) == Some(HeaderOfData(f.data).value.sequence)
  {
    hide HeaderOfData, OpenLines, ClosedLines, SplitLines, Roomy, HeaderLine, Firm, StagingOk, RotatedOk, Rotations;
    hide PendingRotation, EventsDurable, Links;
    CalmWorld(x);
    FileHasSequence(x.fs.files[x.fs.dir[Current]]);
    UnlinkedIsSingle(x.fs.dir, x.fs.files);
    assert CurrentOk(x.fs.dir, x.fs.files);
  }

  /** From the empty directory: a process appends one event and flushes it; then, closing the segment, it writes the whole
      trailer and is stopped before it syncs that. Every call has succeeded. A recovery that follows may be cut at its
      link, and leaves the event under a stuck twin. */
  method CloseAndDie(openedAt: Instant, days: int, e: Event, closedAt: Instant) returns (written: bool, disk: Disk)
    requires InRange(openedAt) && 1 <= days <= MAX_LOG_RETENTION_DAYS && BoundedExpiry(openedAt, days).Some?
    requires e.Valid() && |EventLine(e)| <= MAX_EVENT_LINE_BYTES && Date(e.ts) == Date(openedAt) && InRange(closedAt)
    ensures disk.alive && disk.faults == 0 ==> written
    ensures written ==>
      && disk.Now().Ok() && disk.ledger.certified && UnsyncedTrailer(disk.s) && disk.Now().Slot(1) == [EventLine(e)]
      && exists m, y :: Visits(Beginning(disk.Now()), m) && Halted(m, y) && StuckTwin(y.fs) && y.Slot(1) == [EventLine(e)]
  {
    hide Snap.Ok, World, HeaderLine, EventLine, At, Synced, UnsyncedTrailer, StuckTwin, Visits, Halted, Closable;
    hide TrailerLine, Steady, Safe, BoundedExpiry, IsClosed, IsEvent, ParseHeader;
    written := false;
    disk := new Disk(Fs(map[], map[], {map[]}));
    EmptyIsOk(disk.Now());
    ghost var empty := disk.Now();
    var published := PublishFreshCurrent(disk, 1, openedAt, days);
    if published.Failure? {
      return;
    }
    SafeIsOk(empty, disk.Now());
    SafeKeepsLedger(empty, disk.Now());
    var h := published.value;
    var j := disk.s.dir[Current];
    assert HeaderOnly(disk.s, j, h);
    var ok := AppendAndFlush(disk, h, e, j);
    if !ok {
      return;
    }
    ghost var x := disk.Now();
    disk.Enter();
    EnterOk(x, disk.Now());
    ghost var c := HeaderLine(h) + EventLine(e);
    var t := TallyTrailer(Counted(FreshTally(h), EventLine(e), e.ts), closedAt).value;
    x := disk.Now();
    MayClose(x, j, h, e, closedAt);
    ok := disk.Fsync(j);
    if !ok {
      return;
    }
    assert disk.s.files == x.fs.files;
    var k := disk.Write(j, TrailerLine(t));
    written := k == Some(|TrailerLine(t)|);
    if written {
      TrailerUnsynced(x, j, c, t, disk.Now());
      OneEvent(x, j, h, e);
      UnsyncedIsUnlinked(disk.Now());
      RecoveryLinks(disk.Now());
    }
  }

  /** The segment that holds the one event may be closed. */
  lemma MayClose(x: Snap, j: Inode, h: Header, e: Event, closedAt: Instant)
    requires x.Ok() && x.Calm() && x.fs.dir == map[Current := j] && h.Valid() && e.Valid() && InRange(closedAt)
    requires var data := HeaderLine(h) + EventLine(e); x.fs.files == map[j := File(data, |data|)]
    requires |EventLine(e)| <= MAX_EVENT_LINE_BYTES && BoundedExpiry(h.openedAt, h.retentionDays).Some?
    ensures var t := TallyTrailer(Counted(FreshTally(h), EventLine(e), e.ts), closedAt);
      t.Some? && Closable(x, j, HeaderLine(h) + EventLine(e), t.value)
  {
    hide HeaderLine, EventLine, SplitLines, IsOpen, Events, HeaderOfData, ValidateEventLine, Snap.Ok, OpenFile;
    hide BoundedExpiry, Trailer.Valid, TrailerFor;
    var t := Counted(FreshTally(h), EventLine(e), e.ts);
    FreshIsExact(h);
    ProjectedLineIsAccepted(e);
    CountedIsExact(FreshTally(h), EventLine(e), e.ts);
    HeaderLineLength(h);
    TallyTrailerIsTheirs(t, closedAt);
    assert (set n <- x.fs.dir.Keys | x.fs.dir[n] == j) == {Current};
    ActiveIs(x, j, t.digested);
    assert Rotations(x.fs.dir) == {};
  }

  /** The whole trailer written, and nothing synced since. */
  lemma TrailerUnsynced(x: Snap, i: Inode, c: string, t: Trailer, y: Snap)
    requires Closable(x, i, c, t) && x.fs.files[i].synced == |c|
    requires y == x.(fs := WithFile(x.fs, i, Extended(x.fs.files[i], TrailerLine(t)[..|TrailerLine(t)|])))
    ensures y.Ok() && UnsyncedTrailer(y.fs) && SameLog(x, y) && y.ledger == x.ledger
  {
    hide Closable, TrailerLine, ClosedFile, SequenceOf, SameLog, Preserved, Snap.Ok;
    assert TrailerLine(t)[..|TrailerLine(t)|] == TrailerLine(t);
    CloseOk(x, i, c, t);
    TrailerIsLine(t);
    ClosableHolds(x, i, c, t);
  }

  lemma ClosableHolds(x: Snap, i: Inode, c: string, t: Trailer)
    requires Closable(x, i, c, t)
    ensures Current in x.fs.dir && x.fs.dir[Current] == i && i in x.fs.files && x.fs.files[i].data == c
  {
    hide OpenFile, SplitLines, TrailerFor, HeaderOfData, Events, Rotations, Snap.Ok;
  }

  lemma OneEvent(x: Snap, j: Inode, h: Header, e: Event)
    requires h.Valid() && h.sequence == 1 && IsEvent(EventLine(e)) && x.fs.dir == map[Current := j]
    requires x.fs.files == map[j := File(HeaderLine(h) + EventLine(e), |HeaderLine(h) + EventLine(e)|)]
    ensures x.Slot(1) == [EventLine(e)]
  {
    hide HeaderLine, EventLine, IsEvent, IsOpen, Events, HeaderOfData, SplitLines;
    FreshIsOpen(h);
    AppendKeepsOpen(HeaderLine(h), EventLine(e));
  }

  lemma WeakenedIsReady(x: Snap, q: int)
    requires x.Ok() && x.Calm() && Unlinked(x.fs.dir, x.fs.files) && UnsyncedTrailer(x.fs)
    requires SequenceOf(x.fs.files[x.fs.dir[Current]]) == Some(q)
    ensures ReadyToRotate(Weakened(x), q) && Rotated(q) !in x.fs.dir
  {
    hide Snap.Ok, ClosedFile, SequenceOf;
    WeakenedOk(x);
  }

  lemma CutIsCut(x: Snap)
    requires x.Ok()
    ensures forall i <- x.fs.files.Keys :: CutFile(x.fs.files[i], Cut(x.fs.files[i]))
  {
    hide World;
  }

  lemma TwinIsStuck(x: Snap, y: Snap, q: int)
    requires x.Ok() && Unlinked(x.fs.dir, x.fs.files) && UnsyncedTrailer(x.fs)
    requires SequenceOf(x.fs.files[x.fs.dir[Current]]) == Some(q) && y.Ok() && y.fs == TwinAfterCut(x, q)
    ensures StuckTwin(y.fs)
  {
    hide World, HeaderOfData, IsOpen, IsClosed, Roomy, HeaderLine, EventsDurable, Rotations, PendingRotation, Links;
    var i := x.fs.dir[Current];
    CutIsCut(x);
    CutClosedFile(x.fs.files[i], y.fs.files[i]);
    FileHasSequence(x.fs.files[i]);
    GoodDirectory(y);
    CalmWorld(y);
    ActiveLinks(y.fs.dir, y.fs.files);
    GoodActive(y.fs.dir, y.fs.files);
    assert CurrentOk(y.fs.dir, y.fs.files);
  }

  /** After a power cut no trailer is unsynced, so a recovery that follows one never meets that case. */
  lemma PowerCutSyncsTrailers(x: Snap, y: Snap)
    requires PowerCut(x, y)
    ensures !UnsyncedTrailer(y.fs)
  {
    hide ClosedFile;
    if Current in y.fs.dir && y.fs.dir[Current] in y.fs.files {
      assert CutFile(x.fs.files[y.fs.dir[Current]], y.fs.files[y.fs.dir[Current]]);
    }
  }

  // ---- which flushed events survive ---------------------------------------------------------------------------------------------

  /** No other segment of the sequence holds the events of inode `i`. */
  ghost predicate OwnEvents(s: Fs, i: Inode, n: int)
    requires i in s.files
  {
    forall k <- s.files.Keys | k != i && Whole(s.files[k]) && SequenceOf(s.files[k]) == Some(n) ::
      !(Events(s.files[i].data) <= Events(s.files[k].data))
  }

  /** The events of inode `i` are still those of slot `n`, or its beginning, after every power cut. */
  ghost predicate SurviveEveryCut(x: Snap, i: Inode, n: int)
    requires i in x.fs.files
  {
    forall y: Snap | PowerCut(x, y) :: Events(x.fs.files[i].data) <= y.Slot(n)
  }

  /** Once an inode is synced, its events survive every power cut exactly when every version of the directory that a
      power cut might leave binds the inode, under the active name or its rotated one. A flush syncs the file alone. */
  lemma FlushSurvivesIffAnchored(x: Snap, i: Inode, n: int)
    requires x.Ok() && AllSynced(x.fs, i) && SequenceOf(x.fs.files[i]) == Some(n) && Events(x.fs.files[i].data) != []
    ensures Anchored(x.fs.worlds, i, n) ==> SurviveEveryCut(x, i, n)
    ensures OwnEvents(x.fs, i, n) && SurviveEveryCut(x, i, n) ==> Anchored(x.fs.worlds, i, n)
  {
    hide Events, At, OpenFile, ClosedFile, SequenceOf, Version, CutFiles;
    if Anchored(x.fs.worlds, i, n) {
      forall y: Snap | PowerCut(x, y) ensures Events(x.fs.files[i].data) <= y.Slot(n) { AnchoredSurvives(x, y, i, n); }
    }
    if OwnEvents(x.fs, i, n) && SurviveEveryCut(x, i, n) {
      forall w <- x.fs.worlds ensures ReadsFrom(w, i, n) {
        if !ReadsFrom(w, i, n) {
          WholeCut(x);
          var y := AfterCut(x, Fs(map k <- x.fs.files.Keys :: Cut(x.fs.files[k]), w, {w}));
          assert PowerCut(x, y);
          UnreadIsLost(x, w, i, n);
        }
      }
    }
  }

  lemma AnchoredSurvives(x: Snap, y: Snap, i: Inode, n: int)
    requires x.Ok() && AllSynced(x.fs, i) && SequenceOf(x.fs.files[i]) == Some(n) && Anchored(x.fs.worlds, i, n)
    requires PowerCut(x, y)
    ensures Events(x.fs.files[i].data) <= y.Slot(n)
  {
    hide Events, At, OpenFile, ClosedFile, SequenceOf, CutFiles, Lags, Honours, Synced;
    var w := y.fs.dir;
    assert Version(w, x.fs.dir, x.fs.files, x.ledger.promised) && ReadsFrom(w, i, n);
    ReadsSynced(w, x.fs.files, i, n);
    CutKeepsSlot(w, x.fs.files, y.fs.files, n);
  }

  lemma WholeCut(x: Snap)
    requires x.Ok()
    ensures CutFiles(x.fs.files, map k <- x.fs.files.Keys :: Cut(x.fs.files[k]))
  {
    hide Firm, World;
    CutIsCut(x);
  }

  lemma UnreadIsLost(x: Snap, w: Dir, i: Inode, n: int)
    requires x.Ok() && w in x.fs.worlds && i in x.fs.files && OwnEvents(x.fs, i, n) && !ReadsFrom(w, i, n)
    requires Events(x.fs.files[i].data) != []
    ensures !(Events(x.fs.files[i].data) <= At(w, map k <- x.fs.files.Keys :: Cut(x.fs.files[k]), n))
  {
    hide Events, OpenFile, ClosedFile, HeaderOfData, Lags, Honours, Good;
    assert Version(w, x.fs.dir, x.fs.files, x.ledger.promised);
    CutIsCut(x);
    if Current in w { CutWithin(x.fs.files[w[Current]]); }
    if Rotated(n) in w { CutWithin(x.fs.files[w[Rotated(n)]]); }
  }

  lemma CutWithin(f: File)
    requires Whole(f)
    ensures SequenceOf(Cut(f)) == SequenceOf(f) && Events(Cut(f).data) <= Events(f.data)
  {
    hide OpenFile, ClosedFile, Events, HeaderOfData;
    WholeLengths(f);
    CutSynced(f);
    if OpenFile(f) { CutOpenFile(f, Cut(f)); } else { CutClosedFile(f, Cut(f)); }
  }

  /** A flush on a synced directory secures the active segment. */
  lemma SyncedDirectorySecures(x: Snap)
    requires x.Ok() && x.fs.worlds == {x.fs.dir} && Current in x.fs.dir
    ensures Secured(x.fs, x.fs.dir[Current])
  {
    hide Events, HeaderOfData, OpenFile, ClosedFile, StagingOk, RotatedOk, EventsDurable, PendingRotation, Rotations;
    hide Firm;
    CalmWorld(x);
    assert CurrentOk(x.fs.dir, x.fs.files);
    FileHasSequence(x.fs.files[x.fs.dir[Current]]);
  }

  // ---- a publication whose directory sync never came --------------------------------------------------------------------------

  /** The directory as a process leaves it that is killed between publishing the first segment and syncing the
      directory. */
  ghost predicate KilledAfterRename(s: Fs, j: Inode, h: Header) {
    HeaderOnly(s, j, h) && map[] in s.worlds && map[Staging := j] in s.worlds
  }

  /** A first process stages, syncs and renames its header, and is killed before it syncs the directory. */
  method PublishAndDie(disk: Disk, h: Header) returns (ok: bool)
    requires h.Valid() && h.sequence == 1 && disk.s == Fs(map[], map[], {map[]})
    requires disk.alive && disk.Now().Ok() && disk.Now().Calm()
    modifies disk
    ensures disk.faults >= old(disk.faults)
    ensures disk.alive && disk.faults == old(disk.faults) ==> ok
    ensures ok ==> disk.alive && disk.Now().Ok() && Current in disk.s.dir && KilledAfterRename(disk.s, disk.s.dir[Current], h)
  {
    hide Snap.Ok, World, Staged, Safe, Steady, HeaderLine, Halted;
    ghost var x := disk.Now();
    ok := StageHeader(disk, h);
    if !ok {
      return;
    }
    ghost var y := disk.Now();
    ok := disk.PublishStaging();
    if ok {
      PublishSteady(y, x.fs.dir, y.fs.dir[Staging], h);
    }
  }

  /** A flush acknowledged after such a kill does not make its events durable. The first process only stops; the second
      opens the directory, which is settled, appends and flushes, and every call it makes succeeds; no directory sync
      is among them. A power cut may then undo the rename: either the log is empty and recovery has nothing to do, or
      its one file is a staging file that recovery refuses. */
  method FlushAfterAKill(openedAt: Instant, days: int, e: Event) returns (acknowledged: bool, disk: Disk)
    requires InRange(openedAt) && 1 <= days <= MAX_LOG_RETENTION_DAYS
    requires e.Valid() && |EventLine(e)| <= MAX_EVENT_LINE_BYTES && Date(e.ts) == Date(openedAt)
    ensures disk.alive && disk.faults == 0 ==> acknowledged
    ensures acknowledged ==>
      && disk.Now().Ok() && disk.Now().Slot(1) == [EventLine(e)] && disk.Now().DurableSlot(1) == [EventLine(e)]
      && (exists y :: PowerCut(disk.Now(), y) && y.Slot(1) == [] && Settled(y.fs))
      && (exists y :: PowerCut(disk.Now(), y) && y.Slot(1) == [] && !Removable(y.fs))
  {
    hide Snap.Ok, World, HeaderLine, EventLine, HeaderOnly, Settled, At, Synced, Removable;
    disk := new Disk(Fs(map[], map[], {map[]}));
    EmptyIsOk(disk.Now());
    var h := Header(1, openedAt, days);
    acknowledged := PublishAndDie(disk, h);
    if acknowledged {
      ghost var j := disk.s.dir[Current];
      acknowledged := AppendAndFlush(disk, h, e, j);
      if acknowledged { Stranded(disk.Now(), j, h, e); }
    }
  }

  /** The two power cuts. */
  lemma Stranded(x: Snap, j: Inode, h: Header, e: Event)
    requires x.Ok() && e.Valid() && h.Valid() && h.sequence == 1 && IsEvent(EventLine(e))
    requires x.fs.dir == map[Current := j] && map[] in x.fs.worlds && map[Staging := j] in x.fs.worlds
    requires var data := HeaderLine(h) + EventLine(e); x.fs.files == map[j := File(data, |data|)]
    ensures x.Slot(1) == [EventLine(e)] && x.DurableSlot(1) == [EventLine(e)]
    ensures exists y :: PowerCut(x, y) && y.Slot(1) == [] && Settled(y.fs)
    ensures exists y :: PowerCut(x, y) && y.Slot(1) == [] && !Removable(y.fs)
  {
    hide HeaderLine, EventLine, IsEvent, IsOpen, Events, HeaderOfData, SplitLines, Snap.Ok, Settled, Removable;
    var data := HeaderLine(h) + EventLine(e);
    FreshIsOpen(h);
    AppendKeepsOpen(HeaderLine(h), EventLine(e));
    assert data[..|data|] == data;
    var gone := AfterCut(x, Fs(x.fs.files, map[], {map[]}));
    var torn := AfterCut(x, Fs(x.fs.files, map[Staging := j], {map[Staging := j]}));
    assert PowerCut(x, gone) && PowerCut(x, torn);
    NothingIsSettled(x.fs.files);
    EventsStickInStaging(x.fs.files, j, h, EventLine(e));
  }

  lemma NothingIsSettled(files: Files)
    ensures Settled(Fs(files, map[], {map[]}))
  {
    assert Rotations(map[]) == {};
  }

  /** A staging file that holds events is none the classifier recognises. */
  lemma EventsStickInStaging(files: Files, j: Inode, h: Header, line: string)
    requires h.Valid() && IsEvent(line) && j in files && files[j].data == HeaderLine(h) + line
    ensures !Removable(Fs(files, map[Staging := j], {map[Staging := j]}))
  {
    hide HeaderLine, IsEvent, HEADER_PREAMBLE, Above;
    var data := HeaderLine(h) + line;
    HeaderIsLine(h);
    HeaderStartsWithPreamble(h);
    EventIsNotTrailer(line);
    PreambleHasNoLineFeed();
    assert data[|HeaderLine(h)| - 1] == '\n';
    forall g: Header, d: Dir ensures !NextHeader(data, g, d) {
      if NextHeader(data, g, d) { HeaderIsLine(g); }
    }
  }

  // ---- sequences restart --------------------------------------------------------------------------------------------------------

  /** A store that finds no active segment starts one above the highest surviving rotation; pruning that rotation
      first makes it start lower, so sequences ascend over surviving names only. */
  lemma SequenceMayRestart(d: Dir, q: int, next: int, lower: int)
    requires Rotated(q) in d && q > 0 && (forall p | Rotated(p) in d :: p <= q)
    requires Next(next, d) && Next(lower, d - {Rotated(q)})
    ensures next == q + 1 && lower <= q
  {
    assert Above(q + 1, d);
    assert Above(q, d - {Rotated(q)});
  }
}

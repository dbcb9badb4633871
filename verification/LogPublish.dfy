/** Publishing a fresh active segment and completing a rotation: the two crash-ordered sequences every
    operation of the store is built from. */
module LogPublish {
  import opened Common
  import opened Clock
  import opened Canonical
  import opened LogWire
  import opened LogSegments
  import opened LogDisk
  import opened LogSteps
  import opened LogNames
  import opened LogVersions
  import opened LogFilesystem
  import opened LogKernel

  /** The fixed error codes of the store, without their `MH_LOG_` prefix; `UNCODED` is an escaping OSError. */
  datatype Code =
    | RECOVERY_REQUIRED | OPEN | SEQUENCE | AMBIGUOUS | HEADER | EVENT | FILE | ROTATIONS | OVERFLOW | ROTATE
    | APPEND | CONFLICT | CLOSED | LOCK | RETENTION | RETENTION_BOUND | RECOVER | UNCODED

  /** One step, or several, that leave the log as it was and lose nothing that was written. */
  ghost predicate Steady(x: Snap, y: Snap) {
    && SameLog(x, y) && Preserved(x.fs, y.fs) && NothingNew(x.fs, y.fs) && y.ledger == x.ledger
    && (x.Recent() ==> y.Recent())
  }

  /** How an operation that began at `x` may leave the host: running with the same log, or crashed with every
      promise kept. */
  ghost predicate Safe(x: Snap, alive: bool, y: Snap) {
    if alive then y.Ok() && Steady(x, y) else Survived(x, y)
  }

  lemma SteadyInherits(x: Snap, y: Snap)
    requires Steady(x, y)
    ensures Inherits(x.fs, y.fs)
  {
    hide SameLog, NothingNew, Snap.Ok;
    PreservedSeals(x.fs, y.fs);
  }

  lemma SafeStart(x: Snap)
    requires x.Ok()
    ensures Safe(x, true, x)
  {
    hide At, Synced, World;
    PreservedDir(x.fs, x.fs);
    SameFilesInherit(x.fs, x.fs);
  }

  lemma SafeStep(x: Snap, y: Snap, z: Snap)
    requires Safe(x, true, y) && z.Ok() && Steady(y, z)
    ensures Safe(x, true, z)
  {
    hide SameLog, Preserved, NothingNew;
    SameLogTransitive(x, y, z);
    PreservedTransitive(x.fs, y.fs, z.fs);
    NothingNewTransitive(x.fs, y.fs, z.fs);
  }

  /** A refused call, or a crash at it, keeps the operation safe. */
  lemma SafeRefusal(x: Snap, y: Snap, alive: bool, z: Snap)
    requires Safe(x, true, y) && (if alive then z == y else Halted(y, z))
    ensures Safe(x, alive, z)
  {
    hide World, Preserved, Good, SameLog, Inherits, Firm;
    if !alive {
      HaltSurvives(y, z);
      SafeKeepsLedger(x, y);
      SteadyInherits(x, y);
      InheritsTransitive(x.fs, y.fs, z.fs);
    }
  }

  /** Until its end a safe operation leaves the ledger alone. */
  lemma SafeKeepsLedger(x: Snap, y: Snap)
    requires Safe(x, true, y)
    ensures y.ledger == x.ledger
  {
  }

  lemma SafeIsOk(x: Snap, y: Snap)
    requires Safe(x, true, y)
    ensures y.Ok()
  {
  }

  // ---- what a caller may rely on -------------------------------------------------------------------------------

  /** Only the end of the last segment that holds events is missing. */
  ghost predicate CutAtTail(x: Snap, y: Snap) {
    && (forall n :: y.Slot(n) <= x.Slot(n))
    && (forall n, m :: n < m && y.Slot(n) != x.Slot(n) ==> x.Slot(m) == [])
  }

  /** An operation that adds nothing: it leaves the log alone and breaks no promise; a crash during it loses
      nothing that was promised, and, unless it undoes an older change, nothing but the end of the log. */
  ghost predicate Outcome(x: Snap, alive: bool, y: Snap) {
    && y.ledger.certified == x.ledger.certified && Inherits(x.fs, y.fs)
    && (forall n :: x.ledger.promised(n) <= y.ledger.promised(n))
    && (x.fs.Clean() ==> if alive then y.Recent() else !y.lost)
    && if alive then y.Ok() && SameLog(x, y) && Preserved(x.fs, y.fs)
       else (forall n :: x.ledger.promised(n) <= y.Slot(n)) && Vouched(y) && (!y.lost ==> y.Ok() && CutAtTail(x, y))
  }

  /** The ledger's record is the log as it stands. */
  ghost predicate Booked(x: Snap) { x.ledger.pruned == {} && forall n :: x.ledger.recorded(n) == x.Slot(n) }

  lemma SafeIsOutcome(x: Snap, alive: bool, y: Snap)
    requires Safe(x, alive, y) && Booked(x) && x.Ok()
    ensures Outcome(x, alive, y)
    ensures alive ==> Booked(y)
  {
    hide At, Synced, World, Preserved, Inherits, Firm;
    if alive { SteadyInherits(x, y); }
    CleanIsRecent(x);
  }

  lemma CleanIsRecent(x: Snap)
    requires x.Ok()
    ensures x.fs.Clean() ==> x.Recent() && x.Calm()
  {
  }

  lemma OutcomeTransitive(x: Snap, y: Snap, alive: bool, z: Snap)
    requires Outcome(x, true, y) && y.Calm() && Outcome(y, alive, z)
    ensures Outcome(x, alive, z)
  {
    hide At, Synced, World, Preserved, Snap.Ok, Inherits;
    InheritsTransitive(x.fs, y.fs, z.fs);
    forall n ensures x.ledger.promised(n) <= z.ledger.promised(n) {
      assert x.ledger.promised(n) <= y.ledger.promised(n) <= z.ledger.promised(n);
    }
    forall n ensures y.Slot(n) == x.Slot(n) {}
    if !alive {
      forall n ensures x.ledger.promised(n) <= z.Slot(n) {
        assert x.ledger.promised(n) <= y.ledger.promised(n) <= z.Slot(n);
      }
    }
    if alive {
      SameLogTransitive(x, y, z);
      PreservedTransitive(x.fs, y.fs, z.fs);
    }
  }

  /** Entering an operation changes only the bookkeeping. */
  ghost predicate Entered(x: Snap, y: Snap) {
    && y.fs == x.fs && y.own == {x.fs.dir} && y.lost == x.lost
    && y.ledger == Ledger(x.ledger.promised, LogOf(x.fs), {}, x.ledger.certified)
  }

  lemma EnterOutcome(x: Snap, y: Snap)
    requires x.Ok() && Entered(x, y)
    ensures Outcome(x, true, y) && Booked(y) && y.Calm() && Safe(y, true, y)
  {
    hide At, Synced, World, Preserved, Inherits, Firm;
    EnterOk(x, y);
    SafeStart(y);
    PreservedDir(x.fs, y.fs);
    SameFilesInherit(x.fs, y.fs);
  }

  // ---- publishing ------------------------------------------------------------------------------------------------

  /** Only the staging entry of `j` is uncertain, over a directory with neither staging nor current. */
  ghost predicate Staged(x: Snap, d: Dir, j: Inode) {
    && x.Ok() && Staging !in d && Current !in d && x.fs.dir == d[Staging := j] && x.own <= {d, x.fs.dir}
    && j in x.fs.files && forall n <- d.Keys :: d[n] != j
  }

  lemma CreateOk(x: Snap, j: Inode, h: Header)
    requires x.Ok() && x.Calm() && Current !in x.fs.dir && Staging !in x.fs.dir
    requires j !in x.fs.files && h.Valid() && Above(h.sequence, x.fs.dir)
    ensures var y := x.(fs := WithFile(x.fs, j, File("", 0))).Changed(Bind(Staging, j));
      Staged(y, x.fs.dir, j) && Steady(x, y)
  {
    hide At, Synced, World, HeaderLine, Above, Complete, Firm, Sealed;
    var d := x.fs.dir;
    CalmWorld(x);
    GoodNames(d, x.fs.files);
    NewInode(d, x.fs.files, j, File("", 0), x.ledger);
    FileStepOk(x, j, File("", 0), x.ledger);
    var z := x.(fs := WithFile(x.fs, j, File("", 0)));
    assert StagedAs(File("", 0), h, d);
    StageStep(d, z.fs.files, j, h, x.ledger);
    FirmStaging(z.fs.worlds, d, z.fs.files, x.ledger.promised, Bind(Staging, j));
    ChangeOk(z, Bind(Staging, j));
    PreservedCreate(x.fs, j);
    CreatedIsBarren(x.fs, j, h);
  }

  lemma CreatedIsBarren(x: Fs, j: Inode, h: Header)
    requires j !in x.files && h.Valid()
    ensures NothingNew(x, ChangeDir(WithFile(x, j, File("", 0)), Bind(Staging, j)))
  {
    hide Barren, LeftOf, HeaderLine;
    HeaderIsBarren(File("", 0), h);
    OneFile(x, j, File("", 0));
  }

  lemma PreservedCreate(x: Fs, j: Inode)
    requires j !in x.files && Staging !in x.dir
    ensures Preserved(x, ChangeDir(WithFile(x, j, File("", 0)), Bind(Staging, j)))
  {
    hide Complete, Sealed;
    var y := ChangeDir(WithFile(x, j, File("", 0)), Bind(Staging, j));
    forall i <- x.files.Keys ensures Complete(x.files[i].data) <= y.files[i].data { CompleteIsPrefix(x.files[i].data); }
  }

  lemma StagedWriteOk(x: Snap, d: Dir, j: Inode, g: File, h: Header)
    requires Staged(x, d, j) && h.Valid() && Above(h.sequence, d) && g.data <= HeaderLine(h) && g.synced <= |g.data|
    requires x.fs.files[j].data <= g.data && x.fs.files[j].synced == 0
    ensures var y := x.(fs := WithFile(x.fs, j, g)); Staged(y, d, j) && Steady(x, y)
  {
    hide At, Synced, World, HeaderLine, Above, Complete, Preserved, Good, Firm, Grown, Whole, Sealed, Barren, NothingNew;
    var y := x.(fs := WithFile(x.fs, j, g));
    CalmWorld(x);
    AboveStaged(h.sequence, d, j);
    assert x.fs.dir[Staging] == j && Writable(x.fs.dir, j);
    StagedWriteStep(x.fs.dir, x.fs.files, g, h, x.ledger);
    if d in x.own { NewInode(d, x.fs.files, j, g, x.ledger); }
    UnsyncedIsNoSegment(x.fs.files[j]);
    FirmFile(x.fs.worlds, x.fs.dir, x.fs.files, x.ledger.promised, j, g);
    PreservedGrowth(x.fs, j, g);
    HeaderIsBarren(g, h);
    OneFile(x.fs, j, g);
  }

  lemma UnsyncedIsNoSegment(f: File)
    requires f.synced == 0
    ensures !Whole(f) && !Sealed(f)
  {
    hide HeaderLine, IsOpen, ParseHeader, ParseTrailerFor, IsEvent, Roomy;
    if Whole(f) {
      FileHasSequence(f);
      HeaderIsLine(HeaderOfData(f.data).value);
    }
    assert f.data == "" ==> SplitLines(f.data).lines == [];
  }

  lemma PublishSteady(x: Snap, d: Dir, j: Inode, h: Header)
    requires Staged(x, d, j) && h.Valid() && Above(h.sequence, d) && x.fs.files[j] == File(HeaderLine(h), |HeaderLine(h)|)
    ensures var y := x.Changed(Publish(j));
      y.Ok() && Steady(x, y) && y.fs.dir == d[Current := j]
  {
    hide At, Synced, World, HeaderLine, Above, Preserved, Firm;
    PublishOk(x, d, j, h);
    PreservedDir(x.fs, ChangeDir(x.fs, Publish(j)));
    SameFilesInherit(x.fs, ChangeDir(x.fs, Publish(j)));
  }

  lemma SyncDirSteady(x: Snap)
    requires x.Ok()
    ensures var y := x.DirSynced(); y.Ok() && y.Calm() && Steady(x, y)
  {
    hide At, Synced, World, Preserved, SameLog, Firm;
    SyncDirOk(x);
    PreservedDir(x.fs, SyncedDir(x.fs));
    SameFilesInherit(x.fs, SyncedDir(x.fs));
  }

  lemma SyncSteady(x: Snap, i: Inode)
    requires x.Ok() && i in x.fs.files
    ensures var y := x.(fs := WithFile(x.fs, i, Flushed(x.fs.files[i])));
      y.Ok() && Steady(x, y)
  {
    hide At, Synced, World, Preserved, SameLog, Firm, IsClosed;
    SyncOk(x, i);
    PreservedGrowth(x.fs, i, Flushed(x.fs.files[i]));
    FlushIsLeftOf(x.fs.files[i]);
    OneFile(x.fs, i, Flushed(x.fs.files[i]));
  }

  /** What `_publish_fresh_current` needs of the directory. */
  ghost predicate ReadyToPublish(x: Snap, sequence: int) {
    x.Ok() && x.Calm() && Current !in x.fs.dir && Staging !in x.fs.dir && Above(sequence, x.fs.dir)
  }

  lemma PublicationIsReady(x: Snap, sequence: int)
    requires ReadyToPublish(x, sequence)
    ensures x.Ok() && x.Calm()
  {
  }

  function HeaderFile(h: Header): File { File(HeaderLine(h), |HeaderLine(h)|) }

  /** The directory after a successful publication: one new inode, holding the synced header line. */
  ghost predicate Published(x: Fs, y: Fs, h: Header) {
    && Current in y.dir && y.worlds == {y.dir}
    && var j := y.dir[Current];
       j !in x.files && y.dir == x.dir[Current := j] - {Staging} && y.files == x.files[j := HeaderFile(h)]
  }

  /** The staging file holds the whole synced header. */
  ghost predicate HeaderStaged(x: Fs, y: Fs, h: Header) {
    && Staging !in x.dir && Staging in y.dir
    && var j := y.dir[Staging];
       && j !in x.files && y.dir == x.dir[Staging := j] && y.files == x.files[j := HeaderFile(h)]
       && y.worlds == Spread(Bind(Staging, j), x.worlds)
  }

  lemma StagedSafe(x: Snap, y: Snap, z: Snap, d: Dir, j: Inode)
    requires Safe(x, true, y) && Staged(z, d, j) && Steady(y, z)
    ensures Safe(x, true, z)
  {
    hide Steady, Safe;
    SafeStep(x, y, z);
  }

  /** Writes the header to the staged file and syncs it, whatever was written. */
  method WriteStaged(disk: Disk, header: Header, j: Inode, ghost x: Snap, ghost d: Dir, ghost ready: bool)
    returns (ok: bool)
    requires header.Valid() && j in disk.s.files && disk.s.files[j] == File("", 0)
    requires ready ==> disk.alive && Safe(x, true, disk.Now()) && Staged(disk.Now(), d, j) && Above(header.sequence, d)
    modifies disk
    ensures ready ==> Safe(x, disk.alive, disk.Now()) && (ok ==> Staged(disk.Now(), d, j))
    ensures ok ==> disk.alive && disk.s == WithFile(old(disk.s), j, HeaderFile(header))
    ensures disk.faults >= old(disk.faults)
    ensures disk.alive && disk.faults == old(disk.faults) ==> ok
  {
    hide At, Synced, World, HeaderLine, Above, Halted, OpenFile, ClosedFile, Safe, Staged, Steady;
    ghost var x1 := disk.Now();
    var line := HeaderLine(header);
    var written := disk.Write(j, line);
    if written.None? {
      if ready { SafeRefusal(x, x1, disk.alive, disk.Now()); }
      return false;
    }
    ghost var x2 := disk.Now();
    if ready {
      StagedWriteOk(x1, d, j, Extended(File("", 0), line[..written.value]), header);
      StagedSafe(x, x1, x2, d, j);
    }
    ok := disk.Fsync(j);
    if !ok {
      if ready { SafeRefusal(x, x2, disk.alive, disk.Now()); }
      return;
    }
    if ready {
      StagedWriteOk(x2, d, j, Flushed(x2.fs.files[j]), header);
      StagedSafe(x, x2, disk.Now(), d, j);
    }
    ok := written.value == |line|;
    if ok {
      assert line[..|line|] == line && "" + line == line;
      assert disk.s.files == x1.fs.files[j := HeaderFile(header)];
    }
  }

  /** Creates, writes and syncs the staging file; a short write is synced but never published. */
  method StageHeader(disk: Disk, header: Header) returns (ok: bool)
    requires header.Valid()
    modifies disk
    ensures ok ==> disk.alive && HeaderStaged(old(disk.s), disk.s, header)
    ensures old(disk.alive && ReadyToPublish(disk.Now(), header.sequence)) ==>
      && Safe(old(disk.Now()), disk.alive, disk.Now())
      && (ok ==> Staged(disk.Now(), old(disk.s.dir), disk.s.dir[Staging]))
    ensures disk.faults >= old(disk.faults)
    ensures disk.alive && disk.faults == old(disk.faults) && Staging !in old(disk.s.dir) ==> ok
  {
    hide At, Synced, World, HeaderLine, Above, Halted, OpenFile, ClosedFile, Safe, Staged, Steady;
    ghost var x := disk.Now();
    ghost var d := x.fs.dir;
    ghost var ready := disk.alive && ReadyToPublish(x, header.sequence);
    if ready { SafeStart(x); }
    var created := disk.CreateStaging();
    if created.None? {
      if ready { SafeRefusal(x, x, disk.alive, disk.Now()); }
      return false;
    }
    var j := created.value;
    ghost var x1 := disk.Now();
    if ready {
      CreateOk(x, j, header);
      StagedSafe(x, x, x1, d, j);
    }
    ok := WriteStaged(disk, header, j, x, d, ready);
  }

  /** The staged header becomes the active segment, durably. */
  method PublishStaged(disk: Disk, header: Header, ghost x: Snap, ghost ready: bool) returns (ok: bool)
    requires header.Valid() && HeaderStaged(x.fs, disk.s, header)
    requires ready ==>
      && disk.alive && Safe(x, true, disk.Now()) && Staged(disk.Now(), x.fs.dir, disk.s.dir[Staging])
      && Above(header.sequence, x.fs.dir)
    modifies disk
    ensures ok ==> disk.alive && Published(x.fs, disk.s, header)
    ensures ready ==> Safe(x, disk.alive, disk.Now()) && (ok ==> disk.Now().Calm())
    ensures disk.faults >= old(disk.faults)
    ensures disk.alive && disk.faults == old(disk.faults) ==> ok
  {
    hide At, Synced, World, HeaderLine, Above, Halted, OpenFile, ClosedFile, Safe, Staged, Steady, IsClosed, HeaderOfData;
    hide NothingNew;
    ghost var y := disk.Now();
    ok := disk.PublishStaging();
    if !ok {
      if ready { SafeRefusal(x, y, disk.alive, disk.Now()); }
      return;
    }
    ghost var z := disk.Now();
    if ready {
      PublishSteady(y, x.fs.dir, y.fs.dir[Staging], header);
      SafeStep(x, y, z);
    }
    ok := disk.FsyncDir();
    if !ok {
      if ready { SafeRefusal(x, z, disk.alive, disk.Now()); }
      return;
    }
    if ready {
      SafeIsOk(x, z);
      SyncDirSteady(z);
      SafeStep(x, z, disk.Now());
    }
  }

  /** `_publish_fresh_current`. */
  method PublishFreshCurrent(disk: Disk, sequence: int, openedAt: Instant, retentionDays: int)
    returns (r: Result<Header, Code>)
    requires 1 <= sequence && InRange(openedAt) && 1 <= retentionDays <= MAX_LOG_RETENTION_DAYS
    modifies disk
    ensures r.Failure? ==> r.error == OVERFLOW || r.error == ROTATE
    ensures r.Success? ==>
      && disk.alive && r.value == Header(sequence, openedAt, retentionDays) && r.value.Valid()
      && Published(old(disk.s), disk.s, r.value)
    ensures old(disk.alive && ReadyToPublish(disk.Now(), sequence)) ==>
      && Safe(old(disk.Now()), disk.alive, disk.Now()) && (r.Success? ==> disk.Now().Calm())
    ensures disk.faults >= old(disk.faults)
    ensures disk.alive && disk.faults == old(disk.faults) && Staging !in old(disk.s.dir) ==>
      if sequence <= MAX_CANONICAL_INT then r.Success? else r == Failure(OVERFLOW)
  {
    hide At, Synced, World, HeaderLine, Above, Halted, OpenFile, ClosedFile, Safe, Staged, Steady, MAX_CANONICAL_INT;
    ghost var x := disk.Now();
    ghost var ready := disk.alive && ReadyToPublish(x, sequence);
    if ready { SafeStart(x); }
    if sequence > MAX_CANONICAL_INT {
      return Failure(OVERFLOW);
    }
    var header := Header(sequence, openedAt, retentionDays);
    var staged := StageHeader(disk, header);
    if !staged {
      return Failure(ROTATE);
    }
    var ok := PublishStaged(disk, header, x, ready);
    r := if ok then Success(header) else Failure(ROTATE);
  }

  // ---- completing a rotation -----------------------------------------------------------------------------------------

  /** The active segment is closed under sequence `q`, and no less durable than the ledger claims of rotations. */
  ghost predicate ReadyToRotate(x: Snap, q: int) {
    && x.Ok() && x.Calm() && Current in x.fs.dir && x.fs.dir[Current] in x.fs.files
    && var f := x.fs.files[x.fs.dir[Current]];
       && ClosedFile(f) && SequenceOf(f) == Some(q)
       && (x.ledger.certified ==> f.synced == |f.data|)
  }

  /** The active segment also has its rotated name. */
  ghost predicate Named(x: Snap, q: int) {
    && x.Ok() && Current in x.fs.dir && x.fs.dir[Current] in x.fs.files
    && SequenceOf(x.fs.files[x.fs.dir[Current]]) == Some(q) && Rotated(q) in x.fs.dir
  }

  lemma LinkOk(x: Snap, q: int)
    requires ReadyToRotate(x, q) && Rotated(q) !in x.fs.dir
    ensures var y := x.Changed(Bind(Rotated(q), x.fs.dir[Current]));
      Named(y, q) && Steady(x, y)
  {
    hide At, Synced, World, ClosedFile, SequenceOf, Preserved, Good, Firm;
    CalmWorld(x);
    LinkStep(x.fs.dir, x.fs.files, x.ledger);
    var op := Bind(Rotated(q), x.fs.dir[Current]);
    FirmLink(x.fs.worlds, x.fs.dir, x.fs.files, x.ledger.promised, q);
    ChangeOk(x, op);
    PreservedDir(x.fs, ChangeDir(x.fs, op));
    SameFilesInherit(x.fs, ChangeDir(x.fs, op));
  }

  lemma RetireOk(x: Snap, q: int)
    requires Named(x, q) && x.Calm() && x.fs.worlds == {x.fs.dir}
    ensures var y := x.Changed(Drop(Current));
      y.Ok() && Steady(x, y)
  {
    hide At, Synced, World, ClosedFile, SequenceOf, Preserved, Good, Firm;
    CalmWorld(x);
    TwinIsBound(x, q);
    RetireStep(x.fs.dir, x.fs.files, x.ledger);
    FirmRetire(x.fs.dir, x.fs.files, x.ledger.promised, q);
    ChangeOk(x, Drop(Current));
    PreservedDir(x.fs, ChangeDir(x.fs, Drop(Current)));
    SameFilesInherit(x.fs, ChangeDir(x.fs, Drop(Current)));
  }

  lemma TwinIsBound(x: Snap, q: int)
    requires Named(x, q)
    ensures x.fs.dir[Rotated(q)] == x.fs.dir[Current]
  {
    hide OpenFile, ClosedFile, SequenceOf, EventsDurable, Firm, At, Synced, StagingOk, RotatedOk, Rotations;
    CalmWorld(x);
    assert CurrentOk(x.fs.dir, x.fs.files);
  }

  lemma NamedSynced(x: Snap, q: int)
    requires Named(x, q)
    ensures var y := x.DirSynced(); Named(y, q) && y.Calm() && Steady(x, y)
  {
    hide At, Synced, World, SequenceOf, Steady;
    SyncDirSteady(x);
  }

  /** An operation that got as far as `m` may leave the host so: there, or crashed there. */
  ghost predicate Stops(m: Snap, alive: bool, y: Snap) { if alive then y == m else Halted(m, y) }

  /** The snapshots on the way from a twin under both names to the rotated name alone. */
  ghost predicate Retiring(x: Snap, m: Snap) {
    || m == x || m == x.DirSynced() || m == x.DirSynced().Changed(Drop(Current))
    || m == x.DirSynced().Changed(Drop(Current)).DirSynced()
  }

  /** The rotated name is made durable before the current name is removed, durably too. */
  method RetireCurrent(disk: Disk, ghost q: int) returns (ok: bool)
    modifies disk
    ensures old(disk.alive) ==> exists m :: Retiring(old(disk.Now()), m) && Stops(m, disk.alive, disk.Now())
    ensures old(disk.alive && Named(disk.Now(), q)) ==>
      Safe(old(disk.Now()), disk.alive, disk.Now()) && (ok ==> disk.Now().Calm())
    ensures ok ==> disk.alive && disk.s == SyncedDir(ChangeDir(old(disk.s), Drop(Current)))
    ensures disk.faults >= old(disk.faults) && (ok ==> disk.faults == old(disk.faults))
    ensures disk.alive && disk.faults == old(disk.faults) ==> (ok <==> Current in old(disk.s.dir))
  {
    hide At, Synced, World, Halted, Safe, Named, Steady;
    ghost var x := disk.Now();
    ghost var up := disk.alive;
    ghost var ready := disk.alive && Named(x, q);
    if ready { SafeNamed(x, q); }
    ok := disk.FsyncDir();
    if !ok {
      assert up ==> Retiring(x, x) && Stops(x, disk.alive, disk.Now());
      if ready { SafeRefusal(x, x, disk.alive, disk.Now()); }
      return;
    }
    ghost var x1 := disk.Now();
    if ready {
      NamedSynced(x, q);
      NamedIsOk(x1, q);
      SafeStep(x, x, x1);
    }
    ok := disk.Unlink(Current);
    if !ok {
      assert Retiring(x, x1) && Stops(x1, disk.alive, disk.Now());
      if ready { SafeRefusal(x, x1, disk.alive, disk.Now()); }
      return;
    }
    ghost var x2 := disk.Now();
    if ready {
      RetireOk(x1, q);
      SafeStep(x, x1, x2);
    }
    ok := disk.FsyncDir();
    if !ok {
      assert Retiring(x, x2) && Stops(x2, disk.alive, disk.Now());
      if ready { SafeRefusal(x, x2, disk.alive, disk.Now()); }
      return;
    }
    assert Retiring(x, disk.Now()) && Stops(disk.Now(), disk.alive, disk.Now());
    if ready {
      SafeIsOk(x, x2);
      SyncDirSteady(x2);
      SafeStep(x, x2, disk.Now());
    }
  }

  lemma SafeNamed(x: Snap, q: int)
    requires Named(x, q)
    ensures Safe(x, true, x)
  {
    hide Safe;
    SafeStart(x);
  }

  lemma NamedIsOk(x: Snap, q: int)
    requires Named(x, q)
    ensures x.Ok()
  {
  }

  /** The snapshots on the way from an active segment to its rotated name `q` alone. */
  ghost predicate Rotating(x: Snap, q: int, m: Snap) {
    || m == x
    || (Current in x.fs.dir && Rotated(q) !in x.fs.dir && Retiring(x.Changed(Bind(Rotated(q), x.fs.dir[Current])), m))
    || (Current in x.fs.dir && Rotated(q) in x.fs.dir && x.fs.dir[Rotated(q)] == x.fs.dir[Current] && Retiring(x, m))
  }

  /** Links the active segment to its rotated name, never replacing an occupant, and retires the current name. */
  method LinkAndRetire(disk: Disk, q: int) returns (ok: bool, blocked: bool)
    modifies disk
    ensures old(disk.alive) ==> exists m :: Rotating(old(disk.Now()), q, m) && Stops(m, disk.alive, disk.Now())
    ensures old(disk.alive && ReadyToRotate(disk.Now(), q)) ==>
      Safe(old(disk.Now()), disk.alive, disk.Now()) && (ok ==> disk.Now().Calm())
    ensures ok ==> disk.alive && Rotated(q) !in old(disk.s.dir) && Current in old(disk.s.dir) && Rotation(old(disk.s), disk.s, q)
    ensures blocked ==> !ok && disk.alive && disk.Now() == old(disk.Now()) && Rotated(q) in disk.s.dir
    ensures disk.faults >= old(disk.faults) && (ok ==> disk.faults == old(disk.faults))
    ensures disk.alive && disk.faults == old(disk.faults) ==>
      (ok <==> Current in old(disk.s.dir) && Rotated(q) !in old(disk.s.dir))
  {
    hide At, Synced, World, Halted, Safe, Named, Steady, ClosedFile, SequenceOf, Retiring;
    ghost var x := disk.Now();
    ghost var up := disk.alive;
    ghost var ready := disk.alive && ReadyToRotate(x, q);
    if ready { SafeStart(x); }
    ok, blocked := disk.LinkRotated(q);
    if !ok {
      assert up ==> Rotating(x, q, x) && Stops(x, disk.alive, disk.Now());
      if ready { SafeRefusal(x, x, disk.alive, disk.Now()); }
      return;
    }
    ghost var x1 := disk.Now();
    if ready {
      LinkOk(x, q);
      NamedIsOk(x1, q);
      SafeStep(x, x, x1);
    }
    ok := RetireCurrent(disk, q);
    ghost var m :| Retiring(x1, m) && Stops(m, disk.alive, disk.Now());
    assert Rotating(x, q, m);
    if ready { SafeAfter(x, x1, disk.alive, disk.Now()); }
  }

  /** What a sub-operation does safely, the operation does safely. */
  lemma SafeAfter(x: Snap, y: Snap, alive: bool, z: Snap)
    requires Safe(x, true, y) && Safe(y, alive, z)
    ensures Safe(x, alive, z)
  {
    hide Steady, Snap.Ok, At, Synced, Inherits;
    if alive {
      SafeStep(x, y, z);
    } else {
      SafeKeepsLedger(x, y);
      SafeSeals(x, y);
      InheritsTransitive(x.fs, y.fs, z.fs);
    }
  }

  lemma SafeSeals(x: Snap, y: Snap)
    requires Safe(x, true, y)
    ensures Inherits(x.fs, y.fs) && (x.Recent() ==> y.Recent())
  {
    hide SameLog, Snap.Ok;
  }

  /** The directory after a completed rotation. */
  ghost predicate Rotation(x: Fs, y: Fs, q: int) {
    && Current in x.dir && y.files == x.files && y.worlds == {y.dir}
    && y.dir == x.dir[Rotated(q) := x.dir[Current]] - {Current}
  }

  /** `_complete_rotation`: with two links the second name must be this inode's rotated twin; with one, the name
      must be free. */
  method CompleteRotation(disk: Disk, q: int, inode: Inode, links: nat) returns (r: Option<Code>)
    modifies disk
    ensures old(disk.alive && Current in disk.s.dir && disk.s.dir[Current] == inode) ==>
      exists m :: Rotating(old(disk.Now()), q, m) && Stops(m, disk.alive, disk.Now())
    ensures old(disk.alive && ReadyToRotate(disk.Now(), q) && disk.s.dir[Current] == inode) ==>
      Safe(old(disk.Now()), disk.alive, disk.Now()) && (r.None? ==> disk.Now().Calm())
    ensures r.None? ==> disk.alive && (old(Current in disk.s.dir && disk.s.dir[Current] == inode) ==> Rotation(old(disk.s), disk.s, q))
    ensures r.Some? ==> r.value == RECOVER
    ensures disk.faults >= old(disk.faults) && (r.None? ==> disk.faults == old(disk.faults))
    ensures disk.alive && disk.faults == old(disk.faults) && old(Current in disk.s.dir && inode in disk.s.files) ==>
      (r.None? <==> if links == 2 then old(Rotated(q) in disk.s.dir && disk.s.dir[Rotated(q)] == inode)
                    else Rotated(q) !in old(disk.s.dir))
  {
    hide At, Synced, World, Halted, Safe, Named, Steady, ClosedFile, SequenceOf, Retiring, OpenFile, Firm;
    ghost var x := disk.Now();
    ghost var up := disk.alive;
    ghost var ready := disk.alive && ReadyToRotate(x, q) && disk.s.dir[Current] == inode;
    if ready { SafeStart(x); }
    if links != 2 {
      var ok, blocked := LinkAndRetire(disk, q);
      return if ok then None else Some(RECOVER);
    }
    var twin := disk.StatName(Rotated(q));
    if !twin.Found? || twin.inode != inode {
      assert up ==> Rotating(x, q, x) && Stops(x, disk.alive, disk.Now());
      if ready { SafeRefusal(x, x, disk.alive, disk.Now()); }
      return Some(RECOVER);
    }
    if ready { TwinIsNamed(x, q); }
    var ok := RetireCurrent(disk, q);
    ghost var m :| Retiring(x, m) && Stops(m, disk.alive, disk.Now());
    assert Current in x.fs.dir && x.fs.dir[Current] == inode ==> Rotating(x, q, m);
    r := if ok then None else Some(RECOVER);
    assert ok && Current in x.fs.dir && x.fs.dir[Current] == inode ==>
      x.fs.dir[Rotated(q) := inode] == x.fs.dir;
  }

  lemma TwinIsNamed(x: Snap, q: int)
    requires ReadyToRotate(x, q) && Rotated(q) in x.fs.dir
    ensures Named(x, q)
  {
  }
}

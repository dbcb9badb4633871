/** The append surface of the structured log: open, append, rotate, flush, close. */
module LogStore {
  import opened Common
  import opened Largest
  import opened Clock
  import opened Canonical
  import opened LogWire
  import opened LogEvents
  import opened LogEventTheorems
  import opened LogSegments
  import opened LogDisk
  import opened LogSteps
  import opened LogVersions
  import opened LogFilesystem
  import opened LogKernel
  import opened LogPublish
  import opened LogWrites
  import opened LogTally

  /** The active segment is the store's, and holds exactly what the store has digested. */
  ghost predicate Coherent(s: Fs, i: Inode, size: nat) {
    && Current in s.dir && s.dir[Current] == i && i in s.files
    && Links(s.dir, i) == 1 && |s.files[i].data| == size
  }

  /** Every event in the log is promised. */
  ghost predicate AllPromised(x: Snap) { forall n :: x.ledger.promised(n) == x.Slot(n) }

  ghost function Promising(x: Snap): Snap { x.(ledger := x.ledger.(promised := LogOf(x.fs))) }

  /** Once the active segment and the directory are synced, everything in the log may be promised. */
  lemma PromiseAll(x: Snap)
    requires x.Ok() && x.Calm() && x.fs.worlds == {x.fs.dir}
    requires Current in x.fs.dir && x.fs.dir[Current] in x.fs.files ==>
      x.fs.files[x.fs.dir[Current]].synced == |x.fs.files[x.fs.dir[Current]].data|
    ensures Promising(x).Ok() && Promising(x).Calm() && AllPromised(Promising(x))
    ensures forall n :: x.ledger.promised(n) <= Promising(x).ledger.promised(n)
  {
    hide Good, At, Synced, Certified, Firm;
    CalmWorld(x);
    GoodNames(x.fs.dir, x.fs.files);
    SyncedLogIsWhole(x.fs.dir, x.fs.files);
    var y := Promising(x);
    forall n
      ensures Records(x.fs.dir, x.fs.files, y.ledger, n) && y.ledger.promised(n) <= At(x.fs.dir, Synced(x.fs.files), n)
      ensures x.ledger.promised(n) <= y.ledger.promised(n)
    {
      assert Records(x.fs.dir, x.fs.files, x.ledger, n);
      assert x.ledger.promised(n) <= At(x.fs.dir, Synced(x.fs.files), n);
    }
    assert World(x.fs.dir, x.fs.files, y.ledger);
    FirmPromise(x.fs.worlds, x.fs.dir, x.fs.files, x.ledger.promised, y.ledger.promised);
  }

  class StructuredLogStore {
    const disk: Disk
    const retentionDays: int
    var closed: bool
    var descriptor: Inode
    var tally: Tally

    /** What an open store believes: its descriptor's file begins with the bytes it has digested. */
    ghost predicate Believes(files: Files)
      reads this
    {
      && 1 <= retentionDays <= MAX_LOG_RETENTION_DAYS
      && tally.Exact() && descriptor in files && tally.digested <= files[descriptor].data
    }

    ghost predicate Valid()
      reads this, disk
    {
      disk.alive && !closed ==> Believes(disk.s.files)
    }

    /** A handle that has not opened the log yet. */
    constructor (disk: Disk, retentionDays: int)
      ensures this.disk == disk && this.retentionDays == retentionDays && closed
    {
      this.disk, this.retentionDays, closed, descriptor := disk, retentionDays, true, 0;
      tally := Tally(Header(0, 0, 0), 0, None, "");
    }

    /** The store owns the active segment, which is whole. */
    ghost predicate Ready()
      reads this, disk
    {
      && disk.alive && 1 <= retentionDays <= MAX_LOG_RETENTION_DAYS && tally.Exact()
      && Active(disk.Now(), descriptor, tally.digested) && Booked(disk.Now())
    }

    /** `_open_for_append_at`. */
    method OpenForAppend() returns (r: Option<Code>)
      modifies this`descriptor, disk
      ensures r.Some? ==> r.value in {OPEN, FILE}
      ensures disk.NoEffect()
      ensures r.None? ==>
        && disk.alive && Current in disk.s.dir && disk.s.dir[Current] == descriptor && descriptor in disk.s.files
        && Links(disk.s.dir, descriptor) == 1 && disk.faults == old(disk.faults)
      ensures
        && disk.alive && disk.faults == old(disk.faults) && Current in disk.s.dir && disk.s.dir[Current] in disk.s.files
        && Links(disk.s.dir, disk.s.dir[Current]) == 1
        ==> r.None?
    {
      var named := disk.StatName(Current);
      if !named.Found? {
        return Some(OPEN);
      }
      if named.links != 1 {
        return Some(FILE);
      }
      descriptor := named.inode;
      r := None;
    }

    /** `_start_segment`. */
    method StartSegment(sequence: int, openedAt: Instant) returns (r: Option<Code>)
      requires disk.alive && 1 <= sequence && InRange(openedAt) && 1 <= retentionDays <= MAX_LOG_RETENTION_DAYS
      requires WellFormed(disk.s) && Staging !in disk.s.dir
      modifies this, disk
      ensures closed == old(closed) && disk.faults >= old(disk.faults)
      ensures r.None? ==>
        && disk.alive && tally == FreshTally(Header(sequence, openedAt, retentionDays)) && tally.Exact()
        && Coherent(disk.s, descriptor, |tally.digested|) && disk.s.files[descriptor].data == tally.digested
        && AllSynced(disk.s, descriptor) && disk.s.dir == old(disk.s.dir)[Current := descriptor]
        && descriptor !in old(disk.s.files)
        && disk.s.files == old(disk.s.files)[descriptor := disk.s.files[descriptor]] && disk.s.worlds == {disk.s.dir}
      ensures old(ReadyToPublish(disk.Now(), sequence) && Booked(disk.Now())) ==>
        Outcome(old(disk.Now()), disk.alive, disk.Now()) && (r.None? ==> Ready())
      ensures r.Some? ==> r.value in {OVERFLOW, ROTATE, OPEN, FILE}
      ensures disk.alive && disk.faults == old(disk.faults) ==>
        if sequence <= MAX_CANONICAL_INT then r.None? else r == Some(OVERFLOW)
    {
      hide Snap.Ok, Good, World, Halted, At, Synced, HeaderLine, Active, Booked, Safe, Outcome, MAX_CANONICAL_INT, IsOpen;
      hide HeaderOfData, ReadyToPublish, IsClosed, EventLine, ValidateEventLine, Inherits, Tally.Exact;
      ghost var x := disk.Now();
      ghost var ready := ReadyToPublish(x, sequence) && Booked(x);
      var published := PublishFreshCurrent(disk, sequence, openedAt, retentionDays);
      ghost var y := disk.Now();
      if ready {
        PublicationIsReady(x, sequence);
        SafeIsOutcome(x, disk.alive, y);
      }
      if published.Failure? {
        return Some(published.error);
      }
      var header := published.value;
      tally := FreshTally(header);
      FreshIsExact(header);
      PublishedIsCoherent(x.fs, y.fs, header);
      if ready {
        SafeIsOk(x, y);
        CoherentIsActive(y, y.fs.dir[Current], tally);
      }
      r := OpenForAppend();
      if ready { OutcomeThenNoEffect(x, y, disk.alive, disk.Now()); }
    }

    /** The first half of `_rotate_locked`: close the active segment and move it to its rotated name. */
    method CloseAndRetire(closedAt: Instant) returns (r: Option<Code>)
      requires Ready() && InRange(closedAt)
      modifies disk
      ensures Outcome(old(disk.Now()), disk.alive, disk.Now())
      ensures r.None? ==>
        && disk.alive && ReadyToPublish(disk.Now(), tally.header.sequence + 1) && Booked(disk.Now())
        && CertifiedCopy(disk.s, descriptor, tally, closedAt)
        && Moved(old(disk.s), disk.s, descriptor, tally.header.sequence)
      ensures r.Some? ==> r.value in {UNCODED, ROTATIONS, RETENTION, ROTATE}
      ensures disk.alive && r == Some(UNCODED) ==> disk.Now() == old(disk.Now())
      ensures disk.faults >= old(disk.faults)
      ensures disk.alive && disk.faults == old(disk.faults) ==> (r.None? <==> MayRotate(old(disk.s), tally))
    {
      hide Snap.Ok, Good, World, Halted, At, Synced, HeaderLine, Active, Booked, Safe, Outcome, Tally.Exact, Closable;
      hide ReadyToRotate, ReadyToPublish, CertifiedCopy, Rotations, TrailerLine, EventLine, IsEvent;
      ghost var x := disk.Now();
      ReadyFacts(x, descriptor, tally);
      var rotated := disk.ScanRotated();
      if rotated.None? {
        OutcomeThenNoEffect(x, x, disk.alive, disk.Now());
        return Some(UNCODED);
      }
      if |rotated.value| >= MAX_ROTATIONS {
        return Some(ROTATIONS);
      }
      var trailer := TallyTrailer(tally, closedAt);
      if trailer.None? {
        return Some(RETENTION);
      }
      ReadyToClose(x, descriptor, tally, closedAt);
      var t := trailer.value;
      var ok := CloseSegment(disk, descriptor, t, tally.digested);
      SafeIsOutcome(x, disk.alive, disk.Now());
      if !ok {
        return Some(ROTATE);
      }
      ghost var y := disk.Now();
      ReadyIsOk(y, t.sequence);
      var linked, blocked := LinkAndRetire(disk, t.sequence);
      SafeIsOutcome(y, disk.alive, disk.Now());
      OutcomeTransitive(x, y, disk.alive, disk.Now());
      if !linked {
        return Some(ROTATE);
      }
      SafeIsOk(y, disk.Now());
      AfterRotation(x, y, disk.Now(), descriptor, tally, t, closedAt);
      r := None;
    }

    /** `_rotate_locked`: afterwards the old segment is certified under its rotated name, everything in the log is
        promised, and the store owns a fresh successor. */
    method RotateLocked(closedAt: Instant) returns (r: Option<Code>)
      requires Ready() && InRange(closedAt)
      modifies this, disk
      ensures Outcome(old(disk.Now()), disk.alive, disk.Now()) && closed == old(closed)
      ensures r.None? ==>
        && Ready() && tally == FreshTally(Header(old(tally).header.sequence + 1, closedAt, retentionDays))
        && AllPromised(disk.Now()) && Rotated(old(tally).header.sequence) in disk.s.dir
        && disk.s.dir[Rotated(old(tally).header.sequence)] == old(descriptor) && descriptor != old(descriptor)
        && CertifiedCopy(disk.s, old(descriptor), old(tally), closedAt)
      ensures r.Some? ==> r.value in {UNCODED, ROTATIONS, RETENTION, ROTATE, OVERFLOW, OPEN, FILE}
      ensures disk.alive && r == Some(UNCODED) ==>
        disk.Now() == old(disk.Now()) && tally == old(tally) && descriptor == old(descriptor)
      ensures disk.faults >= old(disk.faults)
      ensures disk.alive && disk.faults == old(disk.faults) ==>
        (r.None? <==> MayRotate(old(disk.s), old(tally)) && old(tally).header.sequence < MAX_CANONICAL_INT)
    {
      hide Snap.Ok, Good, World, Halted, At, Synced, HeaderLine, Active, Booked, Safe, Outcome, Tally.Exact;
      hide ReadyToPublish, CertifiedCopy, MAX_CANONICAL_INT, MayRotate, AllPromised, EventLine, IsEvent, Coherent;
      ghost var x := disk.Now();
      ghost var t := tally;
      TallyFacts(t);
      r := CloseAndRetire(closedAt);
      if r.Some? {
        return;
      }
      ghost var y := disk.Now();
      ReadyDirectory(y, t.header.sequence + 1);
      PublicationIsReady(y, t.header.sequence + 1);
      r := StartSegment(tally.header.sequence + 1, closedAt);
      OutcomeTransitive(x, y, disk.alive, disk.Now());
      if r.Some? {
        return;
      }
      IsCertified(y.fs, old(descriptor), t, closedAt);
      KeepsCertified(y.fs, disk.s, old(descriptor), t, closedAt);
      ghost var z := disk.Now();
      disk.ledger := Promising(z).ledger;
      AllPromisedReady(x, z, descriptor, tally);
    }

    /** `_require_coherent`: the cached descriptor still is the whole of the active segment, under one name. */
    method RequireCoherent() returns (ok: bool)
      requires descriptor in disk.s.files
      modifies disk
      ensures disk.NoEffect()
      ensures ok ==> disk.alive && disk.faults == old(disk.faults) && Coherent(disk.s, descriptor, |tally.digested|)
      ensures disk.alive && disk.faults == old(disk.faults) ==> (ok <==> Coherent(disk.s, descriptor, |tally.digested|))
    {
      hide Halted;
      var cached := disk.StatFile(descriptor);
      if !cached.Found? {
        return false;
      }
      var named := disk.StatName(Current);
      ok := named.Found? && named.inode == descriptor && cached.links == 1 && cached.size == |tally.digested|;
    }

    /** `_rotation_due`. */
    predicate RotationDue(lineLength: nat, eventAt: Instant)
      reads this
    {
      || |tally.digested| + lineLength + MAX_TRAILER_LINE_BYTES > MAX_SEGMENT_BYTES
      || Date(eventAt) != Date(tally.header.openedAt)
      || tally.header.retentionDays != retentionDays
    }

    /** `_write_line`. */
    method WriteLine(line: string, eventAt: Instant) returns (r: Option<Code>)
      requires Ready() && ValidateEventLine(line) == Some(eventAt) && Date(eventAt) == Date(tally.header.openedAt)
      requires |tally.digested| + |line| + MAX_TRAILER_LINE_BYTES <= MAX_SEGMENT_BYTES
      modifies this`tally, disk
      ensures r.None? ==>
        && Ready() && tally == Counted(old(tally), line, eventAt)
        && Logged(old(disk.Now()), disk.Now(), tally.header.sequence, line)
        && disk.Now().ledger.promised == old(disk.Now()).ledger.promised
        && disk.s == WithFile(old(disk.s), descriptor, Extended(old(disk.s.files[descriptor]), line))
      ensures r.Some? ==> r == Some(APPEND) && Outcome(old(disk.Now()), disk.alive, disk.Now())
      ensures disk.faults >= old(disk.faults)
      ensures disk.alive && disk.faults == old(disk.faults) ==> r.None?
    {
      hide Snap.Ok, Good, World, Halted, At, Synced, Active, Booked, Safe, Outcome, Tally.Exact, Logged;
      hide ValidateEventLine, LogOf;
      ghost var x := disk.Now();
      ReadyFacts(x, descriptor, tally);
      var written := disk.Write(descriptor, line);
      if written.None? {
        OutcomeThenNoEffect(x, x, disk.alive, disk.Now());
        return Some(APPEND);
      }
      if written.value != |line| {
        TornOutcome(x, descriptor, tally, line, eventAt, written.value);
        return Some(APPEND);
      }
      assert line[..|line|] == line;
      disk.ledger := WithRecorded(disk.ledger, tally.header.sequence, Events(tally.digested) + [line]);
      WrittenOutcome(x, descriptor, tally, line, eventAt);
      tally := Counted(tally, line, eventAt);
      r := None;
    }

    /** `append`: one more event at the very end of the log, or the log as it was. */
    method Append(e: Event) returns (r: Option<Code>)
      requires disk.alive && disk.Now().Ok() && Valid() && e.Valid()
      modifies this, disk
      ensures Valid() && disk.faults >= old(disk.faults)
      ensures r.None? ==>
        && disk.alive && !closed && Ready() && !old(closed) && old(Coherent(disk.s, descriptor, |tally.digested|))
        && Logged(old(disk.Now()), disk.Now(), tally.header.sequence, EventLine(e))
        && !RotationDue(0, e.ts)
        && if old(RotationDue(|EventLine(e)|, e.ts))
           then
             && tally == Counted(FreshTally(Header(old(tally).header.sequence + 1, e.ts, retentionDays)), EventLine(e), e.ts)
             && CertifiedCopy(disk.s, old(descriptor), old(tally), e.ts)
             && forall n :: disk.Now().ledger.promised(n) == old(disk.Now()).Slot(n)
           else
             && tally == Counted(old(tally), EventLine(e), e.ts) && descriptor == old(descriptor)
             && disk.Now().ledger.promised == old(disk.Now()).ledger.promised
             && disk.s == WithFile(old(disk.s), descriptor, Extended(old(disk.s.files[descriptor]), EventLine(e)))
      ensures r.None? ==>
        && e.ts / 86_400_000 == tally.header.openedAt / 86_400_000 && tally.header.retentionDays == retentionDays
        && (descriptor == old(descriptor) <==>
              && |old(tally).digested| + |EventLine(e)| + 1_024 <= 8_388_608
              && e.ts / 86_400_000 == old(tally).header.openedAt / 86_400_000
              && old(tally).header.retentionDays == retentionDays)
      ensures r.Some? ==> Outcome(old(disk.Now()), disk.alive, disk.Now())
      ensures r.Some? && disk.alive ==> (closed <==> old(closed) || r.value !in {LOCK, EVENT, UNCODED})
      ensures disk.alive && disk.faults == old(disk.faults) ==>
        (r.None? <==>
          && !old(closed) && |EventLine(e)| <= MAX_EVENT_LINE_BYTES && old(Coherent(disk.s, descriptor, |tally.digested|))
          && (old(RotationDue(|EventLine(e)|, e.ts)) ==>
                old(MayRotate(disk.s, tally)) && old(tally).header.sequence < MAX_CANONICAL_INT))
    {
      hide Snap.Ok, Good, World, Halted, At, Synced, Active, Booked, Safe, Outcome, Tally.Exact, Logged, MayRotate;
      hide ValidateEventLine, LogOf, EventLine, AllPromised, CertifiedCopy, HeaderLine;
      ghost var x := disk.Now();
      OutcomeReflexive(x);
      if closed {
        return Some(CLOSED);
      }
      var line := EventLine(e);
      if |line| > MAX_EVENT_LINE_BYTES {
        return Some(EVENT);
      }
      disk.Enter();
      ghost var x0 := disk.Now();
      EnterOutcome(x, x0);
      var locked := disk.Lock();
      if !locked {
        OutcomeThenNoEffect(x, x0, disk.alive, disk.Now());
        return Some(LOCK);
      }
      var coherent := RequireCoherent();
      OutcomeThenNoEffect(x, x0, disk.alive, disk.Now());
      if !coherent {
        closed := true;
        return Some(CONFLICT);
      }
      OutcomeIsOk(x, x0);
      CoherentIsActive(x0, descriptor, tally);
      r := AppendLocked(line, e, x);
    }

    /** `append` under the lock, once coherence is established. */
    method AppendLocked(line: string, e: Event, ghost x: Snap) returns (r: Option<Code>)
      requires Ready() && !closed && e.Valid() && line == EventLine(e) && |line| <= MAX_EVENT_LINE_BYTES
      requires Outcome(x, true, disk.Now())
      modifies this, disk
      ensures Valid() && disk.faults >= old(disk.faults)
      ensures r.None? ==>
        && disk.alive && !closed && Ready() && !RotationDue(0, e.ts)
        && Logged(x, disk.Now(), tally.header.sequence, line)
        && if old(RotationDue(|line|, e.ts))
           then
             && tally == Counted(FreshTally(Header(old(tally).header.sequence + 1, e.ts, retentionDays)), line, e.ts)
             && CertifiedCopy(disk.s, old(descriptor), old(tally), e.ts)
             && forall n :: disk.Now().ledger.promised(n) == old(disk.Now()).Slot(n)
           else
             && tally == Counted(old(tally), line, e.ts) && descriptor == old(descriptor)
             && disk.Now().ledger.promised == old(disk.Now()).ledger.promised
             && disk.s == WithFile(old(disk.s), descriptor, Extended(old(disk.s.files[descriptor]), line))
      ensures r.None? ==>
        && e.ts / 86_400_000 == tally.header.openedAt / 86_400_000 && tally.header.retentionDays == retentionDays
        && (descriptor == old(descriptor) <==>
              && |old(tally).digested| + |line| + 1_024 <= 8_388_608
              && e.ts / 86_400_000 == old(tally).header.openedAt / 86_400_000
              && old(tally).header.retentionDays == retentionDays)
      ensures r.Some? ==> Outcome(x, disk.alive, disk.Now())
      ensures r.Some? && disk.alive ==> (closed <==> r.value !in {LOCK, EVENT, UNCODED})
      ensures disk.alive && disk.faults == old(disk.faults) ==>
        (r.None? <==>
          (old(RotationDue(|line|, e.ts)) ==>
            old(MayRotate(disk.s, tally)) && old(tally).header.sequence < MAX_CANONICAL_INT))
    {
      hide Snap.Ok, Good, World, Halted, At, Synced, Active, Booked, Safe, Outcome, Tally.Exact, Logged, MayRotate;
      hide ValidateEventLine, LogOf, EventLine, AllPromised, CertifiedCopy, HeaderLine, MAX_CANONICAL_INT;
      ghost var x0 := disk.Now();
      ActiveData(x0, descriptor, tally.digested);
      ActiveIsOk(x0, descriptor, tally.digested);
      var due := RotationDue(|line|, e.ts);
      r := None;
      if due {
        r := RotateLocked(e.ts);
        OutcomeTransitive(x, x0, disk.alive, disk.Now());
        if r.Some? {
          closed := r.value != UNCODED;
          return;
        }
        TallyFacts(tally);
        HeaderLineLength(tally.header);
        PromisedBefore(x0, disk.Now());
      }
      ghost var x1 := disk.Now();
      ActiveIsOk(x1, descriptor, tally.digested);
      ProjectedLineIsAccepted(e);
      r := WriteLine(line, e.ts);
      if r.Some? {
        OutcomeTransitive(x, x1, disk.alive, disk.Now());
        closed := true;
        return;
      }
      LoggedAfter(x, x1, disk.Now(), tally.header.sequence, line);
      ActiveData(disk.Now(), descriptor, tally.digested);
      if due {
        IsCertified(x1.fs, old(descriptor), old(tally), e.ts);
        KeepsCertified(x1.fs, disk.s, old(descriptor), old(tally), e.ts);
      }
    }

    /** `rotate`. */
    method Rotate(closedAt: Instant) returns (r: Option<Code>)
      requires disk.alive && disk.Now().Ok() && Valid() && InRange(closedAt)
      modifies this, disk
      ensures Valid() && disk.faults >= old(disk.faults)
      ensures Outcome(old(disk.Now()), disk.alive, disk.Now())
      ensures r.None? ==>
        && disk.alive && Ready() && !closed && !old(closed) && old(Coherent(disk.s, descriptor, |tally.digested|))
        && tally == FreshTally(Header(old(tally).header.sequence + 1, closedAt, retentionDays))
        && AllPromised(disk.Now()) && Rotated(old(tally).header.sequence) in disk.s.dir
        && disk.s.dir[Rotated(old(tally).header.sequence)] == old(descriptor)
        && CertifiedCopy(disk.s, old(descriptor), old(tally), closedAt)
      ensures r.Some? && disk.alive ==> (closed <==> old(closed) || r.value !in {LOCK, UNCODED})
      ensures disk.alive && disk.faults == old(disk.faults) ==>
        (r.None? <==>
          && !old(closed) && old(Coherent(disk.s, descriptor, |tally.digested|))
          && old(MayRotate(disk.s, tally)) && old(tally).header.sequence < MAX_CANONICAL_INT)
    {
      hide Snap.Ok, Good, World, Halted, At, Synced, Active, Booked, Safe, Outcome, Tally.Exact, MayRotate, LogOf;
      hide AllPromised, CertifiedCopy, HeaderLine, MAX_CANONICAL_INT;
      ghost var x := disk.Now();
      OutcomeReflexive(x);
      if closed {
        return Some(CLOSED);
      }
      disk.Enter();
      ghost var x0 := disk.Now();
      EnterOutcome(x, x0);
      var locked := disk.Lock();
      if !locked {
        OutcomeThenNoEffect(x, x0, disk.alive, disk.Now());
        return Some(LOCK);
      }
      var coherent := RequireCoherent();
      OutcomeThenNoEffect(x, x0, disk.alive, disk.Now());
      if !coherent {
        closed := true;
        return Some(CONFLICT);
      }
      OutcomeIsOk(x, x0);
      CoherentIsActive(x0, descriptor, tally);
      r := RotateLocked(closedAt);
      OutcomeTransitive(x, x0, disk.alive, disk.Now());
      if r.Some? {
        closed := r.value != UNCODED;
      } else {
        ActiveData(disk.Now(), descriptor, tally.digested);
      }
    }

    /** `flush`: everything in the log becomes promised, except the active segment's events when it is no longer this
        store's, or when a version of the directory that a power cut might leave does not bind its inode. */
    method Flush() returns (r: Option<Code>)
      requires disk.alive && disk.Now().Ok() && Valid()
      modifies this`closed, disk
      ensures Valid() && disk.faults >= old(disk.faults)
      ensures Outcome(old(disk.Now()), disk.alive, disk.Now())
      ensures r.None? ==>
        && disk.alive && !closed && !old(closed) && PromisedBut(disk.Now(), descriptor) && disk.Now().Calm()
        && disk.s == WithFile(old(disk.s), descriptor, Flushed(old(disk.s.files[descriptor])))
      ensures r.None? && Secured(disk.s, descriptor) ==> AllPromised(disk.Now())
      ensures disk.alive ==> disk.s.dir == old(disk.s.dir) && disk.s.worlds == old(disk.s.worlds)
      ensures r.Some? && disk.alive ==> closed
      ensures disk.alive && disk.faults == old(disk.faults) ==> (r.None? <==> !old(closed))
    {
      hide Snap.Ok, Good, World, Halted, At, Synced, Active, Booked, Safe, Outcome, Tally.Exact, LogOf, IsClosed;
      hide HeaderLine, EventLine, SplitLines, IsEvent, ParseHeader, NothingNew, Preserved;
      ghost var x := disk.Now();
      OutcomeReflexive(x);
      if closed {
        return Some(CLOSED);
      }
      disk.Enter();
      ghost var x0 := disk.Now();
      EnterOutcome(x, x0);
      var ok := disk.Fsync(descriptor);
      if !ok {
        closed := true;
        OutcomeThenNoEffect(x, x0, disk.alive, disk.Now());
        return Some(APPEND);
      }
      ghost var y := disk.Now();
      OutcomeIsOk(x, x0);
      SyncSteady(x0, descriptor);
      SteadyIsOutcome(x0, y);
      OutcomeTransitive(x, x0, true, y);
      disk.ledger := Flushing(y, descriptor).ledger;
      FlushOutcome(x, y, descriptor);
      r := None;
    }

    /** `close`. */
    method Close()
      requires disk.alive && disk.Now().Ok() && Valid()
      modifies this`closed, disk
      ensures closed && disk.faults >= old(disk.faults)
      ensures Outcome(old(disk.Now()), disk.alive, disk.Now())
      ensures disk.alive ==> disk.s.dir == old(disk.s.dir) && disk.s.worlds == old(disk.s.worlds)
    {
      hide Snap.Ok, Good, World, Halted, At, Synced, Outcome, LogOf;
      var r := Flush();
      closed := true;
    }

    /** `__init__` and `_open_active`: succeeds on exactly the settled directories, starting a first segment when
        there is none. */
    method Open(openedAt: Instant) returns (r: Option<Code>)
      requires disk.alive && closed && InRange(openedAt) && WellFormed(disk.s)
      modifies this, disk
      ensures disk.faults >= old(disk.faults)
      ensures old(disk.Now().Ok()) ==>
        Outcome(old(disk.Now()), disk.alive, disk.Now()) && (r.None? ==> disk.Now().Calm())
      ensures r.None? ==>
        && disk.alive && !closed && Believes(disk.s.files) && Coherent(disk.s, descriptor, |tally.digested|)
        && old(Settled(disk.s))
        && if Current in old(disk.s.dir)
           then disk.s == old(disk.s)
           else exists q :: Next(q, old(disk.s.dir)) && tally == FreshTally(Header(q, openedAt, retentionDays))
      ensures r.Some? ==> closed
      ensures disk.alive && disk.faults == old(disk.faults) ==>
        (r.None? <==>
          && 1 <= retentionDays <= MAX_LOG_RETENTION_DAYS && old(Settled(disk.s))
          && (Current !in old(disk.s.dir) ==> Above(MAX_CANONICAL_INT, old(disk.s.dir))))
      ensures disk.alive && disk.faults == old(disk.faults) && old(disk.Now().Ok()) && r.Some? ==>
        r.value in {RETENTION, RECOVERY_REQUIRED, OVERFLOW}
    {
      hide Snap.Ok, Good, World, Halted, At, Synced, Outcome, LogOf, Settled, Tally.Exact, Above, MAX_CANONICAL_INT;
      hide Booked, Next, Coherent, WellFormed, FreshTally, Safe;
      ghost var x := disk.Now();
      ghost var ok := x.Ok();
      if ok { OutcomeReflexive(x); }
      if !(1 <= retentionDays <= MAX_LOG_RETENTION_DAYS) {
        return Some(RETENTION);
      }
      disk.Enter();
      ghost var x0 := disk.Now();
      if ok { EnterOutcome(x, x0); OutcomeIsOk(x, x0); }
      var locked := disk.Lock();
      if ok { OutcomeThenNoEffect(x, x0, disk.alive, disk.Now()); }
      if !locked {
        return Some(LOCK);
      }
      r := OpenActive(openedAt);
      if ok { OutcomeTransitive(x, x0, disk.alive, disk.Now()); }
      closed := r.Some?;
    }

    /** `_open_active`. */
    method OpenActive(openedAt: Instant) returns (r: Option<Code>)
      requires disk.alive && InRange(openedAt) && WellFormed(disk.s) && 1 <= retentionDays <= MAX_LOG_RETENTION_DAYS
      requires closed
      modifies this, disk
      ensures closed && disk.faults >= old(disk.faults)
      ensures old(disk.Now().Ok() && disk.Now().Calm() && Booked(disk.Now())) ==>
        Outcome(old(disk.Now()), disk.alive, disk.Now()) && (r.None? ==> disk.Now().Calm())
      ensures r.None? ==>
        && disk.alive && Believes(disk.s.files) && Coherent(disk.s, descriptor, |tally.digested|) && old(Settled(disk.s))
        && if Current in old(disk.s.dir)
           then disk.s == old(disk.s)
           else exists q :: Next(q, old(disk.s.dir)) && tally == FreshTally(Header(q, openedAt, retentionDays))
      ensures disk.alive && disk.faults == old(disk.faults) ==>
        (r.None? <==>
          && old(Settled(disk.s)) && (Current !in old(disk.s.dir) ==> Above(MAX_CANONICAL_INT, old(disk.s.dir))))
      ensures disk.alive && disk.faults == old(disk.faults) && old(disk.Now().Ok()) && r.Some? ==>
        r.value in {RECOVERY_REQUIRED, OVERFLOW}
    {
      hide Snap.Ok, Good, World, Halted, At, Synced, Outcome, LogOf, Tally.Exact, Above, MAX_CANONICAL_INT, Booked, Next;
      hide IsOpen, HeaderOfData, HeaderLine, Settled, Links, ClosedFile, Roomy, Rotations;
      ghost var x := disk.Now();
      ghost var ok := x.Ok() && x.Calm() && Booked(x);
      if ok { OutcomeReflexive(x); }
      var active, rotated := Authenticate(disk);
      if ok { OutcomeThenNoEffect(x, x, disk.alive, disk.Now()); }
      if active.Failure? {
        return Some(active.error);
      }
      SettledNames(disk.s);
      if active.value.None? {
        var q := Highest(rotated) + 1;
        HighestIsNext(x.fs.dir, rotated);
        if ok { ReadyForFirst(x, q); }
        r := StartSegment(q, openedAt);
        if ok {
          OutcomeTransitive(x, x, disk.alive, disk.Now());
          if r.None? { ActiveIsOk(disk.Now(), descriptor, tally.digested); }
        }
        return;
      }
      tally := active.value.value.tally;
      r := OpenForAppend();
      if ok { OutcomeThenNoEffect(x, x, disk.alive, disk.Now()); }
    }
  }

  /** Inode `i` is the active segment, and every version of the directory that a power cut might leave binds it, under
      the active name or its rotated one. */
  ghost predicate Secured(s: Fs, i: Inode) {
    && Current in s.dir && s.dir[Current] == i && i in s.files && SequenceOf(s.files[i]).Some?
    && Anchored(s.worlds, i, SequenceOf(s.files[i]).value)
  }

  /** Sequence `n` is that of the active segment, which syncing inode `i` does not secure. */
  ghost predicate Unsure(s: Fs, i: Inode, n: int) {
    && Current in s.dir && s.dir[Current] in s.files && SequenceOf(s.files[s.dir[Current]]) == Some(n) && !Secured(s, i)
  }

  /** All events are promised but those of an active segment that syncing inode `i` does not secure. */
  ghost predicate PromisedBut(x: Snap, i: Inode) {
    forall n :: x.ledger.promised(n) == x.Slot(n) || Unsure(x.fs, i, n)
  }

  ghost function Flushing(x: Snap, i: Inode): Snap {
    x.(ledger := x.ledger.(promised := n => if Unsure(x.fs, i, n) then x.ledger.promised(n) else At(x.fs.dir, x.fs.files, n)))
  }

  /** Once inode `i` is synced, every version of the directory keeps the slots it secures. */
  lemma KeptUnlessUnsure(x: Snap, i: Inode, n: int)
    requires x.Ok() && AllSynced(x.fs, i) && !Unsure(x.fs, i, n)
    ensures forall w <- x.fs.worlds :: x.Slot(n) <= At(w, Synced(x.fs.files), n)
  {
    hide OpenFile, ClosedFile, Events, HeaderOfData, StagingOk, PendingRotation, Rotations, EventsDurable, Synced;
    var s := x.fs;
    CalmWorld(x);
    assert Rotated(n) in s.dir ==> RotatedOk(s.dir, s.files, n);
    if Current in s.dir && SequenceOf(s.files[s.dir[Current]]) == Some(n) {
      assert CurrentOk(s.dir, s.files);
      forall w <- s.worlds ensures x.Slot(n) <= At(w, Synced(s.files), n) {
        assert Version(w, s.dir, s.files, x.ledger.promised) && ReadsFrom(w, i, n);
        ReadsSynced(w, s.files, i, n);
      }
    } else if Rotated(n) in s.dir {
      RotationIsKept(s.worlds, s.dir, s.files, x.ledger.promised, n);
    }
  }

  lemma FlushOutcome(x: Snap, y: Snap, i: Inode)
    requires Outcome(x, true, y) && y.Calm() && AllSynced(y.fs, i)
    ensures var z := Flushing(y, i);
      && Outcome(x, true, z) && PromisedBut(z, i)
      && (Secured(z.fs, i) ==> AllPromised(z))
  {
    hide Good, At, Synced, Certified, Preserved, Firm, Unsure, Secured, Inherits;
    CalmWorld(y);
    var z := Flushing(y, i);
    forall n
      ensures Records(y.fs.dir, y.fs.files, z.ledger, n) && z.ledger.promised(n) <= At(y.fs.dir, Synced(y.fs.files), n)
      ensures x.ledger.promised(n) <= z.ledger.promised(n)
      ensures
        || z.ledger.promised(n) <= y.ledger.promised(n)
        || forall w <- y.fs.worlds :: z.ledger.promised(n) <= At(w, Synced(y.fs.files), n)
    {
      assert Records(y.fs.dir, y.fs.files, y.ledger, n);
      assert x.ledger.promised(n) <= y.ledger.promised(n) <= At(y.fs.dir, Synced(y.fs.files), n);
      if !Unsure(y.fs, i, n) {
        KeptUnlessUnsure(y, i, n);
        DurableWithin(y.fs.dir, y.fs.files, n);
        assert y.fs.dir in y.fs.worlds;
      }
    }
    assert World(y.fs.dir, y.fs.files, z.ledger);
    FirmPromise(y.fs.worlds, y.fs.dir, y.fs.files, y.ledger.promised, z.ledger.promised);
    if Secured(z.fs, i) { SecuredIsSure(z.fs, i); }
  }

  lemma SecuredIsSure(s: Fs, i: Inode)
    requires Secured(s, i)
    ensures forall n :: !Unsure(s, i, n)
  {
  }

  /** One event line more at the end of sequence `q`, which is the end of the log; everything else as it was. */
  ghost predicate Logged(x: Snap, y: Snap, q: int, line: string) {
    && y.Ok() && y.ledger.certified == x.ledger.certified && Preserved(x.fs, y.fs)
    && (forall n :: y.Slot(n) == if n == q then x.Slot(n) + [line] else x.Slot(n))
    && (forall n :: n > q ==> y.Slot(n) == [])
    && (forall n :: x.DurableSlot(n) <= y.DurableSlot(n))
    && (forall n :: x.ledger.promised(n) <= y.ledger.promised(n)) && (x.fs.Clean() ==> y.Recent())
    && Sown(x.fs, y.fs, q)
  }

  /** No inode holds an event that it did not hold before, unless it is of sequence `q` and holds what the log does; and
      segments still hold the events of their own day only. */
  ghost predicate Sown(x: Fs, y: Fs, q: int) {
    && x.files.Keys <= y.files.Keys && (AllDated(x.files) ==> AllDated(y.files))
    && forall i <- y.files.Keys ::
      || (if i in x.files then LeftOf(x.files[i], y.files[i]) else Barren(y.files[i]))
      || (Whole(y.files[i]) && SequenceOf(y.files[i]) == Some(q) && Events(y.files[i].data) == LogOf(y)(q))
  }

  lemma SownAfter(x: Fs, y: Fs, z: Fs, q: int)
    requires Inherits(x, y) && Sown(y, z, q)
    ensures Sown(x, z, q)
  {
    hide Barren, Whole, Events, SequenceOf, At, SealedStay, HeaderOfData, Dated;
    if AllDated(x.files) { NothingNewIsDated(x, y); }
    forall i <- z.files.Keys
      ensures
        || (if i in x.files then LeftOf(x.files[i], z.files[i]) else Barren(z.files[i]))
        || (Whole(z.files[i]) && SequenceOf(z.files[i]) == Some(q) && Events(z.files[i].data) == LogOf(z)(q))
    {
      if i in x.files { assert i in y.files; }
      if i in y.files { assert if i in x.files then LeftOf(x.files[i], y.files[i]) else Barren(y.files[i]); }
    }
  }

  /** The one file an append writes to is the one the log shows. */
  lemma SownByAppend(x: Fs, y: Fs, i: Inode, q: int)
    requires i in y.files && y.files == x.files[i := y.files[i]] && Whole(y.files[i]) && SequenceOf(y.files[i]) == Some(q)
    requires LogOf(y)(q) == Events(y.files[i].data) && i in x.files && (Dated(x.files[i]) ==> Dated(y.files[i]))
    ensures Sown(x, y, q)
  {
    hide Barren, Whole, Events, SequenceOf, At, HeaderOfData, Dated;
  }

  lemma AppendIsDated(f: File, g: File, h: Header, line: string, at: Instant)
    requires Whole(f) && Whole(g) && HeaderOfData(f.data) == HeaderOfData(g.data) == Some(h)
    requires Events(g.data) == Events(f.data) + [line] && ValidateEventLine(line) == Some(at) && Date(at) == Date(h.openedAt)
    ensures Dated(f) ==> Dated(g)
  {
    hide Whole, Events, HeaderOfData, ValidateEventLine;
  }

  lemma LoggedIsOk(x: Snap, y: Snap, q: int, line: string)
    requires Logged(x, y, q, line)
    ensures y.Ok() && y.ledger.certified == x.ledger.certified
  {
  }

  lemma ActiveData(x: Snap, i: Inode, c: string)
    requires Active(x, i, c)
    ensures i in x.fs.files && x.fs.files[i].data == c
  {
  }

  lemma PromisedBefore(x: Snap, y: Snap)
    requires Outcome(x, true, y) && AllPromised(y)
    ensures forall n :: y.ledger.promised(n) == x.Slot(n)
  {
    hide Snap.Ok, At, Synced, Preserved;
  }

  lemma CoherentIsActive(x: Snap, i: Inode, t: Tally)
    requires x.Ok() && x.Calm() && t.Exact() && Coherent(x.fs, i, |t.digested|) && t.digested <= x.fs.files[i].data
    ensures Active(x, i, t.digested)
  {
    hide Snap.Ok, IsOpen, SplitLines, Events, HeaderOfData, Active;
    ActiveIs(x, i, t.digested);
  }

  lemma ActiveIsOk(x: Snap, i: Inode, c: string)
    requires Active(x, i, c)
    ensures x.Ok() && x.Calm()
  {
  }

  lemma LoggedAfter(x: Snap, y: Snap, z: Snap, q: int, line: string)
    requires Outcome(x, true, y) && y.Calm() && Logged(y, z, q, line)
    ensures Logged(x, z, q, line)
  {
    hide Snap.Ok, At, Synced, Preserved, Inherits, Sown;
    SownAfter(x.fs, y.fs, z.fs, q);
    PreservedTransitive(x.fs, y.fs, z.fs);
    forall n
      ensures x.DurableSlot(n) <= z.DurableSlot(n) && x.ledger.promised(n) <= z.ledger.promised(n)
      ensures y.Slot(n) == x.Slot(n)
    {
      assert x.DurableSlot(n) <= y.DurableSlot(n) <= z.DurableSlot(n);
      assert x.ledger.promised(n) <= y.ledger.promised(n) <= z.ledger.promised(n);
    }
  }

  lemma OutcomeReflexive(x: Snap)
    requires x.Ok()
    ensures Outcome(x, true, x)
  {
    hide World, At, Synced, Complete;
    PreservedDir(x.fs, x.fs);
  }

  lemma TornOutcome(x: Snap, i: Inode, t: Tally, line: string, at: Instant, k: nat)
    requires Active(x, i, t.digested) && t.Exact() && Booked(x) && ValidateEventLine(line) == Some(at) && k < |line|
    requires |t.digested| + |line| + MAX_TRAILER_LINE_BYTES <= MAX_SEGMENT_BYTES
    ensures Outcome(x, true, x.(fs := WithFile(x.fs, i, Extended(x.fs.files[i], line[..k]))))
  {
    hide Snap.Ok, Good, World, At, Synced, Active, Booked, Safe, Outcome, ValidateEventLine, Tally.Exact, Steady;
    hide IsTrailerLine;
    AcceptedLineIsEventLine(line);
    ProperPrefixIsTorn(line, k);
    ActiveRoom(x, i, t.digested, line, k);
    TearOk(x, i, t.digested, line[..k]);
    ActiveIsOk(x, i, t.digested);
    var y := x.(fs := WithFile(x.fs, i, Extended(x.fs.files[i], line[..k])));
    SteadyIsOutcome(x, y);
  }

  lemma ActiveRoom(x: Snap, i: Inode, c: string, line: string, k: nat)
    requires Active(x, i, c) && k <= |line| && |c| + |line| + MAX_TRAILER_LINE_BYTES <= MAX_SEGMENT_BYTES
    ensures i in x.fs.files && |c| + |line[..k]| <= MAX_SEGMENT_BYTES
  {
  }

  lemma SteadyIsOutcome(x: Snap, y: Snap)
    requires Steady(x, y) && y.Ok() && x.Ok()
    ensures Outcome(x, true, y)
  {
    hide Snap.Ok, At, Synced, Preserved, Inherits;
    SteadyInherits(x, y);
    CleanIsRecent(x);
  }

  lemma WrittenOutcome(x: Snap, i: Inode, t: Tally, line: string, at: Instant)
    requires Active(x, i, t.digested) && t.Exact() && Booked(x) && ValidateEventLine(line) == Some(at)
    requires |t.digested| + |line| + MAX_TRAILER_LINE_BYTES <= MAX_SEGMENT_BYTES
    requires Date(at) == Date(t.header.openedAt)
    ensures var u := Counted(t, line, at); var q := t.header.sequence;
      var y := x.(
        fs := WithFile(x.fs, i, Extended(x.fs.files[i], line)),
        ledger := WithRecorded(x.ledger, q, Events(t.digested) + [line]));
      u.Exact() && Active(y, i, u.digested) && Booked(y) && Logged(x, y, q, line)
  {
    hide Snap.Ok, Good, World, At, Synced, ValidateEventLine, IsOpen, Events, SplitLines, HeaderOfData, OpenFile;
    hide Preserved;
    assert IsEvent(line);
    AppendOk(x, i, t.digested, line);
    CountedIsExact(t, line, at);
    var u, q := Counted(t, line, at), t.header.sequence;
    var y := x.(
      fs := WithFile(x.fs, i, Extended(x.fs.files[i], line)), ledger := WithRecorded(x.ledger, q, Events(t.digested) + [line]));
    CalmWorld(x);
    CurrentIsTop(x.fs.dir, x.fs.files);
    assert x.Slot(q) == Events(t.digested);
    NothingLater(y, q);
    ActiveIsWhole(x, i, t.digested);
    ActiveIsWhole(y, i, u.digested);
    AppendIsDated(x.fs.files[i], y.fs.files[i], t.header, line, at);
    SownByAppend(x.fs, y.fs, i, q);
  }

  lemma ActiveIsWhole(x: Snap, i: Inode, c: string)
    requires Active(x, i, c)
    ensures i in x.fs.files && Whole(x.fs.files[i]) && x.fs.files[i].data == c
  {
    hide OpenFile, SplitLines, Snap.Ok;
  }

  lemma NothingLater(y: Snap, q: int)
    requires y.Ok() && Current in y.fs.dir && y.fs.dir[Current] in y.fs.files
    requires SequenceOf(y.fs.files[y.fs.dir[Current]]) == Some(q)
    ensures forall n :: n > q ==> y.Slot(n) == []
  {
    hide Good, At, Synced;
    CalmWorld(y);
    forall n | n > q ensures y.Slot(n) == [] { NothingAbove(y.fs.dir, y.fs.files, q, n); }
  }

  lemma IsCertified(x: Fs, i: Inode, t: Tally, closedAt: Instant)
    requires CertifiedCopy(x, i, t, closedAt)
    ensures i in x.files
  {
  }

  lemma KeepsCertified(x: Fs, y: Fs, i: Inode, t: Tally, closedAt: Instant)
    requires CertifiedCopy(x, i, t, closedAt) && i in y.files && i in x.files && y.files[i] == x.files[i]
    ensures CertifiedCopy(y, i, t, closedAt)
  {
  }

  lemma AllPromisedReady(x: Snap, z: Snap, i: Inode, t: Tally)
    requires Outcome(x, true, z) && Active(z, i, t.digested) && Booked(z) && AllSynced(z.fs, i) && z.fs.worlds == {z.fs.dir}
    ensures var w := Promising(z);
      Outcome(x, true, w) && Active(w, i, t.digested) && Booked(w) && AllPromised(w)
  {
    hide At, OpenFile, SplitLines, Snap.Ok, Outcome;
    SyncedIsPromised(z, i, t.digested);
    PromisingKeeps(x, z);
  }

  lemma SyncedIsPromised(z: Snap, i: Inode, c: string)
    requires Active(z, i, c) && AllSynced(z.fs, i) && z.fs.worlds == {z.fs.dir}
    ensures z.Ok() && Promising(z).Ok() && forall n :: z.ledger.promised(n) <= Promising(z).ledger.promised(n)
  {
    hide At, Synced, World, OpenFile, SplitLines, Firm, Stamped;
    PromiseAll(z);
  }

  /** Promising more is no less an outcome. */
  lemma PromisingKeeps(x: Snap, z: Snap)
    requires Outcome(x, true, z) && Promising(z).Ok() && forall n :: z.ledger.promised(n) <= Promising(z).ledger.promised(n)
    ensures Outcome(x, true, Promising(z))
  {
    hide At, Synced, Snap.Ok, Inherits, Preserved;
    var w := Promising(z);
    forall n
      ensures x.ledger.promised(n) <= w.ledger.promised(n) && w.Slot(n) == x.Slot(n) && x.DurableSlot(n) <= w.DurableSlot(n)
    {
      assert x.ledger.promised(n) <= z.ledger.promised(n) <= w.ledger.promised(n);
      assert z.Slot(n) == x.Slot(n) && x.DurableSlot(n) <= z.DurableSlot(n);
    }
  }

  /** A rotation is allowed by the bound and the segment's deadline is representable. */
  ghost predicate MayRotate(s: Fs, t: Tally) {
    |Rotations(s.dir)| < 10_000 && t.header.retentionDays >= 0
    && BoundedExpiry(t.header.openedAt, t.header.retentionDays).Some?
  }

  /** The inode holds the tallied segment, closed at `closedAt` by the one trailer its fields determine, which the
      reader certifies. */
  ghost predicate CertifiedCopy(s: Fs, i: Inode, t: Tally, closedAt: Instant) {
    && i in s.files && ClosedCopy(s.files[i].data, t, closedAt)
    && IsClosed(s.files[i].data) && |s.files[i].data| <= MAX_SEGMENT_BYTES
    && Events(s.files[i].data) == Events(t.digested) && HeaderOfData(s.files[i].data) == Some(t.header)
  }

  ghost predicate ClosedCopy(data: string, t: Tally, closedAt: Instant) {
    var trailer := TallyTrailer(t, closedAt); trailer.Some? && data == t.digested + TrailerLine(trailer.value)
  }

  lemma ReadyFacts(x: Snap, i: Inode, t: Tally)
    requires Active(x, i, t.digested) && t.Exact() && Booked(x)
    ensures i in x.fs.files && Safe(x, true, x) && Outcome(x, true, x) && x.Ok() && x.Calm()
    ensures Current in x.fs.dir && x.fs.dir[Current] == i
    ensures Rotated(t.header.sequence) !in x.fs.dir
  {
    hide Safe, World;
    SafeStart(x);
    SafeIsOutcome(x, true, x);
  }

  lemma ReadyToClose(x: Snap, i: Inode, t: Tally, closedAt: Instant)
    requires Active(x, i, t.digested) && t.Exact() && InRange(closedAt) && |Rotations(x.fs.dir)| < MAX_ROTATIONS
    requires TallyTrailer(t, closedAt).Some?
    ensures var trailer := TallyTrailer(t, closedAt).value;
      trailer.Valid() && trailer.sequence == t.header.sequence && Closable(x, i, t.digested, trailer)
  {
    hide IsOpen, IsClosed, HeaderOfData, Events, SplitLines, TrailerFor, Snap.Ok, BoundedExpiry, Trailer.Valid;
    TallyTrailerIsTheirs(t, closedAt);
  }

  lemma AfterRotation(x: Snap, y: Snap, z: Snap, i: Inode, t: Tally, trailer: Trailer, closedAt: Instant)
    requires TallyTrailer(t, closedAt) == Some(trailer)
    requires Active(x, i, t.digested) && t.Exact() && Closable(x, i, t.digested, trailer)
    requires ReadyToRotate(y, trailer.sequence)
    requires y.fs == WithFile(x.fs, i, Flushed(Extended(x.fs.files[i], TrailerLine(trailer))))
    requires z.Ok() && z.Calm() && Rotation(y.fs, z.fs, trailer.sequence)
    ensures ReadyToPublish(z, t.header.sequence + 1) && CertifiedCopy(z.fs, i, t, closedAt)
    ensures Moved(x.fs, z.fs, i, t.header.sequence)
  {
    hide IsOpen, IsClosed, HeaderOfData, Events, SplitLines, Snap.Ok, BoundedExpiry, Trailer.Valid, TrailerLine, OpenFile;
    hide Good, World, At, Synced, Roomy, TrailerFor;
    CalmWorld(x);
    TrailerSequence(HeaderOfData(t.digested).value, Events(t.digested), trailer);
    CurrentIsTop(x.fs.dir, x.fs.files);
    NoStaging(x.fs.dir, x.fs.files);
    CloseCertifies(t.digested, t.header, trailer.lastEventAt, trailer.closedAt);
  }

  /** The active inode now bears its rotated name only; no other file has changed. */
  ghost predicate Moved(x: Fs, z: Fs, i: Inode, q: int) {
    && i in x.files && i in z.files && z.dir == x.dir[Rotated(q) := i] - {Current} && z.files == x.files[i := z.files[i]]
  }

  lemma NoStaging(d: Dir, files: Files)
    requires Good(d, files) && Current in d
    ensures Staging !in d
  {
  }

  lemma ReadyDirectory(x: Snap, sequence: int)
    requires ReadyToPublish(x, sequence)
    ensures Staging !in x.fs.dir && WellFormed(x.fs)
  {
    OkIsWellFormed(x);
  }

  /** Nothing but a crash can follow a refused call. */
  lemma OutcomeThenNoEffect(x: Snap, y: Snap, alive: bool, z: Snap)
    requires Outcome(x, true, y) && y.Calm() && Booked(y) && (if alive then z == y else Halted(y, z))
    ensures Outcome(x, alive, z)
  {
    hide Snap.Ok, Good, World, Halted, At, Synced, Outcome, Booked, Safe;
    OutcomeIsOk(x, y);
    SafeStart(y);
    SafeRefusal(y, y, alive, z);
    SafeIsOutcome(y, alive, z);
    OutcomeTransitive(x, y, alive, z);
  }

  lemma OutcomeIsOk(x: Snap, y: Snap)
    requires Outcome(x, true, y)
    ensures y.Ok() && y.ledger.certified == x.ledger.certified
  {
  }

  ghost predicate AllSynced(s: Fs, i: Inode) { i in s.files && s.files[i].synced == |s.files[i].data| }

  /** Every name names a file, and rotated names carry natural numbers. */
  ghost predicate WellFormed(s: Fs) { forall n <- s.dir.Keys :: s.dir[n] in s.files && (n.Rotated? ==> n.sequence >= 0) }

  /** The least positive sequence above every surviving rotation. */
  ghost predicate Next(q: int, d: Dir) { q > 0 && Above(q, d) && forall p | p > 0 && Above(p, d) :: q <= p }

  lemma HighestIsNext(d: Dir, rotated: set<int>)
    requires forall q :: q in rotated <==> Rotated(q) in d
    requires forall n <- d.Keys :: n.Rotated? ==> n.sequence >= 0
    ensures var q := Highest(rotated) + 1;
      q >= 1 && Above(q, d) && Next(q, d) && (q <= MAX_CANONICAL_INT <==> Above(MAX_CANONICAL_INT, d))
  {
    forall p <- rotated ensures p >= 0 { assert Rotated(p) in d; }
    AboveHighest(d, rotated, Highest(rotated) + 1);
    AboveHighest(d, rotated, MAX_CANONICAL_INT);
    forall p | p > 0 && Above(p, d) ensures Highest(rotated) + 1 <= p { AboveHighest(d, rotated, p); }
  }

  lemma SettledNames(s: Fs)
    requires Settled(s)
    ensures Staging !in s.dir
    ensures Current in s.dir ==> s.dir[Current] in s.files && Links(s.dir, s.dir[Current]) == 1
  {
    hide IsOpen, HeaderOfData, SplitLines, Links;
  }

  lemma ReadyForFirst(x: Snap, q: int)
    requires x.Ok() && x.Calm() && Settled(x.fs) && Current !in x.fs.dir && Above(q, x.fs.dir)
    ensures ReadyToPublish(x, q)
  {
  }

  /** A good file system is well formed. */
  lemma OkIsWellFormed(x: Snap)
    requires x.Ok()
    ensures WellFormed(x.fs)
  {
    hide HeaderOfData, OpenFile, ClosedFile, EventsDurable, CurrentOk, StagingOk, PendingRotation, Rotations;
    CalmWorld(x);
    forall n <- x.fs.dir.Keys | n.Rotated? ensures n.sequence >= 0 {
      assert RotatedOk(x.fs.dir, x.fs.files, n.sequence);
      FileHasSequence(x.fs.files[x.fs.dir[n]]);
      PositiveHeader(x.fs.files[x.fs.dir[n]]);
    }
  }

  lemma PositiveHeader(f: File)
    requires OpenFile(f) || ClosedFile(f)
    ensures SequenceOf(f).Some? && SequenceOf(f).value > 0
  {
    hide OpenFile, ClosedFile, HeaderOfData;
    FileHasSequence(f);
  }

  lemma PublishedIsCoherent(x: Fs, y: Fs, h: Header)
    requires Published(x, y, h) && WellFormed(x) && Staging !in x.dir
    ensures var j := y.dir[Current];
      && Coherent(y, j, |HeaderLine(h)|) && y.files[j].data == HeaderLine(h) && AllSynced(y, j)
      && y.dir == x.dir[Current := j] && y.files == x.files[j := y.files[j]]
  {
    hide HeaderLine;
    var j := y.dir[Current];
    assert (set n <- y.dir.Keys | y.dir[n] == j) == {Current};
  }
}

/** Retention: deleting exactly the expired, certified rotations, and retiring a due active segment. */
module LogRetention {
  import opened Common
  import opened Largest
  import opened JsonText
  import opened Clock
  import opened Canonical
  import opened LineProjection
  import opened LogWire
  import opened LogEvents
  import opened LogSegments
  import opened LogDisk
  import opened LogNames
  import opened LogVersions
  import opened LogFilesystem
  import opened LogKernel
  import opened LogPublish
  import opened LogWrites
  import opened LogTally
  import opened LogStore
  import opened LogRecovery

  // ---- deadlines ----------------------------------------------------------------------------------------------------

  /** `opened_at + timedelta(days)`, when representable. */
  function Deadline(openedAt: Instant, days: int): Option<Instant> {
    if days < 0 && openedAt + days * DAY < 0 then None
    else if days < 0 then Some(openedAt + days * DAY)
    else BoundedExpiry(openedAt, days)
  }

  /** The captured deadline, shortened but never extended by the policy. */
  function Effective(h: Header, days: int): Option<Instant> {
    var captured, policy := Deadline(h.openedAt, h.retentionDays), Deadline(h.openedAt, days);
    if captured.None? || policy.None? then None
    else Some(if captured.value <= policy.value then captured.value else policy.value)
  }

  /** The effective deadline is the header's day count or the policy's, whichever is smaller, after the opening; so
      relaxing the policy beyond the captured days changes nothing, and tightening it only shortens. */
  lemma EffectiveIsEarlier(h: Header, days: int)
    requires h.Valid() && days >= 0 && Effective(h, days).Some?
    ensures Effective(h, days).value == h.openedAt + (if days <= h.retentionDays then days else h.retentionDays) * DAY
  {
    hide InRange;
    assert days <= h.retentionDays ==> days * DAY <= h.retentionDays * DAY;
    assert days >= h.retentionDays ==> days * DAY >= h.retentionDays * DAY;
  }

  lemma RelaxingNeverExtends(h: Header, days: int, relaxed: int)
    requires h.Valid() && h.retentionDays <= days <= relaxed && Effective(h, relaxed).Some?
    ensures Effective(h, days) == Effective(h, relaxed)
  {
    EarlierIsInRange(h.openedAt + days * DAY, h.openedAt + relaxed * DAY);
    assert days * DAY <= relaxed * DAY;
    EffectiveIsEarlier(h, relaxed);
  }

  lemma EarlierIsInRange(a: Instant, b: Instant)
    requires a <= b && InRange(b)
    ensures InRange(a)
  {
    assert a / DAY <= b / DAY;
    SplitYearMonotone(a / DAY, b / DAY, 1);
  }

  lemma {:induction false} SplitYearMonotone(m: nat, n: nat, year: nat)
    requires m <= n
    ensures SplitYear(m, year).year <= SplitYear(n, year).year
    decreases n
  {
    if DaysInYear(year) <= m {
      SplitYearMonotone(m - DaysInYear(year), n - DaysInYear(year), year + 1);
    }
  }

  // ---- what an operation that deletes may do ---------------------------------------------------------------------------

  /** As `Outcome`, except that the segments in `gone` may have lost all their events and their promises. */
  ghost predicate Reduced(x: Snap, alive: bool, y: Snap, gone: set<int>) {
    && y.ledger.certified == x.ledger.certified && Inherits(x.fs, y.fs)
    && (forall n | n !in gone :: x.ledger.promised(n) <= y.ledger.promised(n))
    && (x.fs.Clean() ==> if alive then y.Recent() else !y.lost)
    && if alive
       then
         && y.Ok() && Preserved(x.fs, y.fs)
         && forall n :: if n in gone then y.Slot(n) == x.Slot(n) || y.Slot(n) == []
                        else y.Slot(n) == x.Slot(n) && x.DurableSlot(n) <= y.DurableSlot(n)
       else
         && (forall n | n !in gone :: x.ledger.promised(n) <= y.Slot(n)) && Vouched(y)
         && (!y.lost ==> y.Ok() && CutAtTailBut(x, y, gone))
  }

  /** Only the end of the log is missing, apart from the segments in `gone`. */
  ghost predicate CutAtTailBut(x: Snap, y: Snap, gone: set<int>) {
    && (forall n :: y.Slot(n) <= x.Slot(n))
    && forall n, m :: n < m && n !in gone && m !in gone && y.Slot(n) != x.Slot(n) ==> x.Slot(m) == []
  }

  lemma OutcomeIsReduced(x: Snap, alive: bool, y: Snap, gone: set<int>)
    requires Outcome(x, alive, y)
    ensures Reduced(x, alive, y, gone)
  {
    hide At, Synced, World, Preserved, Snap.Ok, Inherits;
  }

  lemma ReducedTransitive(x: Snap, y: Snap, alive: bool, z: Snap, a: set<int>, b: set<int>)
    requires Reduced(x, true, y, a) && y.Calm() && Reduced(y, alive, z, b)
    ensures Reduced(x, alive, z, a + b)
  {
    hide At, Synced, World, Preserved, Snap.Ok, Inherits, IsClosed, EventLine, IsEvent, ParseHeader, Vouched;
    InheritsTransitive(x.fs, y.fs, z.fs);
    if alive { PreservedTransitive(x.fs, y.fs, z.fs); }
    forall n | n !in a + b ensures x.ledger.promised(n) <= z.ledger.promised(n) {
      assert x.ledger.promised(n) <= y.ledger.promised(n) <= z.ledger.promised(n);
    }
    if !alive {
      forall n | n !in a + b ensures x.ledger.promised(n) <= z.Slot(n) {
        assert x.ledger.promised(n) <= y.ledger.promised(n) <= z.Slot(n);
      }
    }
    if alive {
      forall n | n !in a + b ensures x.DurableSlot(n) <= z.DurableSlot(n) {
        assert x.DurableSlot(n) <= y.DurableSlot(n) <= z.DurableSlot(n);
      }
    }
  }

  // ---- deleting one rotation ----------------------------------------------------------------------------------------------

  /** The ledger just before a deletion: the segment's promise is withdrawn. */
  ghost function Condemned(x: Snap, q: int): Snap {
    x.(ledger := x.ledger.(promised := n => if n == q then [] else x.ledger.promised(n), pruned := x.ledger.pruned + {q}))
  }

  lemma CondemnOk(x: Snap, q: int)
    requires x.Ok() && x.Calm() && Booked(x)
    ensures Condemned(x, q).Ok() && Condemned(x, q).Calm()
  {
    hide At, Synced, Good, Certified, Firm;
    CalmWorld(x);
    var y := Condemned(x, q);
    FirmPromise(x.fs.worlds, x.fs.dir, x.fs.files, x.ledger.promised, y.ledger.promised);
    forall n ensures Records(x.fs.dir, x.fs.files, y.ledger, n) && y.ledger.promised(n) <= At(x.fs.dir, Synced(x.fs.files), n) {
      assert Records(x.fs.dir, x.fs.files, x.ledger, n);
      assert x.ledger.promised(n) <= At(x.fs.dir, Synced(x.fs.files), n);
    }
    assert World(x.fs.dir, x.fs.files, y.ledger);
  }

  /** Unlinking a condemned rotation with a single link. */
  lemma UnlinkRotatedOk(x: Snap, q: int)
    requires x.Ok() && x.Calm() && Booked(x) && Rotated(q) in x.fs.dir && Links(x.fs.dir, x.fs.dir[Rotated(q)]) == 1
    ensures var y := Condemned(x, q).Changed(Drop(Rotated(q)));
      y.Ok() && Reduced(x, true, y, {q})
  {
    hide At, Synced, World, Preserved, Good, Links, Booked, Snap.Ok, Writable, Firm, Inherits;
    var c := Condemned(x, q);
    CondemnOk(x, q);
    CalmWorld(c);
    SingleIsNotCurrent(x.fs.dir, q);
    PruneStep(x.fs.dir, x.fs.files, q, c.ledger);
    OkIsFirm(c);
    FirmPrune(c.fs.worlds, c.fs.dir, c.fs.files, c.ledger.promised, q);
    ChangeOk(c, Drop(Rotated(q)));
    DropRotatedPreserves(x.fs, q);
    SameFilesInherit(x.fs, ChangeDir(x.fs, Drop(Rotated(q))));
  }

  lemma OkIsFirm(x: Snap)
    requires x.Ok()
    ensures Firm(x.fs.worlds, x.fs.dir, x.fs.files, x.ledger.promised)
  {
  }

  lemma DropRotatedPreserves(x: Fs, q: int)
    ensures Preserved(x, ChangeDir(x, Drop(Rotated(q))))
  {
    PreservedDir(x, ChangeDir(x, Drop(Rotated(q))));
  }

  lemma SingleIsNotCurrent(d: Dir, q: int)
    requires Rotated(q) in d && Links(d, d[Rotated(q)]) == 1
    ensures Current in d ==> d[Current] != d[Rotated(q)]
  {
    if Current in d && d[Current] == d[Rotated(q)] {
      SubsetSmaller({Current, Rotated(q)}, set n <- d.Keys | d[n] == d[Rotated(q)]);
    }
  }

  /** A crash while a deletion is under way. */
  lemma CondemnedCrash(x: Snap, q: int, y: Snap, z: Snap)
    requires Booked(x) && y.Ok() && y.ledger == Condemned(x, q).ledger && Halted(y, z) && Inherits(x.fs, y.fs)
    requires x.fs.Clean() ==> y.Recent()
    ensures Reduced(x, false, z, {q})
  {
    hide At, Synced, World, Halted, Snap.Ok, Inherits;
    HaltSurvives(y, z);
    InheritsTransitive(x.fs, y.fs, z.fs);
    if !z.lost {
      forall n ensures z.Slot(n) <= x.Slot(n) { assert z.Slot(n) <= y.ledger.recorded(n); }
    }
  }

  /** Rebooking after a completed deletion. */
  lemma RebookOk(x: Snap, y: Snap, q: int)
    requires y.Ok() && Reduced(x, true, y, {q})
    ensures var w := y.DirSynced(); var z := w.(ledger := Ledger(y.ledger.promised, LogOf(w.fs), {}, y.ledger.certified));
      Reduced(x, true, z, {q}) && z.Calm() && Booked(z)
  {
    hide At, Synced, World, Preserved, Firm, Inherits;
    var w := y.DirSynced();
    SyncDirSteady(y);
    ReducedSteady(x, y, w, {q});
    RebookedIsOk(w, w.(ledger := Ledger(y.ledger.promised, LogOf(w.fs), {}, y.ledger.certified)));
  }

  lemma ReducedSteady(x: Snap, y: Snap, w: Snap, gone: set<int>)
    requires Reduced(x, true, y, gone) && w.Ok() && Steady(y, w)
    ensures Reduced(x, true, w, gone)
  {
    hide At, Synced, Preserved, Snap.Ok, Inherits;
    SteadyInherits(y, w);
    InheritsTransitive(x.fs, y.fs, w.fs);
    PreservedTransitive(x.fs, y.fs, w.fs);
    forall n | n !in gone ensures x.DurableSlot(n) <= w.DurableSlot(n) {
      assert x.DurableSlot(n) <= y.DurableSlot(n) <= w.DurableSlot(n);
    }
  }

  lemma RebookedIsOk(w: Snap, z: Snap)
    requires w.Ok() && w.Calm() && z == w.(ledger := Ledger(w.ledger.promised, LogOf(w.fs), {}, w.ledger.certified))
    ensures z.Ok() && z.Calm() && Booked(z)
  {
    hide At, Synced, Good, Certified, Firm;
    CalmWorld(w);
    forall n ensures Records(w.fs.dir, w.fs.files, z.ledger, n) && z.ledger.promised(n) <= At(w.fs.dir, Synced(w.fs.files), n) {
      assert w.ledger.promised(n) <= At(w.fs.dir, Synced(w.fs.files), n);
    }
    assert World(w.fs.dir, w.fs.files, z.ledger);
  }

  // ---- the identity carried from validation to deletion --------------------------------------------------------------------

  datatype Identity = Identity(inode: Inode, size: nat)

  ghost predicate Identifies(s: Fs, q: int, id: Identity) {
    && Rotated(q) in s.dir && s.dir[Rotated(q)] in s.files && Links(s.dir, s.dir[Rotated(q)]) == 1
    && id == Identity(s.dir[Rotated(q)], |s.files[s.dir[Rotated(q)]].data|)
  }

  /** The pass began in a good state. */
  ghost predicate Started(x: Snap) { x.Ok() && x.Calm() && Booked(x) }

  /** `_unlink_verified`: deletes the rotation only if its name still resolves to the validated object. */
  method UnlinkVerified(disk: Disk, q: int, id: Identity) returns (r: Result<bool, Code>)
    requires disk.alive && WellFormed(disk.s)
    modifies disk
    ensures disk.faults >= old(disk.faults)
    ensures old(disk.Now().Ok() && disk.Now().Calm() && Booked(disk.Now())) ==>
      && Reduced(old(disk.Now()), disk.alive, disk.Now(), {q})
      && (r.Success? ==> disk.Now().Calm() && Booked(disk.Now()))
    ensures r.Success? ==> disk.alive
    ensures r == Success(true) ==>
      Identifies(old(disk.s), q, id) && disk.s == SyncedDir(ChangeDir(old(disk.s), Drop(Rotated(q))))
    ensures r == Success(false) ==> disk.s == old(disk.s)
    ensures r.Failure? ==> r.error == RETENTION
    ensures r.Failure? && disk.alive ==>
      Identifies(old(disk.s), q, id) && disk.s.files == old(disk.s.files)
      && (disk.s.dir == old(disk.s.dir) || disk.s.dir == old(disk.s.dir) - {Rotated(q)})
    ensures disk.alive && disk.faults == old(disk.faults) ==> (r == Success(true) <==> Identifies(old(disk.s), q, id))
  {
    hide Halted, Snap.Ok, Reduced, Links, Booked, Outcome;
    ghost var x := disk.Now();
    ghost var ready := x.Ok() && x.Calm() && Booked(x);
    if ready { OutcomeReflexive(x); }
    var named := disk.StatName(Rotated(q));
    if ready {
      OutcomeThenNoEffect(x, x, disk.alive, disk.Now());
      OutcomeIsReduced(x, disk.alive, disk.Now(), {q});
    }
    if !disk.alive {
      return Failure(RETENTION);
    }
    if !named.Found? || named.links != 1 || Identity(named.inode, named.size) != id {
      return Success(false);
    }
    var ok := Delete(disk, q);
    r := if ok then Success(true) else Failure(RETENTION);
  }

  /** The deletion itself: the unlink and the directory sync. */
  method Delete(disk: Disk, q: int) returns (ok: bool)
    requires disk.alive && Rotated(q) in disk.s.dir
    modifies disk
    ensures disk.faults >= old(disk.faults)
    ensures old(Started(disk.Now()) && Links(disk.s.dir, disk.s.dir[Rotated(q)]) == 1) ==>
      Reduced(old(disk.Now()), disk.alive, disk.Now(), {q}) && (ok ==> disk.Now().Calm() && Booked(disk.Now()))
    ensures ok ==> disk.alive && disk.s == SyncedDir(ChangeDir(old(disk.s), Drop(Rotated(q))))
    ensures !ok && disk.alive ==>
      disk.s.files == old(disk.s.files) && (disk.s.dir == old(disk.s.dir) || disk.s.dir == old(disk.s.dir) - {Rotated(q)})
    ensures disk.alive && disk.faults == old(disk.faults) ==> ok
  {
    hide Halted, Snap.Ok, Reduced, Links, Booked, Outcome, Inherits;
    ghost var x := disk.Now();
    ghost var ready := Started(x) && Links(x.fs.dir, x.fs.dir[Rotated(q)]) == 1;
    ghost var c := Condemned(x, q);
    disk.ledger := c.ledger;
    if ready {
      CondemnOk(x, q);
      CondemnedIsReduced(x, q);
    }
    ok := disk.Unlink(Rotated(q));
    if !ok {
      if ready && !disk.alive {
        SameSeals(x.fs);
        CleanIsRecent(x);
        CondemnedCrash(x, q, c, disk.Now());
      }
      return;
    }
    ghost var y := disk.Now();
    if ready { UnlinkRotatedOk(x, q); }
    ok := disk.FsyncDir();
    if !ok {
      if ready && !disk.alive {
        ReducedSeals(x, y, {q});
        CondemnedCrash(x, q, y, disk.Now());
      }
      return;
    }
    if ready { RebookOk(x, y, q); }
    disk.ledger := Ledger(disk.ledger.promised, LogOf(disk.s), {}, disk.ledger.certified);
  }

  lemma SameSeals(s: Fs)
    ensures Inherits(s, s)
  {
    SameFilesInherit(s, s);
  }

  lemma ReducedSeals(x: Snap, y: Snap, gone: set<int>)
    requires Reduced(x, true, y, gone)
    ensures Inherits(x.fs, y.fs) && y.Ok() && (x.fs.Clean() ==> y.Recent())
  {
    hide Inherits, Snap.Ok;
  }

  lemma CondemnedIsReduced(x: Snap, q: int)
    requires x.Ok() && Condemned(x, q).Ok()
    ensures Reduced(x, true, Condemned(x, q), {q})
  {
    hide Snap.Ok, At, Synced, Complete, Inherits;
    PreservedDir(x.fs, x.fs);
    SameSeals(x.fs);
    CleanIsRecent(x);
  }

  // ---- validating closed rotations -----------------------------------------------------------------------------------------

  datatype Retained = Retained(sequence: int, expiresAt: Instant, effective: Instant, expired: bool)
  datatype Refused = Refused(sequence: int, code: Code)
  datatype Validated = Validated(header: Header, expiresAt: Instant, identity: Identity)

  /** The rotation under `q` is one the reader certifies. */
  ghost predicate Certifiable(s: Fs, q: int) {
    && Rotated(q) in s.dir && s.dir[Rotated(q)] in s.files && Links(s.dir, s.dir[Rotated(q)]) == 1
    && var c := s.files[s.dir[Rotated(q)]].data;
       |c| <= MAX_SEGMENT_BYTES && IsClosed(c) && HeaderOfData(c).value.sequence == q
  }

  ghost function HeaderUnder(s: Fs, q: int): Header
    requires Certifiable(s, q)
  {
    HeaderOfData(s.files[s.dir[Rotated(q)]].data).value
  }

  /** The field set of a trailer, checked before the events are. */
  predicate TrailerShaped(line: string) {
    && |line| <= MAX_TRAILER_LINE_BYTES
    && match Loads(line)
       case Some(JObj(ms)) =>
         KeySet(ms) == TRAILER_KEYS && Lookup(ms, "line") == Some(JStr("trailer")) && EqualsOne(Lookup(ms, "schema"))
       case _ => false
  }

  /** The content of a closed segment: its header and captured deadline, when its trailer certifies it. */
  method JudgeClosed(c: string, q: int) returns (r: Result<(Header, Instant), Code>)
    ensures r.Success? <==> IsClosed(c) && HeaderOfData(c).value.sequence == q
    ensures r.Success? ==>
      HeaderOfData(c) == Some(r.value.0) && Deadline(r.value.0.openedAt, r.value.0.retentionDays) == Some(r.value.1)
  {
    hide ParseHeader, ParseTrailer, IsEvent, Digest, TrailerShaped;
    var p := SplitLines(c);
    if ClosedLines(p.lines) { ClosedSplits(p); }
    if p.torn != "" || |p.lines| < 2 || !Splits(p) {
      return Failure(RETENTION);
    }
    var header := ParseHeader(p.lines[0]);
    if header.None? {
      return Failure(HEADER);
    }
    var n := |p.lines| - 1;
    var trailer := ParseTrailerFor(p.lines[n], header.value, p.lines[1..n]);
    if trailer.None? {
      var events := AllLinesAreEvents(p.lines[1..n]);
      return Failure(if TrailerShaped(p.lines[n]) && !events then EVENT else RETENTION);
    }
    if header.value.sequence != q || trailer.value.sequence != q {
      return Failure(RETENTION);
    }
    r := Success((header.value, trailer.value.expiresAt));
  }

  /** `_read_closed_segment`. */
  method ReadClosed(disk: Disk, q: int) returns (r: Result<Validated, Code>)
    modifies disk
    ensures disk.NoEffect()
    ensures r.Success? ==>
      && disk.alive && Certifiable(disk.s, q) && r.value.header == HeaderUnder(disk.s, q) && r.value.header.sequence == q
      && Identifies(disk.s, q, r.value.identity) && disk.faults == old(disk.faults)
      && Deadline(r.value.header.openedAt, r.value.header.retentionDays) == Some(r.value.expiresAt)
    ensures r.Failure? && disk.alive && disk.faults == old(disk.faults) ==> !Certifiable(disk.s, q)
  {
    hide Halted, IsClosed, HeaderOfData;
    var named := disk.StatName(Rotated(q));
    if !named.Found? {
      return Failure(RETENTION);
    }
    if named.links != 1 {
      return Failure(FILE);
    }
    if named.size > MAX_SEGMENT_BYTES {
      return Failure(RETENTION);
    }
    var content := disk.Read(named.inode);
    if content.None? {
      return Failure(RETENTION);
    }
    var judged := JudgeClosed(content.value, q);
    if judged.Failure? {
      return Failure(judged.error);
    }
    r := Success(Validated(judged.value.0, judged.value.1, Identity(named.inode, named.size)));
  }

  /** A report entry gives the deadlines of a segment with header `h`. */
  ghost predicate Told(h: Header, days: int, now: Instant, g: Retained) {
    && h.sequence == g.sequence && Effective(h, days) == Some(g.effective)
    && Deadline(h.openedAt, h.retentionDays) == Some(g.expiresAt) && g.expired == (g.effective <= now)
  }

  /** A report entry tells the truth about its rotation. */
  ghost predicate Tells(s: Fs, days: int, now: Instant, g: Retained) {
    Certifiable(s, g.sequence) && Told(HeaderUnder(s, g.sequence), days, now, g)
  }

  datatype Preview = Preview(segments: seq<Retained>, refused: seq<Refused>, validated: map<int, Identity>)

  ghost predicate Listed(p: Preview, q: int) { exists i :: 0 <= i < |p.segments| && p.segments[i].sequence == q }
  ghost predicate RefusedIn(refused: seq<Refused>, q: int) { exists i :: 0 <= i < |refused| && refused[i].sequence == q }

  /** Every entry is true, carries its identity, and comes in ascending order. */
  ghost predicate Truthful(p: Preview, s: Fs, days: int, now: Instant) {
    && (forall i | 0 <= i < |p.segments| ::
         var g := p.segments[i];
         Tells(s, days, now, g) && g.sequence in p.validated && Identifies(s, g.sequence, p.validated[g.sequence]))
    && (forall i, j | 0 <= i < j < |p.segments| :: p.segments[i].sequence < p.segments[j].sequence)
  }

  lemma TruthfulGrows(p: Preview, s: Fs, days: int, now: Instant, g: Retained, id: Identity)
    requires Truthful(p, s, days, now) && Tells(s, days, now, g) && Identifies(s, g.sequence, id)
    requires forall k | 0 <= k < |p.segments| :: p.segments[k].sequence < g.sequence
    ensures Truthful(p.(segments := p.segments + [g], validated := p.validated[g.sequence := id]), s, days, now)
  {
    hide Tells, Identifies;
  }

  lemma ListedGrows(p: Preview, g: Retained, id: Identity)
    ensures var grown := p.(segments := p.segments + [g], validated := p.validated[g.sequence := id]);
      Listed(grown, g.sequence) && forall q | Listed(p, q) :: Listed(grown, q)
  {
    var grown := p.(segments := p.segments + [g], validated := p.validated[g.sequence := id]);
    assert grown.segments[|p.segments|] == g;
    forall q | Listed(p, q) ensures Listed(grown, q) {
      var i :| 0 <= i < |p.segments| && p.segments[i].sequence == q;
      assert grown.segments[i].sequence == q;
    }
  }

  lemma RefusedGrows(refused: seq<Refused>, f: Refused)
    ensures RefusedIn(refused + [f], f.sequence) && forall q | RefusedIn(refused, q) :: RefusedIn(refused + [f], q)
  {
    assert (refused + [f])[|refused|] == f;
    forall q | RefusedIn(refused, q) ensures RefusedIn(refused + [f], q) {
      var i :| 0 <= i < |refused| && refused[i].sequence == q;
      assert (refused + [f])[i].sequence == q;
    }
  }

  datatype Examined = Entry(retained: Retained, identity: Identity) | Rejected(refusal: Refused)

  function Added(p: Preview, e: Examined): Preview {
    match e
    case Entry(g, id) => p.(segments := p.segments + [g], validated := p.validated[g.sequence := id])
    case Rejected(f) => p.(refused := p.refused + [f])
  }

  /** One rotation examined: a true entry with its identity, or a refusal. */
  ghost predicate Examines(e: Examined, s: Fs, q: int, days: int, now: Instant, clean: bool) {
    match e
    case Entry(g, id) => g.sequence == q && Tells(s, days, now, g) && Identifies(s, q, id)
    case Rejected(f) => f.sequence == q && (clean ==> !Certifiable(s, q))
  }

  /** If the rotation is certified, its effective deadline does not overflow. */
  ghost predicate RepresentableAt(s: Fs, q: int, days: int) {
    Certifiable(s, q) ==> Effective(HeaderUnder(s, q), days).Some?
  }

  ghost predicate Representable(s: Fs, days: int) { forall q | Rotated(q) in s.dir :: RepresentableAt(s, q, days) }

  /** What a listing of the rotations needs. */
  ghost predicate MayList(s: Fs, days: int) {
    1 <= days <= MAX_LOG_RETENTION_DAYS && |Rotations(s.dir)| <= MAX_ROTATIONS && Representable(s, days)
  }

  method Examine(disk: Disk, q: int, days: int, now: Instant) returns (r: Result<Examined, Code>)
    requires disk.alive
    modifies disk
    ensures disk.NoEffect()
    ensures r.Success? ==> disk.alive && Examines(r.value, disk.s, q, days, now, disk.faults == old(disk.faults))
    ensures disk.alive && disk.faults == old(disk.faults) ==> (r.Success? <==> RepresentableAt(disk.s, q, days))
  {
    hide Halted, Certifiable, Identifies, Effective, Deadline;
    var read := ReadClosed(disk, q);
    if !disk.alive {
      return Failure(RETENTION);
    }
    if read.Failure? {
      return Success(Rejected(Refused(q, read.error)));
    }
    var v := read.value;
    var effective := Effective(v.header, days);
    if effective.None? {
      return Failure(UNCODED);
    }
    r := Success(Examined.Entry(Retained(q, v.expiresAt, effective.value, effective.value <= now), v.identity));
  }

  /** The preview of the first rotations in ascending order. */
  ghost predicate Covers(p: Preview, s: Fs, days: int, now: Instant, order: seq<int>, clean: bool) {
    && Truthful(p, s, days, now)
    && (forall k | 0 <= k < |p.segments| :: p.segments[k].sequence in order)
    && (forall q | q in order :: Listed(p, q) || RefusedIn(p.refused, q))
    && (clean ==> forall k | 0 <= k < |p.refused| :: p.refused[k].sequence in order && !Certifiable(s, p.refused[k].sequence))
  }

  lemma CoversMore(p: Preview, s: Fs, days: int, now: Instant, order: seq<int>, clean: bool, e: Examined, q: int)
    requires Covers(p, s, days, now, order, clean) && Examines(e, s, q, days, now, clean)
    requires forall o | o in order :: o < q
    ensures Covers(Added(p, e), s, days, now, order + [q], clean)
  {
    hide Tells, Identifies, Certifiable, Listed, RefusedIn, Truthful;
    match e
    case Entry(g, id) =>
      TruthfulGrows(p, s, days, now, g, id);
      ListedGrows(p, g, id);
    case Rejected(f) =>
      RefusedGrows(p.refused, f);
      SameListing(p, p.(refused := p.refused + [f]), s, days, now);
  }

  lemma SameListing(p: Preview, o: Preview, s: Fs, days: int, now: Instant)
    requires o.segments == p.segments && o.validated == p.validated
    ensures Truthful(p, s, days, now) ==> Truthful(o, s, days, now)
    ensures forall q :: Listed(p, q) <==> Listed(o, q)
  {
    hide Tells, Identifies;
  }

  lemma CoversFewerClaims(p: Preview, s: Fs, days: int, now: Instant, order: seq<int>, clean: bool, cleaner: bool)
    requires Covers(p, s, days, now, order, clean) && (cleaner ==> clean)
    ensures Covers(p, s, days, now, order, cleaner)
  {
    hide Tells, Identifies, Certifiable, Listed, RefusedIn, Truthful;
  }

  lemma AscendingPrefix(order: seq<int>, i: nat)
    requires i < |order| && Ascends(order)
    ensures order[..i + 1] == order[..i] + [order[i]] && forall o | o in order[..i] :: o < order[i]
  {
  }

  /** `_preview_locked`: every rotation is either validated, with its true deadline, or refused. */
  method PreviewLocked(disk: Disk, days: int, now: Instant) returns (r: Result<Preview, Code>)
    requires disk.alive
    modifies disk
    ensures disk.NoEffect() && disk.faults >= old(disk.faults)
    ensures r.Success? ==>
      && disk.alive && 1 <= days <= MAX_LOG_RETENTION_DAYS && Truthful(r.value, disk.s, days, now)
      && (forall q | Rotated(q) in disk.s.dir :: Listed(r.value, q) || RefusedIn(r.value.refused, q))
    ensures r.Success? && disk.faults == old(disk.faults) ==>
      forall q :: RefusedIn(r.value.refused, q) ==> !Certifiable(disk.s, q)
    ensures disk.alive && disk.faults == old(disk.faults) ==> (r.Success? <==> MayList(disk.s, days))
  {
    hide Halted, Certifiable, Identifies, Tells, Examines, Covers, Truthful, Listed, RefusedIn, Added, RepresentableAt;
    hide Rotations;
    if !(1 <= days <= MAX_LOG_RETENTION_DAYS) {
      return Failure(RETENTION);
    }
    var rotated := disk.ScanRotated();
    if rotated.None? {
      return Failure(UNCODED);
    }
    if |rotated.value| > MAX_ROTATIONS {
      return Failure(ROTATIONS);
    }
    var order := Ascending(rotated.value);
    var p := Preview([], [], map[]);
    NothingCovered(disk.s, days, now);
    for i := 0 to |order|
      invariant disk.alive && disk.Now() == old(disk.Now()) && disk.faults >= old(disk.faults)
      invariant Covers(p, disk.s, days, now, order[..i], disk.faults == old(disk.faults))
      invariant disk.faults == old(disk.faults) ==> forall q | q in order[..i] :: RepresentableAt(disk.s, q, days)
    {
      ghost var before := disk.faults == old(disk.faults);
      assert order[i] in rotated.value;
      var e := Examine(disk, order[i], days, now);
      if e.Failure? {
        return Failure(e.error);
      }
      AscendingPrefix(order, i);
      CoversFewerClaims(p, disk.s, days, now, order[..i], before, disk.faults == old(disk.faults));
      ghost var clean := disk.faults == old(disk.faults);
      FewerClaims(e.value, disk.s, order[i], days, now, before, clean);
      CoversMore(p, disk.s, days, now, order[..i], clean, e.value, order[i]);
      p := Added(p, e.value);
    }
    assert order[..|order|] == order;
    Covered(p, disk.s, days, now, order, disk.faults == old(disk.faults));
    r := Success(p);
  }

  lemma NothingCovered(s: Fs, days: int, now: Instant)
    ensures Covers(Preview([], [], map[]), s, days, now, [], true)
  {
  }

  lemma FewerClaims(e: Examined, s: Fs, q: int, days: int, now: Instant, before: bool, clean: bool)
    requires exists mine: bool :: Examines(e, s, q, days, now, mine) && (clean ==> before && mine)
    ensures Examines(e, s, q, days, now, clean)
  {
    hide Tells, Identifies, Certifiable;
  }

  lemma Covered(p: Preview, s: Fs, days: int, now: Instant, order: seq<int>, clean: bool)
    requires Covers(p, s, days, now, order, clean)
    ensures Truthful(p, s, days, now) && forall q | q in order :: Listed(p, q) || RefusedIn(p.refused, q)
    ensures clean ==> forall q :: RefusedIn(p.refused, q) ==> !Certifiable(s, q)
  {
    hide Tells, Identifies, Certifiable, Truthful, Listed;
  }

  // ---- deleting what is due -----------------------------------------------------------------------------------------------

  /** Certified, and its effective deadline has passed. */
  ghost predicate Due(s: Fs, q: int, days: int, now: Instant) {
    Certifiable(s, q) && var e := Effective(HeaderUnder(s, q), days); e.Some? && e.value <= now
  }

  /** Certified, and its effective deadline lies ahead. */
  ghost predicate Unexpired(s: Fs, q: int, days: int, now: Instant) {
    Certifiable(s, q) && var e := Effective(HeaderUnder(s, q), days); e.Some? && e.value > now
  }

  /** Nothing but due rotations has gone, and nothing else has changed. */
  ghost predicate OnlyDueGone(x: Fs, y: Fs, days: int, now: Instant) {
    && y.files == x.files
    && (forall n <- y.dir.Keys :: n in x.dir && y.dir[n] == x.dir[n])
    && (forall n <- x.dir.Keys :: n in y.dir || (n.Rotated? && Due(x, n.sequence, days, now)))
  }

  datatype Pruning = Pruning(removed: seq<Retained>, refused: seq<Refused>)

  function RemovedMore(u: Pruning, g: Retained): Pruning { u.(removed := u.removed + [g]) }
  function RefusedMore(u: Pruning, q: int): Pruning { u.(refused := u.refused + [Refused(q, RETENTION)]) }

  ghost predicate RemovedIn(removed: seq<Retained>, q: int) { exists i :: 0 <= i < |removed| && removed[i].sequence == q }

  predicate Rising(removed: seq<Retained>) { forall i, j | 0 <= i < j < |removed| :: removed[i].sequence < removed[j].sequence }

  /** Exactly the rotations that are gone are reported, each once, in ascending order, with its true deadlines. */
  ghost predicate TrueRemovals(u: Pruning, x: Fs, y: Fs, days: int, now: Instant) {
    && Rising(u.removed)
    && (forall i | 0 <= i < |u.removed| ::
         Tells(x, days, now, u.removed[i]) && u.removed[i].expired && Rotated(u.removed[i].sequence) !in y.dir)
    && (forall q | Rotated(q) in x.dir && Rotated(q) !in y.dir :: RemovedIn(u.removed, q))
  }

  /** The first `k` validated rotations have been dealt with; the rest are as they were validated. */
  ghost predicate Pruned(p: Preview, u: Pruning, x: Fs, y: Fs, k: nat, days: int, now: Instant) {
    && k <= |p.segments| && OnlyDueGone(x, y, days, now) && TrueRemovals(u, x, y, days, now)
    && (forall q | RefusedIn(p.refused, q) :: RefusedIn(u.refused, q))
    && (forall i, j | 0 <= i < |u.removed| && k <= j < |p.segments| :: u.removed[i].sequence < p.segments[j].sequence)
    && (forall i | 0 <= i < k && p.segments[i].expired ::
         RefusedIn(u.refused, p.segments[i].sequence)
         || (RemovedIn(u.removed, p.segments[i].sequence) && Rotated(p.segments[i].sequence) !in y.dir))
    && (forall i | k <= i < |p.segments| ::
         p.segments[i].sequence in p.validated && Identifies(y, p.segments[i].sequence, p.validated[p.segments[i].sequence]))
  }

  lemma PruneStart(p: Preview, x: Fs, days: int, now: Instant)
    requires Truthful(p, x, days, now)
    ensures Pruned(p, Pruning([], p.refused), x, x, 0, days, now)
  {
    hide Tells, Identifies, Due;
  }

  /** An unexpired rotation is passed over. */
  lemma PruneSkip(p: Preview, u: Pruning, x: Fs, y: Fs, k: nat, days: int, now: Instant)
    requires Pruned(p, u, x, y, k, days, now) && k < |p.segments| && !p.segments[k].expired
    ensures Pruned(p, u, x, y, k + 1, days, now)
  {
    hide Tells, Identifies, Due;
  }

  /** A rotation whose identity drifted is refused. */
  lemma PruneRefuse(p: Preview, u: Pruning, x: Fs, y: Fs, k: nat, days: int, now: Instant)
    requires Pruned(p, u, x, y, k, days, now) && k < |p.segments|
    ensures Pruned(p, RefusedMore(u, p.segments[k].sequence), x, y, k + 1, days, now)
  {
    hide Tells, Identifies, Due, RefusedIn, RemovedIn;
    RefusedGrows(u.refused, Refused(p.segments[k].sequence, RETENTION));
  }

  lemma PruneRemove(p: Preview, u: Pruning, x: Fs, y: Fs, z: Fs, k: nat, days: int, now: Instant)
    requires Truthful(p, x, days, now) && Pruned(p, u, x, y, k, days, now) && k < |p.segments| && p.segments[k].expired
    requires z.dir == y.dir - {Rotated(p.segments[k].sequence)} && z.files == y.files
    ensures Pruned(p, RemovedMore(u, p.segments[k]), x, z, k + 1, days, now)
  {
    hide Tells, Identifies, Due, RefusedIn, RemovedIn;
    var g := p.segments[k];
    DueGone(x, y, z, days, now, g);
    RemovalIsTrue(u, x, y, z, days, now, g);
    RemovedGrows(u.removed, g);
    forall i | k + 1 <= i < |p.segments|
      ensures p.segments[i].sequence in p.validated
      ensures Identifies(z, p.segments[i].sequence, p.validated[p.segments[i].sequence])
    {
      StillIdentified(y, z, g.sequence, p.segments[i].sequence, p.validated[p.segments[i].sequence]);
    }
  }

  lemma DueGone(x: Fs, y: Fs, z: Fs, days: int, now: Instant, g: Retained)
    requires OnlyDueGone(x, y, days, now) && Tells(x, days, now, g) && g.expired
    requires z.dir == y.dir - {Rotated(g.sequence)} && z.files == y.files
    ensures OnlyDueGone(x, z, days, now)
  {
    hide Certifiable, Effective;
    assert Due(x, g.sequence, days, now);
  }

  lemma RemovedGrows(removed: seq<Retained>, g: Retained)
    ensures RemovedIn(removed + [g], g.sequence) && forall q | RemovedIn(removed, q) :: RemovedIn(removed + [g], q)
  {
    assert (removed + [g])[|removed|] == g;
    forall q | RemovedIn(removed, q) ensures RemovedIn(removed + [g], q) {
      var i :| 0 <= i < |removed| && removed[i].sequence == q;
      assert (removed + [g])[i].sequence == q;
    }
  }

  lemma RemovalIsTrue(u: Pruning, x: Fs, y: Fs, z: Fs, days: int, now: Instant, g: Retained)
    requires TrueRemovals(u, x, y, days, now) && Tells(x, days, now, g) && g.expired
    requires forall i | 0 <= i < |u.removed| :: u.removed[i].sequence < g.sequence
    requires z.dir == y.dir - {Rotated(g.sequence)}
    ensures TrueRemovals(RemovedMore(u, g), x, z, days, now)
  {
    hide Tells, RemovedIn;
    RemovedGrows(u.removed, g);
  }

  lemma StillIdentified(y: Fs, z: Fs, gone: int, q: int, id: Identity)
    requires Identifies(y, q, id) && q != gone && z.dir == y.dir - {Rotated(gone)} && z.files == y.files
    ensures Identifies(z, q, id)
  {
    var i := y.dir[Rotated(q)];
    SubsetSmaller({Rotated(q)}, set n <- z.dir.Keys | z.dir[n] == i);
    SubsetSmaller(set n <- z.dir.Keys | z.dir[n] == i, set n <- y.dir.Keys | y.dir[n] == i);
  }

  lemma FewerNamesWellFormed(x: Fs, y: Fs, days: int, now: Instant)
    requires WellFormed(x) && OnlyDueGone(x, y, days, now)
    ensures WellFormed(y)
  {
    hide Due;
  }

  lemma DueIsTold(x: Fs, days: int, now: Instant, g: Retained)
    requires Tells(x, days, now, g) && g.expired
    ensures Due(x, g.sequence, days, now)
  {
    hide Certifiable, Effective;
  }

  /** The pruning state of a pass that began at `x`. */
  ghost predicate Prunes(p: Preview, u: Pruning, x: Snap, y: Snap, k: nat, days: int, now: Instant, gone: set<int>) {
    && Pruned(p, u, x.fs, y.fs, k, days, now) && (forall q <- gone :: Due(x.fs, q, days, now))
    && (Started(x) ==> Reduced(x, true, y, gone) && y.Calm() && Booked(y))
  }

  /** One validated, expired rotation deleted or refused. */
  method PruneNext(disk: Disk, p: Preview, u: Pruning, k: nat, days: int, now: Instant, ghost x: Snap, ghost gone: set<int>)
    returns (r: Result<Pruning, Code>, ghost gone': set<int>)
    requires disk.alive && WellFormed(x.fs) && Truthful(p, x.fs, days, now)
    requires Prunes(p, u, x, disk.Now(), k, days, now, gone) && k < |p.segments| && p.segments[k].expired
    modifies disk
    ensures disk.faults >= old(disk.faults) && forall q <- gone' :: Due(x.fs, q, days, now)
    ensures r.Success? ==> disk.alive && Prunes(p, r.value, x, disk.Now(), k + 1, days, now, gone')
    ensures disk.alive ==> OnlyDueGone(x.fs, disk.s, days, now)
    ensures Started(x) ==> Reduced(x, disk.alive, disk.Now(), gone')
    ensures disk.alive && disk.faults == old(disk.faults) ==> r.Success? && r.value.refused == u.refused
  {
    hide Halted, Snap.Ok, Reduced, Booked, Identifies, Due, Truthful, Tells, Pruned, OnlyDueGone, Snap.Calm;
    var g := p.segments[k];
    ghost var y := disk.Now();
    PrunedParts(p, u, x.fs, y.fs, k, days, now);
    assert Tells(x.fs, days, now, g) by { TruthfulAt(p, x.fs, days, now, k); }
    DueIsTold(x.fs, days, now, g);
    FewerNamesWellFormed(x.fs, y.fs, days, now);
    gone' := gone + {g.sequence};
    if Started(x) { ReducedIsOk(x, y, gone); }
    var unlinked := UnlinkVerified(disk, g.sequence, p.validated[g.sequence]);
    if Started(x) { ReducedTransitive(x, y, disk.alive, disk.Now(), gone, {g.sequence}); }
    if unlinked.Failure? {
      if disk.alive && disk.s.dir != y.fs.dir { DueGone(x.fs, y.fs, disk.s, days, now, g); }
      if disk.alive && disk.s.dir == y.fs.dir { SameGone(x.fs, y.fs, disk.s, days, now); }
      return Failure(unlinked.error), gone';
    }
    var v := if unlinked.value then RemovedMore(u, g) else RefusedMore(u, g.sequence);
    if unlinked.value {
      PruneRemove(p, u, x.fs, y.fs, disk.s, k, days, now);
    } else {
      PruneRefuse(p, u, x.fs, y.fs, k, days, now);
    }
    PrunedParts(p, v, x.fs, disk.s, k + 1, days, now);
    r := Success(v);
  }

  lemma PrunedParts(p: Preview, u: Pruning, x: Fs, y: Fs, k: nat, days: int, now: Instant)
    requires Pruned(p, u, x, y, k, days, now)
    ensures OnlyDueGone(x, y, days, now)
    ensures k < |p.segments| ==>
      p.segments[k].sequence in p.validated && Identifies(y, p.segments[k].sequence, p.validated[p.segments[k].sequence])
  {
    hide Due, Tells, Identifies, OnlyDueGone;
  }

  lemma TruthfulAt(p: Preview, s: Fs, days: int, now: Instant, k: nat)
    requires Truthful(p, s, days, now) && k < |p.segments|
    ensures Tells(s, days, now, p.segments[k])
  {
    hide Tells, Identifies;
  }

  lemma SameGone(x: Fs, y: Fs, z: Fs, days: int, now: Instant)
    requires OnlyDueGone(x, y, days, now) && z.dir == y.dir && z.files == y.files
    ensures OnlyDueGone(x, z, days, now)
  {
    hide Due;
  }

  lemma ReducedIsOk(x: Snap, y: Snap, gone: set<int>)
    requires Reduced(x, true, y, gone)
    ensures y.Ok()
  {
  }

  /** `_prune_expired_closed`. */
  method PruneExpired(disk: Disk, days: int, now: Instant) returns (r: Result<Pruning, Code>, ghost gone: set<int>)
    requires disk.alive && WellFormed(disk.s)
    modifies disk
    ensures disk.faults >= old(disk.faults) && forall q <- gone :: Due(old(disk.s), q, days, now)
    ensures disk.alive ==> OnlyDueGone(old(disk.s), disk.s, days, now)
    ensures old(Started(disk.Now())) ==>
      Reduced(old(disk.Now()), disk.alive, disk.Now(), gone) && (r.Success? ==> disk.Now().Calm() && Booked(disk.Now()))
    ensures r.Success? ==>
      && disk.alive && 1 <= days <= MAX_LOG_RETENTION_DAYS
      && TrueRemovals(r.value, old(disk.s), disk.s, days, now)
      && forall q | Rotated(q) in disk.s.dir :: RefusedIn(r.value.refused, q) || Unexpired(old(disk.s), q, days, now)
    ensures r.Success? && disk.faults == old(disk.faults) ==>
      forall q :: RefusedIn(r.value.refused, q) ==> !Certifiable(old(disk.s), q)
    ensures disk.alive && disk.faults == old(disk.faults) ==> (r.Success? <==> MayList(old(disk.s), days))
  {
    hide Halted, Snap.Ok, Reduced, Booked, Due, Truthful, Prunes, Listed, RefusedIn, Certifiable, OnlyDueGone, Outcome;
    hide TrueRemovals, Unexpired, Snap.Calm, MayList;
    ghost var x := disk.Now();
    gone := {};
    NothingGone(x, days, now);
    var preview := PreviewLocked(disk, days, now);
    if Started(x) {
      OutcomeReflexive(x);
      OutcomeThenNoEffect(x, x, disk.alive, disk.Now());
      OutcomeIsReduced(x, disk.alive, disk.Now(), {});
    }
    if preview.Failure? {
      return Failure(preview.error), gone;
    }
    var p := preview.value;
    var u := Pruning([], p.refused);
    PrunesStart(p, x, days, now);
    ghost var previewed := disk.faults;
    for k := 0 to |p.segments|
      invariant disk.alive && disk.faults >= previewed && Prunes(p, u, x, disk.Now(), k, days, now, gone)
      invariant disk.faults == old(disk.faults) ==> u.refused == p.refused && MayList(x.fs, days)
    {
      if p.segments[k].expired {
        var next, more := PruneNext(disk, p, u, k, days, now, x, gone);
        gone := more;
        if next.Failure? {
          return Failure(next.error), gone;
        }
        u := next.value;
      } else {
        PrunesSkip(p, u, x, disk.Now(), k, days, now, gone);
      }
    }
    PrunesEnd(p, u, x, disk.Now(), days, now, gone);
    r := Success(u);
  }

  lemma NothingGone(x: Snap, days: int, now: Instant)
    ensures OnlyDueGone(x.fs, x.fs, days, now)
  {
  }

  lemma PrunesStart(p: Preview, x: Snap, days: int, now: Instant)
    requires Truthful(p, x.fs, days, now)
    ensures Prunes(p, Pruning([], p.refused), x, x, 0, days, now, {})
  {
    hide Truthful, Pruned, Reduced, Outcome, Snap.Ok;
    PruneStart(p, x.fs, days, now);
    if Started(x) {
      OutcomeReflexive(x);
      OutcomeIsReduced(x, true, x, {});
    }
  }

  lemma PrunesSkip(p: Preview, u: Pruning, x: Snap, y: Snap, k: nat, days: int, now: Instant, gone: set<int>)
    requires Prunes(p, u, x, y, k, days, now, gone) && k < |p.segments| && !p.segments[k].expired
    ensures Prunes(p, u, x, y, k + 1, days, now, gone)
  {
    hide Truthful, Pruned, Reduced, Outcome, Snap.Ok, Due;
    PruneSkip(p, u, x.fs, y.fs, k, days, now);
  }

  lemma PrunesEnd(p: Preview, u: Pruning, x: Snap, y: Snap, days: int, now: Instant, gone: set<int>)
    requires Prunes(p, u, x, y, |p.segments|, days, now, gone) && Truthful(p, x.fs, days, now)
    requires forall q | Rotated(q) in x.fs.dir :: Listed(p, q) || RefusedIn(p.refused, q)
    ensures (forall q <- gone :: Due(x.fs, q, days, now)) && OnlyDueGone(x.fs, y.fs, days, now)
    ensures TrueRemovals(u, x.fs, y.fs, days, now)
    ensures Started(x) ==> Reduced(x, true, y, gone) && y.Calm() && Booked(y)
    ensures forall q | Rotated(q) in y.fs.dir :: RefusedIn(u.refused, q) || Unexpired(x.fs, q, days, now)
  {
    hide Reduced, Outcome, Snap.Ok, Due, Identifies, RefusedIn, RemovedIn, Effective, Certifiable, TrueRemovals, Booked;
    forall q | Rotated(q) in y.fs.dir ensures RefusedIn(u.refused, q) || Unexpired(x.fs, q, days, now) {
      assert Rotated(q) in x.fs.dir;
      if !RefusedIn(p.refused, q) {
        var i :| 0 <= i < |p.segments| && p.segments[i].sequence == q;
        assert Tells(x.fs, days, now, p.segments[i]);
      }
    }
  }

  // ---- the active segment ----------------------------------------------------------------------------------------------------

  /** The active segment's status at the start of a pass; `code` says why it could not be authenticated. */
  datatype Status = Status(sequence: Option<int>, effective: Option<Instant>, expired: bool, rotated: bool, code: Option<Code>)

  /** The state was read from the settled active segment of `s`. */
  ghost predicate ReadFrom(a: ActiveState, s: Fs) {
    && Settled(s) && Current in s.dir && a.inode == s.dir[Current] && a.tally.Exact()
    && a.tally.digested == s.files[s.dir[Current]].data
  }

  /** The active segment is authentic and its effective deadline has passed. */
  ghost predicate ActiveDue(s: Fs, q: int, days: int, now: Instant) {
    && Settled(s) && Current in s.dir
    && var h := HeaderOfData(s.files[s.dir[Current]].data);
       && h.Some? && h.value.sequence == q
       && Effective(h.value, days).Some? && Effective(h.value, days).value <= now
  }

  /** If the active segment is authentic, its effective deadline does not overflow. */
  ghost predicate ActiveRepresentable(s: Fs, days: int) {
    Settled(s) && Current in s.dir ==>
      && s.dir[Current] in s.files
      && var h := HeaderOfData(s.files[s.dir[Current]].data); h.Some? && Effective(h.value, days).Some?
  }

  /** What the status of the active segment tells of the directory it was taken of; `clean` when no call failed. */
  ghost predicate Assessed(
    active: Option<Status>, state: Option<ActiveState>, s: Fs, days: int, now: Instant, clean: bool) {
    && (active.None? ==> Settled(s) && Current !in s.dir && state.None?)
    && (active.Some? ==>
          var status := active.value;
          && !status.rotated && (status.code.None? <==> state.Some?)
          && (status.code.Some? ==>
                !status.expired && status.sequence.None? && status.effective.None? && (clean ==> !Settled(s))))
    && (state.Some? ==>
          var h := state.value.tally.header;
          && ReadFrom(state.value, s) && Effective(h, days).Some?
          && active == Some(Status(Some(h.sequence), Effective(h, days), Effective(h, days).value <= now, false, None)))
    && (clean ==> ActiveRepresentable(s, days))
  }

  /** `_active_status`. */
  method ActiveStatus(disk: Disk, days: int, now: Instant)
    returns (r: Result<(Option<Status>, Option<ActiveState>), Code>)
    requires disk.alive
    modifies disk
    ensures disk.NoEffect() && disk.faults >= old(disk.faults)
    ensures r.Success? ==>
      disk.alive && Assessed(r.value.0, r.value.1, disk.s, days, now, disk.faults == old(disk.faults))
    ensures disk.alive && disk.faults == old(disk.faults) ==> (r.Success? <==> ActiveRepresentable(disk.s, days))
  {
    hide Halted, Settled, Tally.Exact, Effective, Deadline, IsOpen, HeaderOfData, SplitLines, Events;
    var active, rotated := Authenticate(disk);
    if !disk.alive {
      return Failure(UNCODED);
    }
    if active.Failure? {
      if active.error == UNCODED {
        return Failure(UNCODED);
      }
      return Success((Some(Status(None, None, false, false, Some(active.error))), None));
    }
    if active.value.None? {
      return Success((None, None));
    }
    var a := active.value.value;
    ActiveHeader(a, disk.s);
    var effective := Effective(a.tally.header, days);
    if effective.None? {
      return Failure(RETENTION);
    }
    var status := Status(Some(a.tally.header.sequence), effective, effective.value <= now, false, None);
    r := Success((Some(status), Some(a)));
  }

  lemma ActiveHeader(a: ActiveState, s: Fs)
    requires ReadFrom(a, s)
    ensures Current in s.dir && s.dir[Current] in s.files && HeaderOfData(s.files[s.dir[Current]].data) == Some(a.tally.header)
  {
    hide IsOpen, HeaderOfData, SplitLines, Events;
  }

  /** The segment `a` is still the active one, alone and unchanged. */
  ghost predicate StillActive(a: ActiveState, s: Fs) {
    && a.tally.Exact() && Coherent(s, a.inode, |a.tally.digested|) && s.files[a.inode].data == a.tally.digested
    && |a.tally.digested| <= MAX_SEGMENT_BYTES
  }

  /** Deleting rotations leaves the active segment as it was read. */
  lemma StillActiveAfterPruning(a: ActiveState, x: Fs, y: Fs, days: int, now: Instant)
    requires ReadFrom(a, x) && OnlyDueGone(x, y, days, now)
    ensures StillActive(a, y) && Rotated(a.tally.header.sequence) !in y.dir && Above(a.tally.header.sequence, y.dir)
  {
    hide Due, IsOpen, HeaderOfData, SplitLines, Events;
    var i := a.inode;
    SubsetSmaller({Current}, set n <- y.dir.Keys | y.dir[n] == i);
    SubsetSmaller(set n <- y.dir.Keys | y.dir[n] == i, set n <- x.dir.Keys | x.dir[n] == i);
  }

  /** `_close_and_rotate_active`: the same crash order as a live rotation, with the helper recovery uses. */
  method CloseDueActive(disk: Disk, a: ActiveState, now: Instant) returns (r: Option<Code>)
    requires disk.alive && StillActive(a, disk.s) && InRange(now)
    modifies disk
    ensures disk.faults >= old(disk.faults)
    ensures old(Started(disk.Now())) && |Rotations(old(disk.s.dir))| < MAX_ROTATIONS ==>
      Outcome(old(disk.Now()), disk.alive, disk.Now()) && (r.None? ==> disk.Now().Calm() && Booked(disk.Now()))
    ensures r.None? ==>
      && disk.alive && Moved(old(disk.s), disk.s, a.inode, a.tally.header.sequence)
      && ClosedCopy(disk.s.files[a.inode].data, a.tally, now)
    ensures
      && disk.alive && disk.faults == old(disk.faults) && Rotated(a.tally.header.sequence) !in old(disk.s.dir)
      && TallyTrailer(a.tally, now).Some?
      ==> r.None?
  {
    hide Halted, Snap.Ok, Booked, Outcome, Safe, Closable, ReadyToRotate, Active, Snap.Calm, Tally.Exact, TrailerLine;
    hide Links, Rotations, World;
    ghost var x := disk.Now();
    ghost var ready := Started(x) && |Rotations(x.fs.dir)| < MAX_ROTATIONS;
    if ready { OutcomeReflexive(x); }
    var trailer := TallyTrailer(a.tally, now);
    if trailer.None? {
      return Some(RETENTION);
    }
    TallyTrailerValid(a.tally, now);
    var t := trailer.value;
    if ready {
      CoherentIsActive(x, a.inode, a.tally);
      ReadyToClose(x, a.inode, a.tally, now);
    }
    var named := disk.StatName(Current);
    if ready { OutcomeThenNoEffect(x, x, disk.alive, disk.Now()); }
    if !named.Found? {
      return Some(OPEN);
    }
    if named.links != 1 {
      return Some(FILE);
    }
    r := CloseThenRotate(disk, a, t, ready);
  }

  method CloseThenRotate(disk: Disk, a: ActiveState, t: Trailer, ghost ready: bool) returns (r: Option<Code>)
    requires disk.alive && Current in disk.s.dir && disk.s.dir[Current] == a.inode && a.inode in disk.s.files
    requires t.Valid() && t.sequence == a.tally.header.sequence
    requires ready ==> Started(disk.Now()) && Closable(disk.Now(), a.inode, a.tally.digested, t)
    modifies disk
    ensures disk.faults >= old(disk.faults)
    ensures ready ==>
      Outcome(old(disk.Now()), disk.alive, disk.Now()) && (r.None? ==> disk.Now().Calm() && Booked(disk.Now()))
    ensures r.None? ==>
      && disk.alive && Moved(old(disk.s), disk.s, a.inode, a.tally.header.sequence)
      && disk.s.files[a.inode].data == old(disk.s.files[a.inode].data) + TrailerLine(t)
    ensures disk.alive && disk.faults == old(disk.faults) && Rotated(a.tally.header.sequence) !in old(disk.s.dir) ==> r.None?
  {
    hide Halted, Snap.Ok, Booked, Outcome, Safe, Closable, ReadyToRotate, Snap.Calm, TrailerLine;
    ghost var x := disk.Now();
    var ok := CloseSegment(disk, a.inode, t, a.tally.digested);
    ghost var y := disk.Now();
    if ready { SafeIsOutcome(x, disk.alive, y); }
    if !ok {
      return Some(ROTATE);
    }
    if ready { ReadyIsOk(y, t.sequence); }
    var completion := CompleteRotation(disk, t.sequence, a.inode, 1);
    if ready {
      SafeIsOutcome(y, disk.alive, disk.Now());
      OutcomeTransitive(x, y, disk.alive, disk.Now());
    }
    r := if completion.None? then None else Some(ROTATE);
  }

  // ---- retention_apply ----------------------------------------------------------------------------------------------------------

  datatype RetentionReport = RetentionReport(segments: seq<Retained>, refused: seq<Refused>, active: Option<Status>)

  /** One more removal is reported, with the deadlines of header `h`, exactly if its rotation is gone from `y`. */
  ghost predicate MoreRemoved(u: seq<Retained>, v: seq<Retained>, h: Header, y: Fs, days: int, now: Instant) {
    if Rotated(h.sequence) in y.dir then v == u
    else |v| == |u| + 1 && v[..|u|] == u && Told(h, days, now, v[|u|]) && v[|u|].expired
  }

  /** The refusals of before, and at most that of `q`. */
  ghost predicate RefusedAtMost(u: seq<Refused>, v: seq<Refused>, q: int) {
    (forall f | RefusedIn(u, f) :: RefusedIn(v, f)) && forall f | RefusedIn(v, f) :: RefusedIn(u, f) || f == q
  }

  lemma RefusedNoMore(u: seq<Refused>, q: int)
    ensures RefusedAtMost(u, u, q)
  {
  }

  lemma RefusedOneMore(u: seq<Refused>, f: Refused)
    ensures RefusedAtMost(u, u + [f], f.sequence) && RefusedIn(u + [f], f.sequence)
  {
    RefusedGrows(u, f);
    forall q | RefusedIn(u + [f], q) ensures RefusedIn(u, q) || q == f.sequence {
      var i :| 0 <= i < |u| + 1 && (u + [f])[i].sequence == q;
      if i < |u| { assert u[i].sequence == q; }
    }
  }

  /** `_prune_specific_rotation`: the just-closed rotation, deleted when due, else refused. */
  method PruneSpecific(disk: Disk, q: int, u: Pruning, days: int, now: Instant) returns (r: Result<Pruning, Code>)
    requires disk.alive && WellFormed(disk.s)
    modifies disk
    ensures disk.faults >= old(disk.faults)
    ensures old(Started(disk.Now())) ==>
      Reduced(old(disk.Now()), disk.alive, disk.Now(), {q}) && (r.Success? ==> disk.Now().Calm() && Booked(disk.Now()))
    ensures r.Success? ==> disk.alive && RefusedAtMost(u.refused, r.value.refused, q)
    ensures r.Success? ==>
      && (if Certifiable(old(disk.s), q)
          then MoreRemoved(u.removed, r.value.removed, HeaderUnder(old(disk.s), q), disk.s, days, now)
          else r.value.removed == u.removed)
      && if Rotated(q) in disk.s.dir then disk.s == old(disk.s) && RefusedIn(r.value.refused, q)
         else
           && disk.s.dir == old(disk.s.dir) - {Rotated(q)} && disk.s.files == old(disk.s.files)
           && (Rotated(q) in old(disk.s.dir) ==> Due(old(disk.s), q, days, now))
    ensures r.Success? && disk.faults == old(disk.faults) && Due(old(disk.s), q, days, now) ==> Rotated(q) !in disk.s.dir
    ensures disk.alive && disk.faults == old(disk.faults) ==> (r.Success? <==> RepresentableAt(old(disk.s), q, days))
  {
    hide Halted, Snap.Ok, Booked, Outcome, Reduced, Certifiable, Identifies, Effective, Deadline, Snap.Calm, RefusedIn;
    ghost var x := disk.Now();
    ghost var ready := Started(x);
    if ready { OutcomeReflexive(x); }
    if Certifiable(disk.s, q) { CertifiableIsThere(disk.s, q); }
    var read := ReadClosed(disk, q);
    if ready {
      OutcomeThenNoEffect(x, x, disk.alive, disk.Now());
      OutcomeIsReduced(x, disk.alive, disk.Now(), {q});
    }
    if !disk.alive {
      return Failure(RETENTION);
    }
    if read.Failure? {
      RefusedOneMore(u.refused, Refused(q, read.error));
      return Success(u.(refused := u.refused + [Refused(q, read.error)]));
    }
    var v := read.value;
    var effective := Effective(v.header, days);
    if effective.None? {
      return Failure(UNCODED);
    }
    if effective.value > now {
      RefusedOneMore(u.refused, Refused(q, RETENTION));
      return Success(RefusedMore(u, q));
    }
    var unlinked := UnlinkVerified(disk, q, v.identity);
    if ready { ReducedTransitive(x, x, disk.alive, disk.Now(), {q}, {q}); }
    assert {q} + {q} == {q};
    if unlinked.Failure? {
      return Failure(unlinked.error);
    }
    if !unlinked.value {
      RefusedOneMore(u.refused, Refused(q, RETENTION));
      return Success(RefusedMore(u, q));
    }
    r := Success(RemovedMore(u, Retained(q, v.expiresAt, effective.value, true)));
  }

  /** The directory after a due segment was retired: its successor is active, and it is gone or refused. */
  ghost predicate Retired(x: Fs, y: Fs, h: Header, u: Pruning, v: Pruning, now: Instant, days: int) {
    var q := h.sequence;
    && MoreRemoved(u.removed, v.removed, h, y, days, now)
    && (forall p | p != q :: Rotated(p) in y.dir <==> Rotated(p) in x.dir)
    && (Rotated(q) in y.dir ==> RefusedIn(v.refused, q))
    && Current in y.dir && y.dir[Current] !in x.files && y.dir[Current] in y.files
    && y.files[y.dir[Current]] == HeaderFile(Header(q + 1, now, days))
  }

  /** Closing the due active segment, publishing its successor, and deleting it in the same pass; blocked at the
      rotation bound. */
  method RetireDue(disk: Disk, a: ActiveState, u: Pruning, days: int, now: Instant)
    returns (r: Result<(Pruning, bool), Code>)
    requires disk.alive && WellFormed(disk.s) && StillActive(a, disk.s) && InRange(now)
    requires Rotated(a.tally.header.sequence) !in disk.s.dir && Above(a.tally.header.sequence, disk.s.dir)
    requires 1 <= days <= MAX_LOG_RETENTION_DAYS && Staging !in disk.s.dir
    requires Effective(a.tally.header, days).Some? && Effective(a.tally.header, days).value <= now
    modifies disk
    ensures disk.faults >= old(disk.faults)
    ensures old(Started(disk.Now())) ==>
      Reduced(old(disk.Now()), disk.alive, disk.Now(), {a.tally.header.sequence}) && (r.Success? ==> disk.Now().Calm())
    ensures disk.alive && disk.faults == old(disk.faults) ==>
      && (r.Success? <==> |Rotations(old(disk.s.dir))| >= MAX_ROTATIONS || a.tally.header.sequence < MAX_CANONICAL_INT)
      && (r.Success? ==> (r.value.1 <==> |Rotations(old(disk.s.dir))| < MAX_ROTATIONS))
      && (r.Success? && r.value.1 && |a.tally.digested| + MAX_TRAILER_LINE_BYTES <= MAX_SEGMENT_BYTES ==>
            Rotated(a.tally.header.sequence) !in disk.s.dir)
    ensures r.Success? ==>
      && disk.alive && RefusedAtMost(u.refused, r.value.0.refused, a.tally.header.sequence)
      && if r.value.1
         then Retired(old(disk.s), disk.s, a.tally.header, u, r.value.0, now, days)
         else |Rotations(disk.s.dir)| >= MAX_ROTATIONS && disk.s == old(disk.s) && r.value.0 == u
  {
    hide Halted, Snap.Ok, Booked, Outcome, Reduced, Due, Snap.Calm, RefusedIn, StillActive, Safe, ReadyToPublish;
    hide Rotations, HeaderLine, Above, Published, Moved, Retired, WellFormed, MoreRemoved, Links, ClosedCopy;
    hide RefusedAtMost, Effective, MAX_CANONICAL_INT, RepresentableAt;
    ghost var x := disk.Now();
    ghost var q := a.tally.header.sequence;
    RetiresWithTrailer(a, disk.s, days, now);
    ghost var ready := Started(x);
    if ready { OutcomeReflexive(x); }
    var rotated := disk.ScanRotated();
    if ready { OutcomeThenNoEffect(x, x, disk.alive, disk.Now()); OutcomeIsReduced(x, disk.alive, disk.Now(), {q}); }
    if rotated.None? {
      return Failure(UNCODED);
    }
    if |rotated.value| >= MAX_ROTATIONS {
      RefusedNoMore(u.refused, q);
      return Success((u, false));
    }
    var closed := CloseDueActive(disk, a, now);
    ghost var y := disk.Now();
    if ready { OutcomeIsReduced(x, disk.alive, y, {q}); }
    if closed.Some? {
      return Failure(closed.value);
    }
    MovedIsWellFormed(x.fs, y.fs, a);
    if ready {
      OutcomeIsOk(x, y);
      MovedIsReady(x, y, a);
    }
    var v := Succeed(disk, a, u, days, now, x.fs);
    if ready { ReducedTransitive(x, y, disk.alive, disk.Now(), {q}, {q}); }
    assert {q} + {q} == {q};
    r := if v.Success? then Success((v.value, true)) else Failure(v.error);
  }

  /** The successor of the segment just closed is published, and that segment deleted. */
  method Succeed(disk: Disk, a: ActiveState, u: Pruning, days: int, now: Instant, ghost x: Fs)
    returns (r: Result<Pruning, Code>)
    requires disk.alive && WellFormed(disk.s) && InRange(now) && 1 <= days <= MAX_LOG_RETENTION_DAYS
    requires StillActive(a, x) && a.tally.header.sequence >= 1 && Rotated(a.tally.header.sequence) !in x.dir
    requires Effective(a.tally.header, days).Some? && Effective(a.tally.header, days).value <= now
    requires Moved(x, disk.s, a.inode, a.tally.header.sequence)
    requires a.inode in disk.s.files && ClosedCopy(disk.s.files[a.inode].data, a.tally, now)
    modifies disk
    ensures disk.faults >= old(disk.faults)
    ensures old(Started(disk.Now()) && ReadyToPublish(disk.Now(), a.tally.header.sequence + 1)) ==>
      Reduced(old(disk.Now()), disk.alive, disk.Now(), {a.tally.header.sequence}) && (r.Success? ==> disk.Now().Calm())
    ensures r.Success? ==>
      && disk.alive && RefusedAtMost(u.refused, r.value.refused, a.tally.header.sequence)
      && Retired(x, disk.s, a.tally.header, u, r.value, now, days)
    ensures disk.alive && disk.faults == old(disk.faults) && Staging !in old(disk.s.dir) ==>
      && (r.Success? <==> a.tally.header.sequence < MAX_CANONICAL_INT)
      && (r.Success? && |a.tally.digested| + MAX_TRAILER_LINE_BYTES <= MAX_SEGMENT_BYTES ==>
            Rotated(a.tally.header.sequence) !in disk.s.dir)
  {
    hide Halted, Snap.Ok, Booked, Outcome, Reduced, Due, Snap.Calm, RefusedIn, StillActive, Safe, ReadyToPublish;
    hide Rotations, HeaderLine, Above, Published, Moved, Retired, WellFormed, MoreRemoved, Links, ClosedCopy;
    hide RefusedAtMost, Effective, MAX_CANONICAL_INT, RepresentableAt;
    ghost var y := disk.Now();
    ghost var q := a.tally.header.sequence;
    ghost var ready := Started(y) && ReadyToPublish(y, q + 1);
    var published := PublishFreshCurrent(disk, a.tally.header.sequence + 1, now, days);
    ghost var z := disk.Now();
    if ready {
      SafeIsOutcome(y, disk.alive, z);
      OutcomeIsReduced(y, disk.alive, z, {q});
    }
    if published.Failure? {
      return Failure(published.error);
    }
    SuccessorIsWellFormed(y.fs, z.fs, published.value);
    RetiredIsDue(x, y.fs, z.fs, a, published.value, days, now);
    if ready { ReducedIsOk(y, z, {q}); }
    r := PruneSpecific(disk, a.tally.header.sequence, u, days, now);
    if ready { ReducedTransitive(y, z, disk.alive, disk.Now(), {q}, {q}); }
    assert {q} + {q} == {q};
    if r.Success? { RetiredNow(x, y.fs, z.fs, disk.s, a, published.value, u, r.value, now, days); }
  }

  lemma CertifiableIsThere(s: Fs, q: int)
    requires Certifiable(s, q)
    ensures Rotated(q) in s.dir && HeaderUnder(s, q).sequence == q
  {
    hide IsClosed, HeaderOfData;
  }

  lemma RetiresWithTrailer(a: ActiveState, s: Fs, days: int, now: Instant)
    requires StillActive(a, s) && Effective(a.tally.header, days).Some? && InRange(now)
    ensures TallyTrailer(a.tally, now).Some?
  {
    hide Tally.Exact, BoundedExpiry;
    TallyFacts(a.tally);
  }

  /** The segment just closed is certified under its rotated name, if the trailer fits, and due. */
  lemma RetiredIsDue(x: Fs, y: Fs, z: Fs, a: ActiveState, h: Header, days: int, now: Instant)
    requires StillActive(a, x) && Moved(x, y, a.inode, a.tally.header.sequence) && Published(y, z, h) && InRange(now)
    requires ClosedCopy(y.files[a.inode].data, a.tally, now) && Rotated(a.tally.header.sequence) !in x.dir
    requires Effective(a.tally.header, days).Some? && Effective(a.tally.header, days).value <= now
    ensures RepresentableAt(z, a.tally.header.sequence, days)
    ensures |a.tally.digested| + MAX_TRAILER_LINE_BYTES <= MAX_SEGMENT_BYTES ==> Due(z, a.tally.header.sequence, days, now)
    ensures Certifiable(z, a.tally.header.sequence) ==> HeaderUnder(z, a.tally.header.sequence) == a.tally.header
    ensures Rotated(a.tally.header.sequence) in z.dir
  {
    hide IsOpen, IsClosed, HeaderOfData, Events, SplitLines, TrailerFor, BoundedExpiry, Trailer.Valid, TrailerLine;
    hide Effective, HeaderLine;
    var t := a.tally;
    var q := t.header.sequence;
    TallyTrailerIsTheirs(t, now);
    CloseCertifies(t.digested, t.header, t.last, now);
    TrailerLineLength(TallyTrailer(t, now).value);
    SingleAfterMove(x, y, z, a.inode, q, h);
  }

  lemma SingleAfterMove(x: Fs, y: Fs, z: Fs, i: Inode, q: int, h: Header)
    requires Current in x.dir && x.dir[Current] == i && Links(x.dir, i) == 1
    requires Moved(x, y, i, q) && Published(y, z, h)
    ensures Rotated(q) in z.dir && z.dir[Rotated(q)] == i && i in z.files && z.files[i] == y.files[i] && Links(z.dir, i) == 1
  {
    hide HeaderLine;
    var names := set n <- x.dir.Keys | x.dir[n] == i;
    forall n <- x.dir.Keys | x.dir[n] == i ensures n == Current {
      if n != Current { SubsetSmaller({Current, n}, names); }
    }
    assert (set n <- z.dir.Keys | z.dir[n] == i) == {Rotated(q)};
  }

  lemma RetiredNow(
    x: Fs, y: Fs, z: Fs, w: Fs, a: ActiveState, h: Header, u: Pruning, v: Pruning, now: Instant, days: int)
    requires Moved(x, y, a.inode, a.tally.header.sequence) && Published(y, z, h)
    requires h == Header(a.tally.header.sequence + 1, now, days) && Rotated(a.tally.header.sequence) in z.dir
    requires if Certifiable(z, a.tally.header.sequence)
             then MoreRemoved(u.removed, v.removed, a.tally.header, w, days, now) else v.removed == u.removed
    requires Rotated(a.tally.header.sequence) !in w.dir ==> Due(z, a.tally.header.sequence, days, now)
    requires if Rotated(a.tally.header.sequence) in w.dir
             then w == z && RefusedIn(v.refused, a.tally.header.sequence)
             else w.dir == z.dir - {Rotated(a.tally.header.sequence)} && w.files == z.files
    ensures Retired(x, w, a.tally.header, u, v, now, days)
  {
    hide HeaderLine, RefusedIn, Certifiable, Told, Effective;
  }

  lemma MovedIsWellFormed(x: Fs, y: Fs, a: ActiveState)
    requires WellFormed(x) && StillActive(a, x) && Moved(x, y, a.inode, a.tally.header.sequence)
    ensures WellFormed(y) && a.tally.header.sequence >= 1 && Current in x.dir && (Staging in y.dir <==> Staging in x.dir)
    ensures a.inode in y.files
  {
    hide Tally.Exact;
    TallyFacts(a.tally);
  }

  lemma MovedIsReady(x: Snap, y: Snap, a: ActiveState)
    requires x.Ok() && y.Ok() && y.Calm() && Current in x.fs.dir && Moved(x.fs, y.fs, a.inode, a.tally.header.sequence)
    requires Above(a.tally.header.sequence, x.fs.dir)
    ensures ReadyToPublish(y, a.tally.header.sequence + 1)
  {
    hide Snap.Ok;
    OneOfTwo(x);
  }

  lemma SuccessorIsWellFormed(y: Fs, z: Fs, h: Header)
    requires WellFormed(y) && Published(y, z, h)
    ensures WellFormed(z) && (forall p :: Rotated(p) in z.dir <==> Rotated(p) in y.dir)
    ensures Current in z.dir && z.dir[Current] !in y.files
  {
    hide HeaderLine;
  }

  /** The header of the active segment, if it is authentic. */
  ghost function ActiveHeaderOf(s: Fs): Option<Header> {
    if Settled(s) && Current in s.dir && s.dir[Current] in s.files then HeaderOfData(s.files[s.dir[Current]].data) else None
  }

  /** A report entry tells the truth about a rotation of `x`, or about its active segment when that was `rotated`. */
  ghost predicate TellsOf(x: Fs, rotated: bool, days: int, now: Instant, g: Retained) {
    || Tells(x, days, now, g)
    || (rotated && ActiveHeaderOf(x).Some? && Told(ActiveHeaderOf(x).value, days, now, g))
  }

  /** Exactly what a pass deleted is reported, each once, in ascending order, with its true deadlines: the rotations that
      are gone, and the active segment if it was `rotated` and is gone too. */
  ghost predicate Accounts(removed: seq<Retained>, x: Fs, y: Fs, rotated: bool, days: int, now: Instant) {
    && Rising(removed)
    && (forall i | 0 <= i < |removed| ::
         TellsOf(x, rotated, days, now, removed[i]) && removed[i].expired && Rotated(removed[i].sequence) !in y.dir)
    && (forall q | Rotated(q) in x.dir && Rotated(q) !in y.dir :: RemovedIn(removed, q))
    && (rotated && ActiveHeaderOf(x).Some? && Rotated(ActiveHeaderOf(x).value.sequence) !in y.dir ==>
          RemovedIn(removed, ActiveHeaderOf(x).value.sequence))
  }

  lemma ReadHeaderOf(a: ActiveState, x: Fs)
    requires ReadFrom(a, x)
    ensures ActiveHeaderOf(x) == Some(a.tally.header) && Above(a.tally.header.sequence, x.dir)
  {
    hide IsOpen, SplitLines, Events, HeaderOfData, Links;
    ActiveHeader(a, x);
  }

  /** The account of the first half of a pass is that of the whole, if the active segment was not retired. */
  lemma PruningAccounts(u: Pruning, x: Fs, y: Fs, days: int, now: Instant)
    requires TrueRemovals(u, x, y, days, now)
    ensures Accounts(u.removed, x, y, false, days, now)
  {
    hide Tells, RemovedIn, ActiveHeaderOf;
  }

  lemma RetirementAccounts(
    u: Pruning, v: Pruning, a: ActiveState, x: Fs, y: Fs, z: Fs, days: int, now: Instant)
    requires TrueRemovals(u, x, y, days, now) && ReadFrom(a, x) && Rotated(a.tally.header.sequence) !in y.dir
    requires MoreRemoved(u.removed, v.removed, a.tally.header, z, days, now)
    requires forall p | p != a.tally.header.sequence :: Rotated(p) in z.dir <==> Rotated(p) in y.dir
    ensures Accounts(v.removed, x, z, true, days, now)
  {
    hide Certifiable, RemovedIn, ActiveHeaderOf, ReadFrom, Effective, Deadline;
    ReadHeaderOf(a, x);
    RemovedAreEarlier(u, x, y, a.tally.header.sequence, days, now);
    if v != u && Rotated(a.tally.header.sequence) !in z.dir {
      assert v.removed == u.removed + [v.removed[|u.removed|]];
      RemovedGrows(u.removed, v.removed[|u.removed|]);
    }
  }

  /** No reported rotation has the sequence of the active segment, which is above them all. */
  lemma RemovedAreEarlier(u: Pruning, x: Fs, y: Fs, q: int, days: int, now: Instant)
    requires TrueRemovals(u, x, y, days, now) && Above(q, x.dir)
    ensures forall i | 0 <= i < |u.removed| :: u.removed[i].sequence < q
  {
    hide Told, IsClosed, HeaderOfData, RemovedIn;
  }

  /** What `retention_apply` promises when it returns: every rotation still there is unexpired or refused, every
      removal is reported as it was, and the active segment as it is. */
  ghost predicate Applied(x: Fs, y: Fs, report: RetentionReport, days: int, now: Instant) {
    && (forall q | Rotated(q) in y.dir :: RefusedIn(report.refused, q) || Unexpired(x, q, days, now))
    && (forall q | Rotated(q) in x.dir && Rotated(q) !in y.dir :: Due(x, q, days, now))
    && Accounts(report.segments, x, y, report.active.Some? && report.active.value.rotated, days, now)
    && (report.active.None? ==> Current !in y.dir)
    && (report.active.Some? ==>
          var status := report.active.value;
          && StatusOf(status, x, days, now)
          && (status.rotated ==>
                && status.sequence.Some? && ActiveDue(x, status.sequence.value, days, now)
                && Current in y.dir && y.dir[Current] !in x.files && y.dir[Current] in y.files
                && y.files[y.dir[Current]] == HeaderFile(Header(status.sequence.value + 1, now, days)))
          && (!status.rotated && status.code.None? ==>
                Current in y.dir && !status.expired && status.effective.Some? && status.effective.value > now)
          && (status.code.Some? && status.expired ==>
                && status.code == Some(RETENTION_BOUND) && |Rotations(y.dir)| >= 10_000
                && status.sequence.Some? && ActiveDue(x, status.sequence.value, days, now)))
  }

  /** The status names the active segment and its true deadline, or neither if it could not be authenticated. */
  ghost predicate StatusOf(status: Status, x: Fs, days: int, now: Instant) {
    if status.code.None? || status.expired
    then
      && ActiveHeaderOf(x).Some? && status.sequence == Some(ActiveHeaderOf(x).value.sequence)
      && status.effective == Effective(ActiveHeaderOf(x).value, days)
      && status.effective.Some? && (status.expired <==> status.effective.value <= now)
    else status.sequence.None? && status.effective.None? && !status.rotated
  }

  /** The rotations a pass may delete: those due, and the active segment if it is due. */
  ghost predicate MayGo(s: Fs, q: int, days: int, now: Instant) { Due(s, q, days, now) || ActiveDue(s, q, days, now) }

  /** The rotations that are not due. */
  ghost function Remaining(s: Fs, days: int, now: Instant): set<Name> {
    set n <- s.dir.Keys | n.Rotated? && !Due(s, n.sequence, days, now)
  }

  /** When a pass in which no call fails returns: the day count is valid, the rotations can be listed, no deadline
      overflows, and the successor of a due active segment has a sequence left. */
  ghost predicate Returns(s: Fs, days: int, now: Instant) {
    && MayList(s, days) && ActiveRepresentable(s, days)
    && (forall q | ActiveDue(s, q, days, now) :: |Remaining(s, days, now)| < MAX_ROTATIONS ==> q < MAX_CANONICAL_INT)
  }

  /** The active segment leaves room for its trailer. */
  ghost predicate RoomForTrailer(s: Fs) {
    && Current in s.dir && s.dir[Current] in s.files
    && |s.files[s.dir[Current]].data| + MAX_TRAILER_LINE_BYTES <= MAX_SEGMENT_BYTES
  }

  /** What a pass in which no call fails leaves: no due rotation; a due active segment retired and deleted, unless the
      bound is reached by rotations that are not due; and a code for the active segment only then, or because the
      directory was not settled. */
  ghost predicate Thorough(x: Fs, y: Fs, report: RetentionReport, days: int, now: Instant) {
    && Exhaustive(x, y, days, now)
    && (report.active.None? <==> Settled(x) && Current !in x.dir)
    && (report.active.Some? && report.active.value.code.Some? && !report.active.value.expired ==> !Settled(x))
    && (forall q | ActiveDue(x, q, days, now) ::
         && report.active.Some? && report.active.value.sequence == Some(q) && report.active.value.expired
         && if |Remaining(x, days, now)| < MAX_ROTATIONS
            then
              && report.active.value.rotated && report.active.value.code.None?
              && (RoomForTrailer(x) ==> Rotated(q) !in y.dir)
            else
              && !report.active.value.rotated && report.active.value.code == Some(RETENTION_BOUND)
              && y.files == x.files && Current in y.dir && y.dir[Current] == x.dir[Current])
  }

  /** The rotations reclaimed in the first half of a pass from `x`. */
  ghost predicate Reclaimed(u: Pruning, x: Fs, y: Fs, days: int, now: Instant, clean: bool) {
    && WellFormed(x) && OnlyDueGone(x, y, days, now) && TrueRemovals(u, x, y, days, now)
    && (forall q | Rotated(q) in y.dir :: RefusedIn(u.refused, q) || Unexpired(x, q, days, now))
    && 1 <= days <= MAX_LOG_RETENTION_DAYS && (clean ==> Exhaustive(x, y, days, now))
  }

  lemma RotationsLeft(x: Fs, y: Fs, days: int, now: Instant)
    requires OnlyDueGone(x, y, days, now) && Exhaustive(x, y, days, now)
    ensures Rotations(y.dir) == Remaining(x, days, now)
  {
    hide Due;
    forall n <- y.dir.Keys | n.Rotated? ensures !Due(x, n.sequence, days, now) { assert n == Rotated(n.sequence); }
  }

  /** The second half of a pass: the due active segment is retired, or reported blocked. */
  method RetireIfDue(
    disk: Disk, active: Option<Status>, state: Option<ActiveState>, u: Pruning, days: int, now: Instant, ghost x: Fs,
    ghost clean: bool) returns (r: Result<RetentionReport, Code>, ghost gone: set<int>)
    requires disk.alive && InRange(now) && Assessed(active, state, x, days, now, clean)
    requires Reclaimed(u, x, disk.s, days, now, clean)
    modifies disk
    ensures disk.faults >= old(disk.faults) && forall q <- gone :: ActiveDue(x, q, days, now)
    ensures old(Started(disk.Now())) ==>
      Reduced(old(disk.Now()), disk.alive, disk.Now(), gone) && (r.Success? ==> disk.Now().Calm())
    ensures r.Success? ==> disk.alive && Applied(x, disk.s, r.value, days, now)
    ensures r.Success? && clean && disk.faults == old(disk.faults) ==> Thorough(x, disk.s, r.value, days, now)
    ensures disk.alive && clean && disk.faults == old(disk.faults) ==> (r.Success? <==> Dismissible(x, days, now))
  {
    hide Halted, Snap.Ok, Booked, Outcome, Reduced, Due, Snap.Calm, RefusedIn, Unexpired, OnlyDueGone, Applied, ReadFrom;
    hide ActiveDue, TrueRemovals, Retired, Above, RefusedAtMost, MoreRemoved, Exhaustive, Thorough, Assessed, Effective;
    hide Dismissible, Rotations, Settled, WellFormed, StillActive, Reclaimed, MAX_CANONICAL_INT;
    ghost var y := disk.Now();
    gone := {};
    if Started(y) { OutcomeReflexive(y); OutcomeIsReduced(y, true, y, {}); }
    if active.None? || !active.value.expired || state.None? {
      NotRetired(x, y.fs, u, active, state, days, now, clean);
      return Success(RetentionReport(u.removed, u.refused, active)), gone;
    }
    var a := state.value;
    ReadyToRetire(x, y.fs, active, state, u, days, now, clean);
    var retired := RetireDue(disk, a, u, days, now);
    gone := {a.tally.header.sequence};
    if retired.Failure? {
      return Failure(retired.error), gone;
    }
    var v := retired.value.0;
    var last := if retired.value.1 then active.value.(rotated := true) else active.value.(code := Some(RETENTION_BOUND));
    RetiredReport(x, y.fs, disk.s, a, u, v, last, retired.value.1, days, now, clean);
    r := Success(RetentionReport(v.removed, v.refused, Some(last)));
  }

  lemma ReadyToRetire(
    x: Fs, y: Fs, active: Option<Status>, state: Option<ActiveState>, u: Pruning, days: int, now: Instant, clean: bool)
    requires Assessed(active, state, x, days, now, clean) && active.Some? && active.value.expired && state.Some?
    requires Reclaimed(u, x, y, days, now, clean)
    ensures var a := state.value; var q := a.tally.header.sequence;
      && ReadFrom(a, x) && ActiveDue(x, q, days, now)
      && Effective(a.tally.header, days).Some? && Effective(a.tally.header, days).value <= now
      && active.value.sequence == Some(q) && !active.value.rotated && active.value.code.None?
      && active.value.effective == Effective(a.tally.header, days)
      && StillActive(a, y) && Rotated(q) !in y.dir && Above(q, y.dir) && Staging !in y.dir && WellFormed(y)
      && 1 <= days <= MAX_LOG_RETENTION_DAYS
      && (clean ==> (Dismissible(x, days, now) <==> (|Rotations(y.dir)| < MAX_ROTATIONS ==> q < MAX_CANONICAL_INT)))
  {
    hide Due, RefusedIn, Unexpired, OnlyDueGone, ReadFrom, ActiveDue, TrueRemovals, Above, Exhaustive, Assessed;
    hide Effective, Dismissible, Rotations, Settled, WellFormed, StillActive, MAX_CANONICAL_INT;
    var a := state.value;
    AssessedIsDue(x, active, state, days, now, clean);
    StillActiveAfterPruning(a, x, y, days, now);
    FewerNamesWellFormed(x, y, days, now);
    NothingStaged(a, x, y, days, now);
    if clean { RotationsLeft(x, y, days, now); }
    DueIsDismissible(x, a, days, now);
  }

  lemma RetiredReport(
    x: Fs, y: Fs, z: Fs, a: ActiveState, u: Pruning, v: Pruning, last: Status, rotated: bool, days: int, now: Instant,
    clean: bool)
    requires Reclaimed(u, x, y, days, now, clean) && ReadFrom(a, x) && RefusedAtMost(u.refused, v.refused, a.tally.header.sequence)
    requires last.expired && last.sequence == Some(a.tally.header.sequence) && last.rotated == rotated
    requires last.code == (if rotated then None else Some(RETENTION_BOUND)) && ActiveDue(x, a.tally.header.sequence, days, now)
    requires last.effective == Effective(a.tally.header, days) && last.effective.Some? && last.effective.value <= now
    requires Rotated(a.tally.header.sequence) !in y.dir && Above(a.tally.header.sequence, y.dir) && StillActive(a, y)
    requires if rotated then Retired(y, z, a.tally.header, u, v, now, days)
             else |Rotations(z.dir)| >= MAX_ROTATIONS && z == y && v == u
    ensures Applied(x, z, RetentionReport(v.removed, v.refused, Some(last)), days, now)
    ensures
      && clean && (rotated <==> |Rotations(y.dir)| < MAX_ROTATIONS)
      && (rotated && |a.tally.digested| + MAX_TRAILER_LINE_BYTES <= MAX_SEGMENT_BYTES ==>
            Rotated(a.tally.header.sequence) !in z.dir)
      ==> Thorough(x, z, RetentionReport(v.removed, v.refused, Some(last)), days, now)
  {
    hide Due, RefusedIn, Unexpired, OnlyDueGone, Applied, ReadFrom, ActiveDue, TrueRemovals, Retired, Above;
    hide RefusedAtMost, Exhaustive, Thorough, Rotations, StillActive;
    DueRetired(x, y, z, a, u, v, last, rotated, days, now);
    if
      && clean && (rotated <==> |Rotations(y.dir)| < MAX_ROTATIONS)
      && (rotated && |a.tally.digested| + MAX_TRAILER_LINE_BYTES <= MAX_SEGMENT_BYTES ==>
            Rotated(a.tally.header.sequence) !in z.dir)
    {
      RotationsLeft(x, y, days, now);
      StillNoneLeft(x, y, z, a, u, v, rotated, days, now);
      SameActive(x, y, a, days, now);
      RetiredThoroughly(x, z, a, RetentionReport(v.removed, v.refused, Some(last)), rotated, days, now);
    }
  }

  lemma SameActive(x: Fs, y: Fs, a: ActiveState, days: int, now: Instant)
    requires ReadFrom(a, x) && OnlyDueGone(x, y, days, now)
    ensures y.files == x.files && Current in y.dir && y.dir[Current] == x.dir[Current]
  {
    hide Due, Settled, Tally.Exact;
  }

  /** The active segment, if due, is blocked at the bound or has a sequence left for its successor. */
  ghost predicate Dismissible(s: Fs, days: int, now: Instant) {
    forall q | ActiveDue(s, q, days, now) :: |Remaining(s, days, now)| < MAX_ROTATIONS ==> q < MAX_CANONICAL_INT
  }

  /** `retention_apply` under the barrier and the log lock. */
  method ApplyLocked(disk: Disk, days: int, now: Instant) returns (r: Result<RetentionReport, Code>, ghost gone: set<int>)
    requires disk.alive && WellFormed(disk.s) && InRange(now)
    modifies disk
    ensures disk.faults >= old(disk.faults) && forall q <- gone :: MayGo(old(disk.s), q, days, now)
    ensures old(Started(disk.Now())) ==>
      Reduced(old(disk.Now()), disk.alive, disk.Now(), gone) && (r.Success? ==> disk.Now().Calm())
    ensures r.Success? ==> disk.alive && Applied(old(disk.s), disk.s, r.value, days, now)
    ensures disk.alive && disk.faults == old(disk.faults) ==>
      && (r.Success? <==> Returns(old(disk.s), days, now))
      && (r.Success? ==> Thorough(old(disk.s), disk.s, r.value, days, now))
  {
    hide Halted, Snap.Ok, Booked, Outcome, Reduced, Due, Snap.Calm, RefusedIn, Unexpired, OnlyDueGone, Applied, Thorough;
    hide ActiveDue, Assessed, Exhaustive, TrueRemovals, MayList, ActiveRepresentable, Dismissible, WellFormed;
    hide Certifiable;
    ghost var x := disk.Now();
    ghost var ready := Started(x);
    gone := {};
    if ready { OutcomeReflexive(x); }
    var status := ActiveStatus(disk, days, now);
    if ready { OutcomeThenNoEffect(x, x, disk.alive, disk.Now()); OutcomeIsReduced(x, disk.alive, disk.Now(), {}); }
    if disk.alive { ReturnsParts(x.fs, days, now); }
    if status.Failure? {
      return Failure(status.error), gone;
    }
    ghost var clean := disk.faults == old(disk.faults);
    var pruned, due := PruneExpired(disk, days, now);
    gone := due;
    if pruned.Failure? {
      return Failure(pruned.error), gone;
    }
    var u := pruned.value;
    ghost var y := disk.Now();
    clean := clean && disk.faults == old(disk.faults);
    if clean { NoneLeft(x.fs, y.fs, u.refused, days, now); }
    FewerClean(status.value.0, status.value.1, x.fs, days, now, clean);
    if ready { ReducedIsOk(x, y, due); }
    ghost var more: set<int>;
    r, more := RetireIfDue(disk, status.value.0, status.value.1, u, days, now, x.fs, clean);
    gone := due + more;
    if ready { ReducedTransitive(x, y, disk.alive, disk.Now(), due, more); }
  }

  lemma ReturnsParts(s: Fs, days: int, now: Instant)
    ensures Returns(s, days, now) <==> MayList(s, days) && ActiveRepresentable(s, days) && Dismissible(s, days, now)
  {
    hide MayList, ActiveRepresentable, ActiveDue, Remaining;
  }

  lemma FewerClean(active: Option<Status>, state: Option<ActiveState>, s: Fs, days: int, now: Instant, clean: bool)
    requires exists was :: Assessed(active, state, s, days, now, was) && (clean ==> was)
    ensures Assessed(active, state, s, days, now, clean)
  {
    hide Settled, Effective, ReadFrom, ActiveRepresentable;
  }

  lemma AssessedIsDue(
    x: Fs, active: Option<Status>, state: Option<ActiveState>, days: int, now: Instant, clean: bool)
    requires Assessed(active, state, x, days, now, clean) && active.Some? && active.value.expired && state.Some?
    ensures var a := state.value;
      && ReadFrom(a, x) && ActiveDue(x, a.tally.header.sequence, days, now)
      && Effective(a.tally.header, days).Some? && Effective(a.tally.header, days).value <= now
      && active.value.sequence == Some(a.tally.header.sequence) && !active.value.rotated && active.value.code.None?
      && active.value.effective == Effective(a.tally.header, days)
  {
    hide Effective, ReadFrom, ActiveRepresentable, ActiveDue;
    ActiveIsDue(x, state.value, days, now);
  }

  lemma NothingStaged(a: ActiveState, x: Fs, y: Fs, days: int, now: Instant)
    requires ReadFrom(a, x) && OnlyDueGone(x, y, days, now)
    ensures Staging !in y.dir
  {
    hide Due, Effective;
  }

  /** Only the sequence of the segment that was read can be that of a due active segment. */
  lemma DueIsDismissible(x: Fs, a: ActiveState, days: int, now: Instant)
    requires ReadFrom(a, x) && ActiveDue(x, a.tally.header.sequence, days, now)
    ensures forall q :: ActiveDue(x, q, days, now) <==> q == a.tally.header.sequence
    ensures Dismissible(x, days, now) <==>
      (|Remaining(x, days, now)| < MAX_ROTATIONS ==> a.tally.header.sequence < MAX_CANONICAL_INT)
  {
    hide Effective, Settled, Remaining, MAX_CANONICAL_INT, Tally.Exact;
  }

  lemma RetiredThoroughly(
    x: Fs, z: Fs, a: ActiveState, report: RetentionReport, rotated: bool, days: int, now: Instant)
    requires ReadFrom(a, x) && ActiveDue(x, a.tally.header.sequence, days, now) && Exhaustive(x, z, days, now)
    requires report.active.Some? && report.active.value.expired && report.active.value.rotated == rotated
    requires report.active.value.sequence == Some(a.tally.header.sequence)
    requires report.active.value.code == if rotated then None else Some(RETENTION_BOUND)
    requires rotated <==> |Remaining(x, days, now)| < MAX_ROTATIONS
    requires !rotated ==> z.files == x.files && Current in z.dir && z.dir[Current] == x.dir[Current]
    requires rotated && |a.tally.digested| + MAX_TRAILER_LINE_BYTES <= MAX_SEGMENT_BYTES ==>
      Rotated(a.tally.header.sequence) !in z.dir
    ensures Thorough(x, z, report, days, now)
  {
    hide Effective, Exhaustive, Remaining, Tally.Exact, ActiveDue, Settled;
    DueIsDismissible(x, a, days, now);
    ActiveHeader(a, x);
  }

  /** Every rotation that was due is gone. */
  ghost predicate Exhaustive(x: Fs, y: Fs, days: int, now: Instant) {
    forall q :: Due(x, q, days, now) ==> Rotated(q) !in y.dir
  }

  lemma NoneLeft(x: Fs, y: Fs, refused: seq<Refused>, days: int, now: Instant)
    requires forall q | Rotated(q) in y.dir :: RefusedIn(refused, q) || Unexpired(x, q, days, now)
    requires forall q :: RefusedIn(refused, q) ==> !Certifiable(x, q)
    ensures Exhaustive(x, y, days, now)
  {
    hide Certifiable, RefusedIn, Effective;
  }

  lemma StillNoneLeft(
    x: Fs, y: Fs, z: Fs, a: ActiveState, u: Pruning, v: Pruning, rotated: bool, days: int, now: Instant)
    requires Exhaustive(x, y, days, now) && ReadFrom(a, x)
    requires if rotated then Retired(y, z, a.tally.header, u, v, now, days) else z == y
    ensures Exhaustive(x, z, days, now)
  {
    hide Effective, MoreRemoved, HeaderLine, IsOpen, IsClosed, SplitLines, HeaderOfData, Events;
    forall q | Due(x, q, days, now) ensures Rotated(q) !in z.dir {
      assert Rotated(q) in x.dir;
    }
  }

  lemma ActiveIsDue(x: Fs, a: ActiveState, days: int, now: Instant)
    requires ReadFrom(a, x) && Effective(a.tally.header, days).Some? && Effective(a.tally.header, days).value <= now
    ensures ActiveDue(x, a.tally.header.sequence, days, now)
  {
    hide Effective, Settled, IsOpen, HeaderOfData, SplitLines, Events;
    SettledNames(x);
  }

  lemma NotRetired(
    x: Fs, y: Fs, u: Pruning, active: Option<Status>, state: Option<ActiveState>, days: int, now: Instant, clean: bool)
    requires Assessed(active, state, x, days, now, clean) && Reclaimed(u, x, y, days, now, clean)
    requires active.None? || !active.value.expired || state.None?
    ensures Applied(x, y, RetentionReport(u.removed, u.refused, active), days, now)
    ensures clean ==> Thorough(x, y, RetentionReport(u.removed, u.refused, active), days, now) && Dismissible(x, days, now)
  {
    hide Due, Unexpired, RefusedIn, Settled, Tally.Exact, Rotations, TrueRemovals, Effective, Exhaustive, HeaderOfData;
    hide Remaining, MAX_CANONICAL_INT;
    PruningAccounts(u, x, y, days, now);
    if state.Some? { ReadHeaderOf(state.value, x); }
  }

  lemma DueRetired(
    x: Fs, y: Fs, z: Fs, a: ActiveState, u: Pruning, v: Pruning, last: Status, rotated: bool, days: int, now: Instant)
    requires OnlyDueGone(x, y, days, now) && TrueRemovals(u, x, y, days, now) && ReadFrom(a, x)
    requires forall q | Rotated(q) in y.dir :: RefusedIn(u.refused, q) || Unexpired(x, q, days, now)
    requires RefusedAtMost(u.refused, v.refused, a.tally.header.sequence)
    requires last.expired && last.sequence == Some(a.tally.header.sequence) && last.rotated == rotated
    requires last.effective == Effective(a.tally.header, days) && last.effective.Some? && last.effective.value <= now
    requires last.code == (if rotated then None else Some(RETENTION_BOUND))
    requires ActiveDue(x, a.tally.header.sequence, days, now)
    requires Rotated(a.tally.header.sequence) !in y.dir && Above(a.tally.header.sequence, y.dir)
    requires if rotated then Retired(y, z, a.tally.header, u, v, now, days)
             else |Rotations(z.dir)| >= MAX_ROTATIONS && z == y && v == u
    ensures Applied(x, z, RetentionReport(v.removed, v.refused, Some(last)), days, now)
  {
    hide Due, Unexpired, RefusedIn, Settled, Tally.Exact, Rotations, ActiveDue, HeaderLine, TrueRemovals, Accounts, MoreRemoved;
    hide ReadFrom, ActiveHeaderOf, Effective;
    ReadHeaderOf(a, x);
    if rotated {
      RetirementAccounts(u, v, a, x, y, z, days, now);
    } else {
      PruningAccounts(u, x, y, days, now);
    }
  }

  /** `retention_apply`. */
  method RetentionApply(disk: Disk, days: int, now: Instant) returns (r: Result<RetentionReport, Code>, ghost gone: set<int>)
    requires disk.alive && WellFormed(disk.s) && InRange(now)
    modifies disk
    ensures disk.faults >= old(disk.faults) && forall q <- gone :: MayGo(old(disk.s), q, days, now)
    ensures old(disk.Now().Ok()) ==>
      Reduced(old(disk.Now()), disk.alive, disk.Now(), gone) && (r.Success? ==> disk.Now().Calm())
    ensures r.Success? ==> disk.alive && Applied(old(disk.s), disk.s, r.value, days, now)
    ensures disk.alive && disk.faults == old(disk.faults) ==>
      && (r.Success? <==> Returns(old(disk.s), days, now))
      && (r.Success? ==> Thorough(old(disk.s), disk.s, r.value, days, now))
      && (old(disk.Now().Ok()) && old(Current in disk.s.dir) && old(Settled(disk.s)) ==> old(RoomForTrailer(disk.s)))
  {
    hide Halted, Snap.Ok, Booked, Outcome, Reduced, Snap.Calm, Applied, MayGo, Thorough, Returns, Settled, RoomForTrailer;
    hide EventLine, SplitLines, IsEvent, Preserved;
    ghost var x := disk.Now();
    ghost var ok := x.Ok();
    if ok && Current in x.fs.dir && Settled(x.fs) { OkHasRoom(x); }
    disk.Enter();
    ghost var x0 := disk.Now();
    if ok { EnterOutcome(x, x0); OutcomeIsReduced(x, true, x0, {}); OutcomeIsOk(x, x0); }
    var locked := disk.Lock();
    if ok {
      OutcomeThenNoEffect(x, x0, disk.alive, disk.Now());
      OutcomeIsReduced(x, disk.alive, disk.Now(), {});
    }
    if !locked {
      return Failure(LOCK), {};
    }
    r, gone := ApplyLocked(disk, days, now);
    if ok { ReducedTransitive(x, x0, disk.alive, disk.Now(), {}, gone); }
    assert {} + gone == gone;
  }

  /** A segment this protocol wrote always leaves room for its trailer. */
  lemma OkHasRoom(x: Snap)
    requires x.Ok() && Settled(x.fs) && Current in x.fs.dir
    ensures RoomForTrailer(x.fs)
  {
    hide SplitLines, HeaderLine, IsOpen, IsClosed, EventsDurable, Rotations, PendingRotation, StagingOk, RotatedOk, Firm;
    CalmWorld(x);
    assert CurrentOk(x.fs.dir, x.fs.files);
    var f := x.fs.files[x.fs.dir[Current]];
    FileHasSequence(f);
    OpenNotClosed(f.data);
    KeptOfWholeOpen(f.data);
  }

  /** The reported status is that of the active segment, or a code that, when no call fails, means an unsettled
      directory. */
  ghost predicate Reported(active: Option<Status>, s: Fs, days: int, now: Instant, clean: bool) {
    match active
    case None => Settled(s) && Current !in s.dir
    case Some(status) =>
      if status.code.Some? then !status.rotated && !status.expired && (clean ==> !Settled(s))
      else
        && Settled(s) && Current in s.dir && s.dir[Current] in s.files
        && var h := HeaderOfData(s.files[s.dir[Current]].data);
           && h.Some? && Effective(h.value, days).Some?
           && status == Status(
             Some(h.value.sequence), Effective(h.value, days), Effective(h.value, days).value <= now, false, None)
  }

  lemma AssessedIsReported(
    active: Option<Status>, state: Option<ActiveState>, s: Fs, days: int, now: Instant, clean: bool)
    requires Assessed(active, state, s, days, now, clean)
    ensures Reported(active, s, days, now, clean)
  {
    hide Effective, Settled, Tally.Exact, HeaderOfData, ActiveRepresentable;
    if state.Some? { ActiveHeader(state.value, s); }
  }

  /** `retention_preview`: the same judgement, changing nothing. */
  method RetentionPreview(disk: Disk, days: int, now: Instant) returns (r: Result<RetentionReport, Code>)
    requires disk.alive && WellFormed(disk.s)
    modifies disk
    ensures disk.faults >= old(disk.faults)
    ensures old(disk.Now().Ok()) ==> Outcome(old(disk.Now()), disk.alive, disk.Now())
    ensures disk.alive ==> disk.s == old(disk.s)
    ensures r.Success? ==>
      && disk.alive && (forall i | 0 <= i < |r.value.segments| :: Tells(disk.s, days, now, r.value.segments[i]))
      && (forall i, j | 0 <= i < j < |r.value.segments| :: r.value.segments[i].sequence < r.value.segments[j].sequence)
      && (forall q | Rotated(q) in disk.s.dir ::
            RefusedIn(r.value.refused, q) || exists i :: 0 <= i < |r.value.segments| && r.value.segments[i].sequence == q)
      && Reported(r.value.active, disk.s, days, now, disk.faults == old(disk.faults))
    ensures disk.alive && disk.faults == old(disk.faults) ==>
      && (r.Success? <==> MayList(disk.s, days) && ActiveRepresentable(disk.s, days))
      && (r.Success? ==> forall q :: RefusedIn(r.value.refused, q) ==> !Certifiable(disk.s, q))
  {
    hide Halted, Snap.Ok, Booked, Outcome, Snap.Calm, Tells, RefusedIn, Certifiable, Settled, Identifies, Assessed;
    hide MayList, ActiveRepresentable, Reported;
    ghost var x := disk.Now();
    ghost var ok := x.Ok();
    disk.Enter();
    ghost var x0 := disk.Now();
    if ok { EnterOutcome(x, x0); }
    var locked := disk.Lock();
    if ok { OutcomeThenNoEffect(x, x0, disk.alive, disk.Now()); }
    if !locked {
      return Failure(LOCK);
    }
    var status := ActiveStatus(disk, days, now);
    if ok { OutcomeThenNoEffect(x, x0, disk.alive, disk.Now()); }
    if status.Failure? {
      return Failure(status.error);
    }
    var preview := PreviewLocked(disk, days, now);
    if ok { OutcomeThenNoEffect(x, x0, disk.alive, disk.Now()); }
    if preview.Failure? {
      return Failure(preview.error);
    }
    FewerClean(status.value.0, status.value.1, disk.s, days, now, disk.faults == old(disk.faults));
    AssessedIsReported(status.value.0, status.value.1, disk.s, days, now, disk.faults == old(disk.faults));
    r := Success(RetentionReport(preview.value.segments, preview.value.refused, status.value.0));
  }
}

/** Whole runs: several live stores, recovery and retention interleaved at lock boundaries, with crashes anywhere. */
module LogRuns {
  import opened Common
  import opened Clock
  import opened Canonical
  import opened LogWire
  import opened LogEvents
  import opened LogSegments
  import opened LogDisk
  import opened LogFilesystem
  import opened LogKernel
  import opened LogPublish
  import opened LogWrites
  import opened LogTally
  import opened LogStore
  import opened LogRecovery
  import opened LogRetention
  import opened LogTrace
  import opened LogBooks

  // ---- commands ----------------------------------------------------------------------------------------------------------

  datatype Command =
    | Launch(retentionDays: int, openedAt: Instant)
    | AppendTo(store: nat, event: Event)
    | RotateOf(store: nat, closedAt: Instant)
    | FlushOf(store: nat)
    | CloseOf(store: nat)
    | Recovery
    | Retention(days: int, now: Instant)
    | Idle
    | Boot
  {
    predicate Valid() {
      match this
      case Launch(_, at) => InRange(at)
      case AppendTo(_, e) => e.Valid()
      case RotateOf(_, at) => InRange(at)
      case Retention(_, now) => InRange(now)
      case _ => true
    }
  }

  /** What the caller learns: success, an error, or nothing because the host stopped. */
  datatype Reply = Acknowledged | Failed | Stopped

  /** What a command and its reply may record, given the file systems before and after. */
  ghost predicate Fits(c: Command, reply: Reply, step: Step, x: Fs, y: Fs) {
    && (step.Appended? <==> c.AppendTo? && reply.Acknowledged?)
    && (step.Appended? ==> step.line == EventLine(c.event))
    && (c.RotateOf? && reply.Acknowledged? ==> step.Covered?)
    && (c.FlushOf? && reply.Acknowledged? ==> step.Covered? || (step.Flushed? && !Secured(y, step.inode)))
    && (step.Undone? ==> reply.Stopped?)
    && (step.Left? ==> reply.Stopped? || c.Retention?)
    && (step.Left? && !reply.Stopped? ==> forall n | n !in step.gone :: step.kept(n) == |At(x.dir, x.files, n)|)
    && (step.Left? || step.Undone? ==> forall q <- step.gone :: c.Retention? && MayGo(x, q, c.days, c.now))
  }

  // ---- the log from one command to the next -----------------------------------------------------------------------------

  /** One more line at the end of `q`, after which there is nothing. */
  ghost predicate GrownAt(x: Fs, y: Fs, q: int, line: string) {
    (forall n :: LogOf(y)(n) == if n == q then LogOf(x)(n) + [line] else LogOf(x)(n)) && forall n :: n > q ==> LogOf(y)(n) == []
  }

  /** The active segment is of sequence `q` and was opened on the UTC day of `at`. */
  ghost predicate InItsDay(s: Fs, q: int, at: Instant) {
    && Current in s.dir && s.dir[Current] in s.files
    && var h := HeaderOfData(s.files[s.dir[Current]].data);
       h.Some? && h.value.sequence == q && at / 86_400_000 == h.value.openedAt / 86_400_000
  }

  lemma ActiveHasDay(x: Snap, i: Inode, t: Tally, at: Instant)
    requires Active(x, i, t.digested) && t.Exact() && at / 86_400_000 == t.header.openedAt / 86_400_000
    ensures InItsDay(x.fs, t.header.sequence, at)
  {
    hide IsOpen, SplitLines, Events, HeaderOfData, OpenFile, Snap.Ok;
  }

  /** The same log, or, once the host has stopped, all of it but some events at its end, apart from the sequences in
      `gone`. */
  ghost predicate LostAtMostTailBut(x: Fs, y: Fs, alive: bool, gone: set<int>) {
    if alive then forall n | n !in gone :: LogOf(y)(n) == LogOf(x)(n)
    else (forall n :: LogOf(y)(n) <= LogOf(x)(n))
         && forall n, m | n < m && n !in gone && m !in gone && LogOf(y)(n) != LogOf(x)(n) :: LogOf(x)(m) == []
  }

  ghost predicate LostAtMostTail(x: Fs, y: Fs, alive: bool) { LostAtMostTailBut(x, y, alive, {}) }

  lemma ReducedLog(x: Snap, alive: bool, y: Snap, gone: set<int>)
    requires Reduced(x, alive, y, gone)
    ensures !y.lost ==> LostAtMostTailBut(x.fs, y.fs, alive, gone) && y.Ok()
    ensures SealedStay(x.fs, y.fs) && (alive ==> y.Ok() && Preserved(x.fs, y.fs)) && y.ledger.certified == x.ledger.certified
    ensures Vouched(y)
    ensures x.fs.Clean() ==> if alive then y.Recent() else !y.lost
  {
    hide At, Synced, Preserved, SealedStay, Snap.Ok, Vouched;
    if alive { OkIsKept(y); OkIsVouched(y); }
    forall n ensures LogOf(y.fs)(n) == y.Slot(n) && LogOf(x.fs)(n) == x.Slot(n) {}
  }

  lemma LoggedLog(x: Snap, y: Snap, q: int, line: string)
    requires Logged(x, y, q, line)
    ensures GrownAt(x.fs, y.fs, q, line)
    ensures SealedStay(x.fs, y.fs) && Preserved(x.fs, y.fs) && y.Ok() && y.ledger.certified == x.ledger.certified
    ensures Vouched(y)
    ensures x.fs.Clean() ==> y.Recent()
  {
    hide At, Synced, Preserved, SealedStay, Snap.Ok, Vouched;
    OkIsVouched(y);
    PreservedSeals(x.fs, y.fs);
    forall n ensures LogOf(y.fs)(n) == y.Slot(n) && LogOf(x.fs)(n) == x.Slot(n) {}
  }

  /** A successful append adds its line at the very end of the log. */
  lemma LoggedAtTheEnd(x: Fs, y: Fs, q: int, line: string, lo: int, hi: int)
    requires GrownAt(x, y, q, line) && lo <= q < hi
    ensures Log(LogOf(y), lo, hi) == Log(LogOf(x), lo, hi) + [line]
  {
    hide At;
    var f, g := LogOf(x), LogOf(y);
    EmptyTail(f, lo, q + 1, hi);
    EmptyTail(g, lo, q + 1, hi);
    SameSlotsSameLog(f, g, lo, q);
  }

  lemma {:induction false} SameSlotsSameLog(f: int -> seq<string>, g: int -> seq<string>, lo: int, hi: int)
    requires forall n | lo <= n < hi :: f(n) == g(n)
    ensures Log(f, lo, hi) == Log(g, lo, hi)
    decreases hi - lo
  {
    if lo < hi { SameSlotsSameLog(f, g, lo, hi - 1); }
  }

  lemma {:induction false} EmptyTail(f: int -> seq<string>, lo: int, mid: int, hi: int)
    requires lo <= mid <= hi && forall n | mid <= n < hi :: f(n) == []
    ensures Log(f, lo, hi) == Log(f, lo, mid)
    decreases hi - mid
  {
    if mid < hi { EmptyTail(f, lo, mid, hi - 1); }
  }

  /** After a crash the log is a prefix of what it was. */
  lemma CrashKeepsAPrefix(x: Fs, y: Fs, lo: int, hi: int)
    requires LostAtMostTail(x, y, false)
    ensures Log(LogOf(y), lo, hi) <= Log(LogOf(x), lo, hi)
  {
    hide At;
    PrefixLog(LogOf(x), LogOf(y), lo, hi);
  }

  lemma {:induction false} PrefixLog(f: int -> seq<string>, g: int -> seq<string>, lo: int, hi: int)
    requires forall n :: g(n) <= f(n)
    requires forall n, m :: n < m && g(n) != f(n) ==> f(m) == []
    ensures Log(g, lo, hi) <= Log(f, lo, hi)
    decreases hi - lo
  {
    if lo < hi {
      if n :| lo <= n < hi - 1 && g(n) != f(n) {
        assert f(hi - 1) == [] && g(hi - 1) <= f(hi - 1);
        PrefixLog(f, g, lo, hi - 1);
      } else {
        SameSlotsSameLog(f, g, lo, hi - 1);
      }
    }
  }

  /** A store's belief survives whatever the protocol does to the files. */
  lemma BeliefSurvives(t: Tally, i: Inode, x: Fs, y: Fs)
    requires t.Exact() && i in x.files && t.digested <= x.files[i].data && Preserved(x, y)
    ensures i in y.files && t.digested <= y.files[i].data
  {
    hide SplitLines, Flatten, IsOpen, Events, HeaderOfData, Writable, SealedStay, Vouched;
    CompleteContains(t.digested, x.files[i].data);
  }

  // ---- what a command records --------------------------------------------------------------------------------------------

  /** The command changed nothing of the log, or the host stopped. */
  predicate Uneventful(step: Step, alive: bool) {
    if alive then step.Quiet? else (step.Left? || step.Undone?) && step.gone == {}
  }

  /** What every command leaves, whatever it recorded. */
  ghost predicate Carried(x: Snap, alive: bool, y: Snap, t: seq<Step>) {
    && Books(y, t) && SealedStay(x.fs, y.fs) && Vouched(y) && (!y.lost ==> y.Ok())
    && (alive ==> !y.lost && Preserved(x.fs, y.fs)) && y.ledger.certified == x.ledger.certified
    && (x.fs.Clean() ==> if alive then y.Recent() else !y.lost)
  }

  /** An operation that began on a synced directory loses no older change, and if it succeeded it leaves the directory
      synced. */
  lemma StaysClean(x: Snap, alive: bool, y: Snap, t: seq<Step>, ok: bool)
    requires Carried(x, alive, y, t) && (ok ==> alive && y.Calm())
    ensures x.fs.Clean() ==> !y.lost && (ok ==> y.fs.Clean())
  {
    hide Books, SealedStay, Vouched, Preserved, Snap.Ok;
  }

  lemma BooksOk(x: Snap, t: seq<Step>)
    requires Books(x, t) && !x.lost
    ensures x.Ok() && WellFormed(x.fs) && x.fs.Valid()
  {
    hide Snap.Ok, Faithful, Held, Assured, At;
    OkIsWellFormed(x);
    OkIsValid(x);
  }

  lemma OkIsValid(x: Snap)
    requires x.Ok()
    ensures x.fs.Valid()
  {
  }

  /** An operation that adds nothing, ended or not. */
  lemma Quietly(x: Snap, alive: bool, y: Snap, t: seq<Step>) returns (step: Step)
    requires Books(x, t) && !x.lost && Outcome(x, alive, y)
    ensures Uneventful(step, alive) && Carried(x, alive, y, t + [step])
    ensures !y.lost ==> LostAtMostTail(x.fs, y.fs, alive)
  {
    hide Snap.Ok, Outcome, Books, Reduced, SealedStay, Vouched, Preserved, LostAtMostTailBut;
    OutcomeIsReduced(x, alive, y, {});
    ReducedLog(x, alive, y, {});
    if alive {
      step := Quiet;
      QuietBooks(x, y, t, step);
      OkIsKept(y);
    } else {
      step := Stop(y, {});
      ReduceBooks(x, alive, y, t, {});
    }
  }

  /** An operation that adds nothing, ended, and recorded as `step`. */
  lemma Recorded(x: Snap, y: Snap, t: seq<Step>, step: Step)
    requires Books(x, t) && !x.lost && Outcome(x, true, y)
    requires step.Flushed? || (step.Covered? && AllPromised(y))
    ensures Carried(x, true, y, t + [step]) && LostAtMostTail(x.fs, y.fs, true)
  {
    hide Snap.Ok, Outcome, Books, Reduced, SealedStay, Vouched, Preserved, LostAtMostTailBut, AllPromised;
    OutcomeIsReduced(x, true, y, {});
    ReducedLog(x, true, y, {});
    QuietBooks(x, y, t, step);
    OkIsKept(y);
  }

  lemma Grew(x: Snap, y: Snap, t: seq<Step>, q: int, line: string, rolled: bool)
    requires Books(x, t) && !x.lost && Logged(x, y, q, line)
    requires rolled ==> forall n :: y.ledger.promised(n) == x.Slot(n)
    ensures Carried(x, true, y, t + [Step.Appended(q, line, rolled)]) && GrownAt(x.fs, y.fs, q, line)
  {
    hide Snap.Ok, Logged, Books, SealedStay, Vouched, Preserved, GrownAt;
    AppendBooks(x, y, t, q, line, rolled);
    LoggedLog(x, y, q, line);
    OkIsKept(y);
  }

  lemma Deleted(x: Snap, alive: bool, y: Snap, t: seq<Step>, gone: set<int>)
    requires Books(x, t) && !x.lost && Reduced(x, alive, y, gone)
    ensures Carried(x, alive, y, t + [Stop(y, gone)])
    ensures !y.lost ==> LostAtMostTailBut(x.fs, y.fs, alive, gone)
  {
    hide Snap.Ok, Books, Reduced, SealedStay, Vouched, Preserved, LostAtMostTailBut;
    ReduceBooks(x, alive, y, t, gone);
    ReducedLog(x, alive, y, gone);
  }

  /** A pass that ended deleted nothing but whole sequences. */
  lemma KeptWhole(x: Snap, y: Snap, gone: set<int>)
    requires LostAtMostTailBut(x.fs, y.fs, true, gone)
    ensures forall n | n !in gone :: Remains(y)(n) == |At(x.fs.dir, x.fs.files, n)|
  {
    hide At;
    forall n | n !in gone ensures Remains(y)(n) == |At(x.fs.dir, x.fs.files, n)| {
      assert LogOf(y.fs)(n) == LogOf(x.fs)(n);
    }
  }

  // ---- a host ------------------------------------------------------------------------------------------------------------

  class Host {
    const disk: Disk
    var stores: seq<StructuredLogStore>
    /** What every command so far did to the log. */
    ghost var trace: seq<Step>
    /** The file system after every command so far; those from `boot` on belong to the present boot. */
    ghost var seen: seq<Fs>
    ghost var boot: nat

    ghost predicate StoresOk()
      reads this, disk, stores
    {
      && (forall i | 0 <= i < |stores| :: stores[i].disk == disk && stores[i].Valid())
      && (forall i, j | 0 <= i < j < |stores| :: stores[i] != stores[j])
    }

    /** The log is what the trace says; sealed inodes have their bytes since they were first seen; no complete line has
        been lost since the boot; and every rotation seen was sealed, while the ledger says so. */
    ghost predicate Kept()
      reads this, disk
    {
      && Books(disk.Now(), trace) && |seen| == |trace| && boot <= |seen| && AllSealed(seen, disk.s)
      && (disk.alive ==> !disk.lost && AllPreserved(seen[boot..], disk.s))
      && (disk.ledger.certified ==> AllCertified(seen)) && (disk.lost ==> Vouched(disk.Now()))
    }

    ghost predicate Inv()
      reads this, disk, stores
    {
      Kept() && StoresOk()
    }

    /** A new host with an empty logs directory. */
    constructor (disk: Disk)
      requires disk.s == EMPTY && disk.Now().Ok()
      requires forall n :: disk.ledger.promised(n) == []
      ensures this.disk == disk && Inv() && stores == [] && trace == [] && seen == []
    {
      hide Snap.Ok, Books;
      this.disk, stores, trace, seen, boot := disk, [], [], [], 0;
      new;
      NoBooks(disk.Now());
      OkIsKept(disk.Now());
    }

    /** Notes one more command, which took the host from `x` to its present state. */
    ghost method Note(step: Step, x: Snap)
      requires !x.lost && Carried(x, disk.alive, disk.Now(), trace + [step])
      requires |seen| == |trace| && boot <= |seen| && AllSealed(seen, x.fs)
      requires disk.alive ==> AllPreserved(seen[boot..], x.fs)
      requires x.ledger.certified ==> AllCertified(seen)
      modifies this`trace, this`seen
      ensures Kept() && trace == old(trace) + [step] && seen == old(seen) + [disk.s]
    {
      hide Snap.Ok, Books, AllSealed, AllPreserved, AllCertified, SealedStay, Preserved;
      SealedOnceMore(seen, x.fs, disk.s);
      if disk.alive {
        SeenOnceMore(seen[boot..], x.fs, disk.s);
        assert (seen + [disk.s])[boot..] == seen[boot..] + [disk.s];
      }
      if disk.ledger.certified { CertifiedOnceMore(seen, disk.s); }
      trace, seen := trace + [step], seen + [disk.s];
    }

    lemma UpIsWhole()
      requires Kept() && disk.alive
      ensures !disk.lost
    {
    }

    /** The stores keep their beliefs while store `k` runs and the files only change as the protocol allows. */
    twostate lemma StoresStillOk(k: nat)
      requires old(StoresOk()) && stores == old(stores)
      requires disk.alive ==> old(disk.alive) && Preserved(old(disk.s), disk.s)
      requires forall i | 0 <= i < |stores| && i != k :: unchanged(stores[i])
      requires k < |stores| ==> stores[k].disk == disk && stores[k].Valid()
      ensures StoresOk()
    {
      hide Preserved, Tally.Exact;
      forall i | 0 <= i < |stores| ensures stores[i].disk == disk && stores[i].Valid() {
        var t := stores[i];
        assert old(t.Valid());
        if i != k && disk.alive && !t.closed { BeliefSurvives(t.tally, t.descriptor, old(disk.s), disk.s); }
      }
    }

    /** An append by store `k`: one line at the very end of the log, or nothing. */
    method AppendTo(k: nat, e: Event) returns (ok: bool, ghost step: Step)
      requires Inv() && disk.alive && k < |stores| && e.Valid()
      modifies this`trace, this`seen, disk, stores[k]
      ensures disk.faults >= old(disk.faults)
      ensures disk.ledger.certified == old(disk.ledger.certified)
      ensures old(disk.s.Clean()) ==> !disk.lost && (ok ==> disk.s.Clean())
      ensures Inv() && trace == old(trace) + [step] && seen == old(seen) + [disk.s]
      ensures ok ==>
        && disk.alive && step.Appended? && step.line == EventLine(e)
        && GrownAt(old(disk.s), disk.s, step.sequence, EventLine(e))
        && InItsDay(disk.s, step.sequence, e.ts)
      ensures !ok ==> Uneventful(step, disk.alive) && (disk.lost || LostAtMostTail(old(disk.s), disk.s, disk.alive))
    {
      hide Snap.Ok, Logged, Outcome, Tally.Exact, EventLine, Preserved, LogOf, Books, AllPreserved, AllSealed;
      hide AllCertified, Active, Booked, Coherent, MayRotate, StructuredLogStore.RotationDue, CertifiedCopy, FreshTally;
      hide Counted, StructuredLogStore.Believes, GrownAt, LostAtMostTail, SealedStay, Vouched;
      ghost var x := disk.Now();
      BooksOk(x, trace);
      var store := stores[k];
      assert store.Valid() && store.disk == disk;
      ghost var due := store.RotationDue(|EventLine(e)|, e.ts);
      var r := store.Append(e);
      ok := r.None?;
      if ok {
        step := Step.Appended(store.tally.header.sequence, EventLine(e), due);
        ActiveIsOk(disk.Now(), store.descriptor, store.tally.digested);
        ActiveHasDay(disk.Now(), store.descriptor, store.tally, e.ts);
        Grew(x, disk.Now(), trace, store.tally.header.sequence, EventLine(e), due);
      } else {
        step := Quietly(x, disk.alive, disk.Now(), trace);
      }
      StaysClean(x, disk.alive, disk.Now(), trace + [step], ok);
      Note(step, x);
      StoresStillOk(k);
    }

    /** A flush: once acknowledged, the whole log is sure to last, if the flush secured the active segment. */
    method FlushOf(k: nat) returns (ok: bool, ghost step: Step)
      requires Inv() && disk.alive && k < |stores|
      modifies this`trace, this`seen, disk, stores[k]
      ensures disk.faults >= old(disk.faults)
      ensures disk.ledger.certified == old(disk.ledger.certified)
      ensures old(disk.s.Clean()) ==> !disk.lost && (ok ==> disk.s.Clean())
      ensures Inv() && trace == old(trace) + [step] && seen == old(seen) + [disk.s]
      ensures disk.lost || LostAtMostTail(old(disk.s), disk.s, disk.alive)
      ensures ok ==>
        disk.alive && step == if Secured(disk.s, stores[k].descriptor) then Covered else Step.Flushed(stores[k].descriptor)
      ensures !ok ==> Uneventful(step, disk.alive)
    {
      hide Snap.Ok, Outcome, Tally.Exact, Preserved, LogOf, Books, AllPreserved, LostAtMostTail, AllSealed, AllCertified;
      hide Active, Booked, Coherent, AllPromised, PromisedBut, StructuredLogStore.Believes, Secured, SealedStay, Vouched;
      ghost var x := disk.Now();
      BooksOk(x, trace);
      var store := stores[k];
      assert store.Valid() && store.disk == disk;
      var r := store.Flush();
      ok := r.None?;
      if ok {
        step := if Secured(disk.s, store.descriptor) then Covered else Step.Flushed(store.descriptor);
        Recorded(x, disk.Now(), trace, step);
      } else {
        step := Quietly(x, disk.alive, disk.Now(), trace);
      }
      StaysClean(x, disk.alive, disk.Now(), trace + [step], ok);
      Note(step, x);
      StoresStillOk(k);
    }

    /** A rotation: once acknowledged, the whole log is sure to last, and the closed segment is certified. */
    method RotateOf(k: nat, closedAt: Instant) returns (ok: bool, ghost step: Step)
      requires Inv() && disk.alive && k < |stores| && InRange(closedAt)
      modifies this`trace, this`seen, disk, stores[k]
      ensures disk.faults >= old(disk.faults)
      ensures disk.ledger.certified == old(disk.ledger.certified)
      ensures old(disk.s.Clean()) ==> !disk.lost && (ok ==> disk.s.Clean())
      ensures Inv() && trace == old(trace) + [step] && seen == old(seen) + [disk.s]
      ensures disk.lost || LostAtMostTail(old(disk.s), disk.s, disk.alive)
      ensures ok ==>
        disk.alive && step == Covered && CertifiedCopy(disk.s, old(stores[k].descriptor), old(stores[k].tally), closedAt)
      ensures !ok ==> Uneventful(step, disk.alive)
    {
      hide Snap.Ok, Outcome, Tally.Exact, Preserved, LogOf, Books, AllPreserved, LostAtMostTail, AllSealed, AllCertified;
      hide Active, Booked, Coherent, AllPromised, CertifiedCopy, MayRotate, FreshTally, StructuredLogStore.Believes;
      hide SealedStay, Vouched;
      ghost var x := disk.Now();
      BooksOk(x, trace);
      var store := stores[k];
      assert store.Valid() && store.disk == disk;
      var r := store.Rotate(closedAt);
      ok := r.None?;
      if ok {
        ActiveIsOk(disk.Now(), store.descriptor, store.tally.digested);
        step := Covered;
        Recorded(x, disk.Now(), trace, step);
      } else {
        step := Quietly(x, disk.alive, disk.Now(), trace);
      }
      StaysClean(x, disk.alive, disk.Now(), trace + [step], ok);
      Note(step, x);
      StoresStillOk(k);
    }

    method CloseOf(k: nat) returns (ghost step: Step)
      requires Inv() && disk.alive && k < |stores|
      modifies this`trace, this`seen, disk, stores[k]
      ensures disk.faults >= old(disk.faults)
      ensures disk.ledger.certified == old(disk.ledger.certified)
      ensures old(disk.s.Clean()) ==> !disk.lost && (disk.alive ==> disk.s.Clean())
      ensures Inv() && trace == old(trace) + [step] && seen == old(seen) + [disk.s]
      ensures (disk.lost || LostAtMostTail(old(disk.s), disk.s, disk.alive)) && Uneventful(step, disk.alive)
    {
      hide Snap.Ok, Outcome, Tally.Exact, Preserved, LogOf, Books, AllPreserved, LostAtMostTail, AllSealed, AllCertified;
      hide SealedStay, Vouched;
      ghost var x := disk.Now();
      BooksOk(x, trace);
      var store := stores[k];
      assert store.Valid() && store.disk == disk;
      store.Close();
      step := Quietly(x, disk.alive, disk.Now(), trace);
      StaysClean(x, disk.alive, disk.Now(), trace + [step], false);
      Note(step, x);
      StoresStillOk(k);
    }

    /** Opening one more store, in this process or another. */
    method Launch(retentionDays: int, openedAt: Instant) returns (ok: bool, ghost step: Step)
      requires Inv() && disk.alive && InRange(openedAt)
      modifies this`stores, this`trace, this`seen, disk
      ensures disk.faults >= old(disk.faults)
      ensures disk.ledger.certified == old(disk.ledger.certified)
      ensures old(disk.s.Clean()) ==> !disk.lost && (ok ==> disk.s.Clean())
      ensures Inv() && trace == old(trace) + [step] && seen == old(seen) + [disk.s]
      ensures (disk.lost || LostAtMostTail(old(disk.s), disk.s, disk.alive)) && Uneventful(step, disk.alive)
      ensures if ok then |stores| == |old(stores)| + 1 && stores[..|old(stores)|] == old(stores) else stores == old(stores)
      ensures ok ==> fresh(stores[|old(stores)|])
      ensures ok ==> disk.alive
      ensures disk.alive && disk.faults == old(disk.faults) ==>
        (ok <==>
          && 1 <= retentionDays <= MAX_LOG_RETENTION_DAYS && old(Settled(disk.s))
          && (Current !in old(disk.s.dir) ==> Above(MAX_CANONICAL_INT, old(disk.s.dir))))
    {
      hide Snap.Ok, Outcome, Tally.Exact, Preserved, LogOf, Books, AllPreserved, LostAtMostTail, Settled, Coherent, Above;
      hide MAX_CANONICAL_INT, AllSealed, AllCertified, SealedStay, Vouched;
      ghost var x := disk.Now();
      BooksOk(x, trace);
      var store := new StructuredLogStore(disk, retentionDays);
      var r := store.Open(openedAt);
      ok := r.None?;
      step := Quietly(x, disk.alive, disk.Now(), trace);
      StaysClean(x, disk.alive, disk.Now(), trace + [step], ok);
      Note(step, x);
      StoresStillOk(|stores|);
      if ok {
        stores := stores + [store];
      }
    }

    /** Recovery: it loses nothing, succeeds unless one of the two stuck shapes is there, and leaves a directory that
        opens. */
    method Recover() returns (ok: bool, ghost step: Step)
      requires Inv() && disk.alive
      modifies this`trace, this`seen, disk
      ensures disk.faults >= old(disk.faults)
      ensures old(disk.s.Clean()) ==> !disk.lost && (ok ==> disk.s.Clean())
      ensures Inv() && trace == old(trace) + [step] && seen == old(seen) + [disk.s]
      ensures (disk.lost || LostAtMostTail(old(disk.s), disk.s, disk.alive)) && Uneventful(step, disk.alive)
      ensures ok ==> disk.alive && Settled(disk.s)
      ensures disk.alive && disk.faults == old(disk.faults) ==>
        (ok <==> !StuckTwin(old(disk.s)) && !StuckStaging(old(disk.s))) && (ok <==> Recoverable(old(disk.s)))
      ensures disk.alive && disk.faults == old(disk.faults) && old(Settled(disk.s)) ==> ok && disk.s == old(disk.s)
      ensures disk.ledger.certified == (old(disk.ledger.certified) && !UnsyncedTrailer(old(disk.s)))
      ensures old(disk.ledger.certified) ==> !StuckTwin(old(disk.s))
    {
      hide Snap.Ok, Outcome, Tally.Exact, Preserved, LogOf, Books, AllPreserved, LostAtMostTail, Settled, StuckTwin;
      hide Recovered, StuckStaging, UnsyncedTrailer, Recoverable, AfterRecovery, AllSealed, AllCertified, SealedStay;
      hide Vouched;
      ghost var x := disk.Now();
      BooksOk(x, trace);
      WeakenedBooks(x, trace);
      if x.ledger.certified { CertifiedIsNotStuck(x); }
      var r := LogRecovery.Recover(disk);
      ok := r.Success?;
      step := Quietly(Weakened(x), disk.alive, disk.Now(), trace);
      StaysClean(Weakened(x), disk.alive, disk.Now(), trace + [step], ok);
      Note(step, Weakened(x));
      StoresStillOk(|stores|);
    }

    /** Retention: only what is due goes, and nothing else of the log with it. */
    method Retain(days: int, now: Instant) returns (ok: bool, ghost step: Step)
      requires Inv() && disk.alive && InRange(now)
      modifies this`trace, this`seen, disk
      ensures disk.faults >= old(disk.faults)
      ensures disk.ledger.certified == old(disk.ledger.certified)
      ensures old(disk.s.Clean()) ==> !disk.lost && (ok ==> disk.s.Clean())
      ensures Inv() && trace == old(trace) + [step] && seen == old(seen) + [disk.s]
      ensures (step.Left? || step.Undone?) && (step.Undone? ==> !disk.alive)
      ensures forall q <- step.gone :: MayGo(old(disk.s), q, days, now)
      ensures disk.lost || LostAtMostTailBut(old(disk.s), disk.s, disk.alive, step.gone)
      ensures step.Left? && disk.alive ==>
        forall n | n !in step.gone :: step.kept(n) == |At(old(disk.s.dir), old(disk.s.files), n)|
      ensures ok ==> disk.alive
    {
      hide Snap.Ok, Reduced, Tally.Exact, Preserved, LogOf, Books, AllPreserved, LostAtMostTailBut, Applied, MayGo;
      hide Thorough, AllSealed, AllCertified, SealedStay, Vouched, At, Returns, Remains, RoomForTrailer, Settled;
      ghost var x := disk.Now();
      BooksOk(x, trace);
      ghost var gone: set<int>;
      var r: Result<RetentionReport, Code>;
      r, gone := RetentionApply(disk, days, now);
      ok := r.Success?;
      step := Stop(disk.Now(), gone);
      Deleted(x, disk.alive, disk.Now(), trace, gone);
      if disk.alive { KeptWhole(x, disk.Now(), gone); }
      StaysClean(x, disk.alive, disk.Now(), trace + [step], ok);
      Note(step, x);
      StoresStillOk(|stores|);
    }

    /** Between operations: nothing, or a crash. */
    method Idle() returns (ghost step: Step)
      requires Inv() && disk.alive
      modifies this`trace, this`seen, disk
      ensures disk.faults >= old(disk.faults)
      ensures disk.ledger.certified == old(disk.ledger.certified)
      ensures old(disk.s.Clean()) ==> !disk.lost && (disk.alive ==> disk.s.Clean())
      ensures Inv() && trace == old(trace) + [step] && seen == old(seen) + [disk.s]
      ensures (disk.lost || LostAtMostTail(old(disk.s), disk.s, disk.alive)) && Uneventful(step, disk.alive)
    {
      hide Snap.Ok, Outcome, Preserved, LogOf, Books, AllPreserved, LostAtMostTail, Halted, Tally.Exact, AllSealed;
      hide AllCertified, SealedStay, Vouched, Booked, Safe;
      ghost var x := disk.Now();
      BooksOk(x, trace);
      disk.Enter();
      ghost var y := disk.Now();
      EnterOutcome(x, y);
      var refused := disk.Refuses();
      OutcomeThenNoEffect(x, y, disk.alive, disk.Now());
      step := Quietly(x, disk.alive, disk.Now(), trace);
      StaysClean(x, disk.alive, disk.Now(), trace + [step], false);
      Note(step, x);
      StoresStillOk(|stores|);
    }

    /** The host comes up again: no store survives it. */
    method Boot() returns (ghost step: Step)
      requires Inv() && !disk.lost
      modifies this`stores, this`trace, this`seen, this`boot, disk
      ensures Inv() && trace == old(trace) + [step] && seen == old(seen) + [disk.s] && step.Quiet?
      ensures disk.alive && stores == [] && disk.Now() == old(disk.Now()) && disk.faults == old(disk.faults)
    {
      hide Snap.Ok, Outcome, Preserved, LogOf, Books, AllPreserved, LostAtMostTail, Tally.Exact, AllSealed, AllCertified;
      hide SealedStay, Vouched;
      ghost var x := disk.Now();
      BooksOk(x, trace);
      OutcomeReflexive(x);
      disk.Restart();
      stores, boot := [], |seen|;
      step := Quietly(x, true, x, trace);
      NothingSeen(x.fs);
      assert seen[boot..] == [];
      Note(step, x);
    }

    /** A command that finds no host, or no such store. */
    method Ignore() returns (ghost step: Step)
      requires Inv() && !disk.lost
      modifies this`trace, this`seen
      ensures Inv() && trace == old(trace) + [step] && seen == old(seen) + [disk.s] && step.Quiet?
    {
      hide Snap.Ok, Outcome, Preserved, LogOf, Books, AllPreserved, LostAtMostTail, Tally.Exact, AllSealed, AllCertified;
      hide SealedStay, Vouched;
      ghost var x := disk.Now();
      BooksOk(x, trace);
      OutcomeReflexive(x);
      step := Quietly(x, true, x, trace);
      Note(step, x);
    }

    /** A command for an existing store. */
    method Serve(c: Command, k: nat) returns (reply: Reply, ghost step: Step)
      requires Inv() && disk.alive && c.Valid() && k < |stores|
      requires (c.AppendTo? || c.RotateOf? || c.FlushOf? || c.CloseOf?) && c.store == k
      modifies this`trace, this`seen, disk, stores[k]
      ensures old(disk.s.Clean()) ==> !disk.lost && (reply.Acknowledged? ==> disk.s.Clean())
      ensures Inv() && trace == old(trace) + [step] && seen == old(seen) + [disk.s]
      ensures Fits(c, reply, step, old(disk.s), disk.s) && (reply.Stopped? <==> !disk.alive)
      ensures c.FlushOf? && reply.Acknowledged? ==>
        step == if Secured(disk.s, stores[k].descriptor) then Covered else Step.Flushed(stores[k].descriptor)
      ensures disk.ledger.certified == old(disk.ledger.certified)
    {
      hide Books, AllPreserved, AllSealed, AllCertified, LostAtMostTail, CertifiedCopy, Tally.Exact, GrownAt, EventLine;
      hide Secured;
      var ok := true;
      match c {
        case AppendTo(_, e) => ok, step := AppendTo(k, e);
        case RotateOf(_, at) => ok, step := RotateOf(k, at);
        case FlushOf(_) => ok, step := FlushOf(k);
        case CloseOf(_) => step := CloseOf(k);
      }
      reply := if !disk.alive then Stopped else if ok then Acknowledged else Failed;
    }

    /** A command for the host itself. */
    method Maintain(c: Command) returns (reply: Reply, ghost step: Step)
      requires Inv() && disk.alive && c.Valid() && (c.Launch? || c.Recovery? || c.Retention? || c.Idle?)
      modifies this`stores, this`trace, this`seen, disk
      ensures old(disk.s.Clean()) ==> !disk.lost && (reply.Acknowledged? ==> disk.s.Clean())
      ensures Inv() && trace == old(trace) + [step] && seen == old(seen) + [disk.s]
      ensures Fits(c, reply, step, old(disk.s), disk.s) && (reply.Stopped? <==> !disk.alive)
      ensures forall t <- stores :: t in old(stores) || fresh(t)
      ensures old(disk.ledger.certified) && (c.Recovery? ==> !UnsyncedTrailer(old(disk.s))) ==> disk.ledger.certified
    {
      hide Books, AllPreserved, AllSealed, AllCertified, LostAtMostTail, LostAtMostTailBut, Tally.Exact, UnsyncedTrailer;
      hide Settled, StuckTwin, StuckStaging, MayGo, Above, MAX_CANONICAL_INT, EventLine, IsEvent;
      var ok := true;
      match c {
        case Launch(days, at) =>
          ok, step := Launch(days, at);
          if ok { assert stores == old(stores) + [stores[|old(stores)|]]; }
        case Recovery => ok, step := Recover();
        case Retention(days, now) => ok, step := Retain(days, now);
        case Idle => step := Idle();
      }
      reply := if !disk.alive then Stopped else if ok then Acknowledged else Failed;
    }

    /** Any command at any time; commands on stores that do not exist, or while the host is down, do nothing. */
    method Execute(c: Command) returns (reply: Reply, ghost step: Step)
      requires Inv() && c.Valid() && !disk.lost
      modifies this, disk, set t | t in stores
      ensures old(disk.s.Clean()) ==> !disk.lost && (reply.Acknowledged? ==> disk.s.Clean())
      ensures Inv() && trace == old(trace) + [step] && seen == old(seen) + [disk.s]
      ensures Fits(c, reply, step, old(disk.s), disk.s)
      ensures c.FlushOf? && reply.Acknowledged? ==>
        && c.store < |stores|
        && step == if Secured(disk.s, stores[c.store].descriptor) then Covered else Step.Flushed(stores[c.store].descriptor)
      ensures reply.Stopped? <==> old(disk.alive) && !disk.alive
      ensures forall t <- stores :: t in old(stores) || fresh(t)
      ensures old(disk.ledger.certified) && (c.Recovery? ==> !UnsyncedTrailer(old(disk.s))) ==> disk.ledger.certified
    {
      hide Kept, StoresOk, UnsyncedTrailer;
      reply := Failed;
      if c.Boot? {
        step := Boot();
        reply := Acknowledged;
      } else if !disk.alive {
        step := Ignore();
      } else if c.Launch? || c.Recovery? || c.Retention? || c.Idle? {
        reply, step := Maintain(c);
      } else if c.store < |stores| {
        reply, step := Serve(c, c.store);
      } else {
        step := Ignore();
      }
    }
  }

  lemma NothingSeen(s: Fs)
    ensures AllPreserved([], s)
  {
  }

  // ---- any run -------------------------------------------------------------------------------------------------------------

  const EMPTY: Fs := Fs(map[], map[], {map[]})

  /** The file system before command `i`. */
  function Before(seen: seq<Fs>, i: nat): Fs
    requires i <= |seen|
  {
    if i == 0 then EMPTY else seen[i - 1]
  }

  /** Read in sequence order, the log is lines acknowledged in the run, each at most once and in the order of their
      acknowledgement. */
  ghost predicate IsAccount(t: seq<Step>, s: Fs) {
    forall lo, hi :: Log(LogOf(s), lo, hi) == LinesOf(t, Steps(t, lo, hi)) && Increasing(Steps(t, lo, hi))
  }

  /** Every line in the log at a covering acknowledgement, in particular every one acknowledged before it of which no stop
      and no deletion in between took anything, is among them, unless its own sequence was deleted later. */
  ghost predicate CoveredLast(t: seq<Step>) {
    forall p, c | 0 <= p < c < |t| && t[p].Appended? && Secures(t[c]) && NotDeleted(t, c, t[p].sequence) ::
      Untouched(t, p, c) || p in AccountOf(t[..c], t[p].sequence).ids ==> p in AccountOf(t, t[p].sequence).ids
  }

  /** Every inode that bore a rotated name after some command has the bytes it had then. */
  ghost predicate RotationsImmutable(seen: seq<Fs>, s: Fs) {
    forall k, q | 0 <= k < |seen| && Rotated(q) in seen[k].dir && seen[k].dir[Rotated(q)] in seen[k].files ::
      var i := seen[k].dir[Rotated(q)]; i in s.files && s.files[i] == seen[k].files[i]
  }

  lemma BooksAreAccount(x: Snap, t: seq<Step>)
    requires Books(x, t) && !x.lost
    ensures IsAccount(t, x.fs)
  {
    hide Snap.Ok, At, Faithful, AccountOf, Steps, Log, Increasing;
    forall lo: int, hi: int
      ensures Log(LogOf(x.fs), lo, hi) == LinesOf(t, Steps(t, lo, hi)) && Increasing(Steps(t, lo, hi))
    {
      forall n | lo <= n < hi ensures LogOf(x.fs)(n) == Held(t, n) { assert x.Slot(n) == Held(t, n); }
      LogIsItsSteps(t, LogOf(x.fs), lo, hi);
      StepsAscend(t, lo, hi);
    }
  }

  lemma FaithfulCovers(t: seq<Step>)
    requires Faithful(t)
    ensures CoveredLast(t)
  {
    hide Faithful, AccountOf, Untouched, NotDeleted;
    forall p, c | 0 <= p < c < |t| && t[p].Appended? && Secures(t[c]) && NotDeleted(t, c, t[p].sequence)
      ensures Untouched(t, p, c) || p in AccountOf(t[..c], t[p].sequence).ids ==> p in AccountOf(t, t[p].sequence).ids
    {
      if Untouched(t, p, c) || p in AccountOf(t[..c], t[p].sequence).ids { CoveredLinesLast(t, p, c); }
    }
  }

  lemma CertifiedAreImmutable(seen: seq<Fs>, s: Fs)
    requires AllSealed(seen, s) && AllCertified(seen)
    ensures RotationsImmutable(seen, s)
  {
    hide AllSealed, AllCertified;
    forall k, q | 0 <= k < |seen| && Rotated(q) in seen[k].dir && seen[k].dir[Rotated(q)] in seen[k].files
      ensures var i := seen[k].dir[Rotated(q)]; i in s.files && s.files[i] == seen[k].files[i]
    {
      RetiredKeepTheirBytes(seen, s, k, q);
    }
  }

  /** Some command before the last failed, or the host stopped during it. */
  predicate Interrupted(replies: seq<Reply>) { exists i :: 0 <= i < |replies| - 1 && !replies[i].Acknowledged? }

  /** Every command so far fits what was recorded of it; the directory is synced unless some command was not acknowledged,
      and no older change has been undone unless one before the last was not. */
  ghost predicate InStep(script: seq<Command>, replies: seq<Reply>, t: seq<Step>, seen: seq<Fs>, s: Fs, lost: bool) {
    && |replies| == |t| == |seen| <= |script| && s == Before(seen, |seen|)
    && (forall i | 0 <= i < |replies| :: Fits(script[i], replies[i], t[i], Before(seen, i), seen[i]))
    && (s.Clean() || exists i :: 0 <= i < |replies| && !replies[i].Acknowledged?)
    && (lost ==> Interrupted(replies))
  }

  lemma OneCommandMore(
    script: seq<Command>, replies: seq<Reply>, t: seq<Step>, seen: seq<Fs>, s: Fs, reply: Reply, step: Step, y: Fs, lost: bool)
    requires InStep(script, replies, t, seen, s, false) && |replies| < |script|
    requires Fits(script[|replies|], reply, step, s, y)
    requires s.Clean() ==> !lost && (reply.Acknowledged? ==> y.Clean())
    ensures InStep(script, replies + [reply], t + [step], seen + [y], y, lost)
  {
    hide Fits;
    var more, u, v := replies + [reply], t + [step], seen + [y];
    assert more[|replies|] == reply;
    forall i | 0 <= i < |more| ensures Fits(script[i], more[i], u[i], Before(v, i), v[i]) {
      if i < |replies| { assert Before(v, i) == Before(seen, i); }
    }
    if i :| 0 <= i < |replies| && !replies[i].Acknowledged? { assert more[i] == replies[i]; }
  }

  /** Any script of commands, from an empty directory, up to the first power cut that undoes a directory change older than
      the operation it strikes. */
  method Run(script: seq<Command>) returns (host: Host, replies: seq<Reply>)
    requires forall i | 0 <= i < |script| :: script[i].Valid()
    ensures fresh(host) && fresh(host.disk) && host.Inv()
    ensures |replies| == |host.trace| == |host.seen| <= |script| && (|replies| == |script| || host.disk.lost)
    ensures forall i | 0 <= i < |replies| ::
      Fits(script[i], replies[i], host.trace[i], Before(host.seen, i), host.seen[i])
    ensures !host.disk.lost ==> IsAccount(host.trace, host.disk.s)
    ensures host.disk.lost ==> Interrupted(replies) && forall n :: Held(host.trace, n) <= LogOf(host.disk.s)(n)
    ensures forall n :: Sourced(host.trace, n, LogOf(host.disk.s)(n))
    ensures AllDated(host.disk.s.files)
    ensures CoveredLast(host.trace)
    ensures AllSealed(host.seen, host.disk.s)
    ensures host.disk.ledger.certified ==> RotationsImmutable(host.seen, host.disk.s)
  {
    hide Books, Host.StoresOk, AllPreserved, AllSealed, AllCertified, UnsyncedTrailer, Snap.Ok, Host.Kept, Fits;
    hide Interrupted, IsAccount, CoveredLast, RotationsImmutable, InStep, Sourced, AllDated, Vouched;
    var disk := new Disk(EMPTY);
    EmptyIsOk(disk.Now());
    host := new Host(disk);
    replies := [];
    NoCommandYet(script);
    while |replies| < |script| && !host.disk.lost
      invariant fresh(host) && fresh(host.disk) && host.Inv()
      invariant forall t | t in host.stores :: fresh(t)
      invariant |replies| <= |script| && InStep(script, replies, host.trace, host.seen, host.disk.s, host.disk.lost)
      decreases |script| - |replies|
    {
      ghost var trace, seen, s := host.trace, host.seen, host.disk.s;
      var reply, step := host.Execute(script[|replies|]);
      OneCommandMore(script, replies, trace, seen, s, reply, step, host.disk.s, host.disk.lost);
      replies := replies + [reply];
    }
    RunEnds(host);
    StepsFit(script, replies, host.trace, host.seen, host.disk.s, host.disk.lost);
  }

  lemma NoCommandYet(script: seq<Command>)
    ensures InStep(script, [], [], [], EMPTY, false)
  {
  }

  lemma StepsFit(script: seq<Command>, replies: seq<Reply>, t: seq<Step>, seen: seq<Fs>, s: Fs, lost: bool)
    requires InStep(script, replies, t, seen, s, lost)
    ensures |replies| == |t| == |seen| <= |script| && (lost ==> Interrupted(replies))
    ensures forall i | 0 <= i < |replies| :: Fits(script[i], replies[i], t[i], Before(seen, i), seen[i])
  {
    hide Fits;
  }

  lemma EndIsSourced(host: Host)
    requires host.Inv()
    ensures forall n :: Sourced(host.trace, n, LogOf(host.disk.s)(n))
    ensures AllDated(host.disk.s.files)
  {
    hide Host.StoresOk, AllPreserved, AllSealed, AllCertified, Snap.Ok, Faithful, At, AllSourced, AllDated, Sourced, Vouched, Held;
    hide Assured;
    var x := host.disk.Now();
    if !x.lost { OkIsVouched(x); }
    forall n ensures Sourced(host.trace, n, LogOf(host.disk.s)(n)) {
      SlotIsSourced(x, host.trace, n);
      assert LogOf(host.disk.s)(n) == x.Slot(n);
    }
  }

  lemma RunEnds(host: Host)
    requires host.Inv()
    ensures !host.disk.lost ==> IsAccount(host.trace, host.disk.s)
    ensures host.disk.lost ==> forall n :: Held(host.trace, n) <= LogOf(host.disk.s)(n)
    ensures forall n :: Sourced(host.trace, n, LogOf(host.disk.s)(n))
    ensures AllDated(host.disk.s.files)
    ensures CoveredLast(host.trace) && AllSealed(host.seen, host.disk.s)
    ensures host.disk.ledger.certified ==> RotationsImmutable(host.seen, host.disk.s)
  {
    hide Host.StoresOk, AllPreserved, AllSealed, AllCertified, Snap.Ok, IsAccount, CoveredLast, RotationsImmutable;
    hide Faithful, At, AllSourced, AllDated, Sourced, Vouched;
    FaithfulCovers(host.trace);
    EndIsSourced(host);
    if !host.disk.lost {
      BooksAreAccount(host.disk.Now(), host.trace);
    } else {
      forall n ensures Held(host.trace, n) <= LogOf(host.disk.s)(n) {
        assert Held(host.trace, n) <= host.disk.Now().Slot(n);
      }
    }
    if host.disk.ledger.certified {
      CertifiedAreImmutable(host.seen, host.disk.s);
    }
  }

  /** Coming back after any run, however it ended: recover, recover again, and open. While no system call fails, the first
      recovery succeeds exactly on a recoverable directory and loses nothing; the second changes nothing; and the directory
      then opens unless it holds too many rotations. If no older change has been undone, a directory is recoverable unless it
      is stuck, and it never holds too many; if one has, recovery restores the invariant over what is left. */
  method ComeBack(host: Host, retentionDays: int, openedAt: Instant)
    returns (recovered: bool, reopened: bool, ghost first: Fs, ghost second: Fs)
    requires host.Inv() && InRange(openedAt) && 1 <= retentionDays <= MAX_LOG_RETENTION_DAYS
    modifies host, host.disk
    ensures !old(host.disk.lost) ==> host.Inv()
    ensures host.disk.alive && host.disk.faults == old(host.disk.faults) ==>
      && (recovered <==> Recoverable(old(host.disk.s)))
      && (recovered ==>
            && second == first && (forall n :: LogOf(first)(n) == LogOf(old(host.disk.s))(n))
            && (reopened <==> |Rotations(first.dir)| <= 10_000 && (Current !in first.dir ==> Above(MAX_CANONICAL_INT, first.dir))))
      && (old(host.disk.ledger.certified) ==> !StuckTwin(old(host.disk.s)))
      && (!old(host.disk.lost) ==>
            && (recovered <==> !StuckTwin(old(host.disk.s)) && !StuckStaging(old(host.disk.s)))
            && (recovered ==> |Rotations(first.dir)| <= 10_000)
            && forall n :: LogOf(host.disk.s)(n) == LogOf(old(host.disk.s))(n))
    ensures old(host.disk.lost) && recovered ==>
      && Repairable(old(host.disk.s)) && first == Restored(old(host.disk.Now())).fs
      && (|Rotations(first.dir)| <= 10_000 ==> Restored(old(host.disk.Now())).Ok())
  {
    hide Books, Host.StoresOk, AllSealed, AllPreserved, AllCertified, Settled, StuckTwin, StuckStaging, Snap.Ok, Above;
    hide MAX_CANONICAL_INT, LogOf, Recoverable, Vouched, Repairable, Restored, Rotations;
    if host.disk.lost {
      recovered, reopened, first, second := Salvage(host.disk, retentionDays, openedAt);
    } else {
      recovered, reopened, first, second := Resume(host, retentionDays, openedAt);
      if Settled(first) { SettledIsBounded(first); }
    }
  }

  lemma SettledIsBounded(s: Fs)
    requires Settled(s)
    ensures |Rotations(s.dir)| <= MAX_ROTATIONS
  {
  }

  /** Coming back to a directory in which older changes have been undone. */
  method Salvage(disk: Disk, retentionDays: int, openedAt: Instant)
    returns (recovered: bool, reopened: bool, ghost first: Fs, ghost second: Fs)
    requires Vouched(disk.Now()) && InRange(openedAt) && 1 <= retentionDays <= MAX_LOG_RETENTION_DAYS
    modifies disk
    ensures disk.alive && disk.faults == old(disk.faults) ==>
      && (recovered <==> Recoverable(old(disk.s)))
      && (recovered ==>
            && second == first && (forall n :: LogOf(first)(n) == LogOf(old(disk.s))(n))
            && (reopened <==> |Rotations(first.dir)| <= MAX_ROTATIONS && (Current !in first.dir ==> Above(MAX_CANONICAL_INT, first.dir))))
      && (old(disk.ledger.certified) ==> !StuckTwin(old(disk.s)))
    ensures recovered && old(disk.lost) ==>
      && Repairable(old(disk.s)) && first == Restored(old(disk.Now())).fs
      && (|Rotations(first.dir)| <= MAX_ROTATIONS ==> Restored(old(disk.Now())).Ok())
  {
    hide Repairable, Removable, Rotations, Vouched, AfterRecovery, Settled, StuckTwin, StuckStaging, Snap.Ok, LogOf;
    hide Outcome, Above, MAX_CANONICAL_INT;
    ghost var x := disk.Now();
    VouchedIsWellFormed(x);
    if x.ledger.certified { VouchedIsNotStuck(x); }
    disk.Restart();
    reopened := false;
    var r := LogRecovery.Recover(disk);
    recovered := r.Success?;
    first, second := disk.s, disk.s;
    if !recovered {
      return;
    }
    RecoveryKeepsLog(x.fs);
    RecoveredStays(x.fs);
    if x.lost && |Rotations(first.dir)| <= MAX_ROTATIONS { SalvagedIsOk(x); }
    r := LogRecovery.Recover(disk);
    second := disk.s;
    if !disk.alive || r.Failure? {
      return;
    }
    var store := new StructuredLogStore(disk, retentionDays);
    var refusal := store.Open(openedAt);
    reopened := refusal.None?;
  }

  /** Coming back to a directory in which nothing older has been undone. */
  method Resume(host: Host, retentionDays: int, openedAt: Instant)
    returns (recovered: bool, reopened: bool, ghost first: Fs, ghost second: Fs)
    requires host.Inv() && !host.disk.lost && InRange(openedAt) && 1 <= retentionDays <= MAX_LOG_RETENTION_DAYS
    modifies host, host.disk
    ensures host.Inv()
    ensures host.disk.alive && host.disk.faults == old(host.disk.faults) ==>
      && (recovered <==> !StuckTwin(old(host.disk.s)) && !StuckStaging(old(host.disk.s)))
      && (recovered <==> Recoverable(old(host.disk.s)))
      && (old(host.disk.ledger.certified) ==> !StuckTwin(old(host.disk.s)))
      && (recovered ==> second == first && (reopened <==> (Current !in first.dir ==> Above(MAX_CANONICAL_INT, first.dir))))
      && (recovered ==> Settled(first) && forall n :: LogOf(first)(n) == LogOf(old(host.disk.s))(n))
      && (forall n :: LogOf(host.disk.s)(n) == LogOf(old(host.disk.s))(n))
  {
    hide Recoverable, Books, Host.StoresOk, Host.Kept, Settled, StuckTwin, StuckStaging, UnsyncedTrailer, Snap.Ok, Above;
    hide MAX_CANONICAL_INT, At;
    ghost var step := host.Boot();
    reopened := false;
    recovered, step := host.Recover();
    first, second := host.disk.s, host.disk.s;
    if !host.disk.alive {
      return;
    }
    host.UpIsWhole();
    if !recovered {
      return;
    }
    var again: bool;
    again, step := host.Recover();
    second := host.disk.s;
    if !host.disk.alive {
      return;
    }
    host.UpIsWhole();
    reopened, step := host.Launch(retentionDays, openedAt);
    if host.disk.alive { host.UpIsWhole(); }
  }
}

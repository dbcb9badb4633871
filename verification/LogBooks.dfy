/** The log against what a run has acknowledged: how every operation of the store carries the account forward. */
module LogBooks {
  import opened Common
  import opened LogSegments
  import opened LogDisk
  import opened LogVersions
  import opened LogFilesystem
  import opened LogPublish
  import opened LogStore
  import opened LogRecovery
  import opened LogRetention
  import opened LogTrace

  /** Every sequence of the log holds exactly the lines the run says it does, and those sure to last are promised. After a
      power cut that undid an older change, the log still begins with the latter. */
  ghost predicate Books(x: Snap, t: seq<Step>) {
    && Faithful(t) && (forall n :: Assured(t, n) <= x.ledger.promised(n)) && AllSourced(x.fs.files, t)
    && AllDated(x.fs.files)
    && if x.lost then Ended(t) && forall n :: Held(t, n) <= x.Slot(n)
       else x.Ok() && !Ended(t) && forall n :: Held(t, n) == x.Slot(n)
  }

  /** The events of every inode, whether the directory shows it or not, were appended to its sequence in the run, in the
      same order. */
  ghost predicate AllSourced(files: Files, t: seq<Step>) { forall i <- files.Keys :: SourcedFile(files[i], t) }

  ghost predicate SourcedFile(f: File, t: seq<Step>) {
    || Barren(f)
    || (Whole(f) && SequenceOf(f).Some? && Sourced(t, SequenceOf(f).value, Events(f.data)))
  }

  lemma LeftIsSourced(f: File, g: File, t: seq<Step>, s: Step)
    requires SourcedFile(f, t) && LeftOf(f, g)
    ensures SourcedFile(g, t + [s])
  {
    hide Barren, Whole, SequenceOf, Events, Sourced;
    if !Barren(f) {
      PrefixIsSourced(t, SequenceOf(f).value, Events(f.data), Events(g.data));
      StaysSourced(t, s, SequenceOf(f).value, Events(g.data));
    }
  }

  lemma NothingNewIsSourced(x: Fs, y: Fs, t: seq<Step>, s: Step)
    requires AllSourced(x.files, t) && NothingNew(x, y)
    ensures AllSourced(y.files, t + [s])
  {
    hide Barren, SourcedFile, LeftOf;
    forall i <- y.files.Keys ensures SourcedFile(y.files[i], t + [s]) {
      if i in x.files {
        LeftIsSourced(x.files[i], y.files[i], t, s);
      } else {
        BarrenIsSourced(y.files[i], t + [s]);
      }
    }
  }

  lemma BarrenIsSourced(f: File, t: seq<Step>)
    requires Barren(f)
    ensures SourcedFile(f, t)
  {
    hide Barren, Whole, SequenceOf, Events, Sourced;
  }

  lemma SownIsSourced(x: Fs, y: Fs, t: seq<Step>, s: Step, q: int)
    requires AllSourced(x.files, t) && Sown(x, y, q) && Sourced(t + [s], q, LogOf(y)(q))
    ensures AllSourced(y.files, t + [s])
  {
    hide Barren, SourcedFile, LeftOf, Whole, SequenceOf, Events, Sourced, At;
    forall i <- y.files.Keys ensures SourcedFile(y.files[i], t + [s]) {
      if Whole(y.files[i]) && SequenceOf(y.files[i]) == Some(q) && Events(y.files[i].data) == LogOf(y)(q) {
        ShownIsSourced(y.files[i], t + [s], q);
      } else if i in x.files {
        LeftIsSourced(x.files[i], y.files[i], t, s);
      } else {
        BarrenIsSourced(y.files[i], t + [s]);
      }
    }
  }

  lemma ShownIsSourced(f: File, t: seq<Step>, q: int)
    requires Whole(f) && SequenceOf(f) == Some(q) && Sourced(t, q, Events(f.data))
    ensures SourcedFile(f, t)
  {
    hide Whole, SequenceOf, Events, Sourced;
  }

  /** Whatever a crash has undone, every line the log shows was appended to its sequence in the run, in the same order. */
  lemma SlotIsSourced(y: Snap, t: seq<Step>, n: int)
    requires Vouched(y) && AllSourced(y.fs.files, t)
    ensures Sourced(t, n, y.Slot(n))
  {
    hide OpenFile, ClosedFile, SequenceOf, Events, Sourced, Certified;
    NoLinesAreSourced(t, n);
    if Current in y.fs.dir { assert Whole(y.fs.files[y.fs.dir[Current]]) && SourcedFile(y.fs.files[y.fs.dir[Current]], t); }
    if Rotated(n) in y.fs.dir {
      assert Whole(y.fs.files[y.fs.dir[Rotated(n)]]) && SourcedFile(y.fs.files[y.fs.dir[Rotated(n)]], t);
    }
  }

  lemma BooksIn(x: Snap, t: seq<Step>, n: int)
    requires Books(x, t) && !x.lost
    ensures x.Ok() && !Ended(t) && Faithful(t) && Assured(t, n) <= x.ledger.promised(n) && Held(t, n) == x.Slot(n)
    ensures |Held(t, n)| == |AccountOf(t, n).ids| && |Assured(t, n)| == AccountOf(t, n).sure && Assured(t, n) <= Held(t, n)
    ensures AllSourced(x.fs.files, t) && AllDated(x.fs.files)
  {
    hide Snap.Ok, At, Faithful, AccountOf, AllSourced, AllDated;
    HeldLengths(t, n);
  }

  lemma NextBooks(y: Snap, t: seq<Step>, s: Step)
    requires Faithful(t) && Allowed(t, s) && forall n :: AssuredNext(t, s, n) <= y.ledger.promised(n)
    requires AllSourced(y.fs.files, t + [s]) && AllDated(y.fs.files)
    requires if y.lost then s.Undone? && forall n :: HeldNext(t, s, n) <= y.Slot(n)
             else y.Ok() && !s.Undone? && forall n :: HeldNext(t, s, n) == y.Slot(n)
    ensures Books(y, t + [s])
  {
    hide Snap.Ok, At, Faithful, Allowed, Held, Assured, HeldNext, AssuredNext, AllSourced, AllDated;
    FaithfulStep(t, s);
    forall n ensures Held(t + [s], n) == HeldNext(t, s, n) && Assured(t + [s], n) == AssuredNext(t, s, n) {
      HeldAfter(t, s, n);
    }
  }

  lemma OutcomeInherits(x: Snap, alive: bool, y: Snap)
    requires Outcome(x, alive, y)
    ensures NothingNew(x.fs, y.fs)
  {
    hide Snap.Ok, SealedStay, NothingNew, Preserved;
  }

  lemma ReducedInherits(x: Snap, alive: bool, y: Snap, gone: set<int>)
    requires Reduced(x, alive, y, gone)
    ensures NothingNew(x.fs, y.fs)
  {
    hide Snap.Ok, SealedStay, NothingNew, Preserved;
  }

  /** An operation that adds nothing and came to an end; if it was acknowledged as covering, all of the log is
      promised. */
  lemma QuietBooks(x: Snap, y: Snap, t: seq<Step>, s: Step)
    requires Books(x, t) && !x.lost && Outcome(x, true, y)
    requires s.Quiet? || s.Flushed? || (s.Covered? && AllPromised(y))
    ensures Books(y, t + [s]) && Preserved(x.fs, y.fs)
  {
    hide Snap.Ok, At, Synced, Faithful, Held, Assured, Preserved, Inherits, Books, AllSourced, AllDated, NothingNew;
    OutcomeIsOk(x, y);
    BooksIn(x, t, 0);
    OkIsKept(y);
    OutcomeInherits(x, true, y);
    NothingNewIsSourced(x.fs, y.fs, t, s);
    NothingNewIsDated(x.fs, y.fs);
    forall n
      ensures HeldNext(t, s, n) == y.Slot(n) && AssuredNext(t, s, n) <= y.ledger.promised(n)
    {
      BooksIn(x, t, n);
      assert x.ledger.promised(n) <= y.ledger.promised(n) && y.Slot(n) == x.Slot(n);
    }
    NextBooks(y, t, s);
  }

  lemma OkIsKept(x: Snap)
    requires x.Ok()
    ensures !x.lost
  {
  }

  /** An acknowledged append. */
  lemma AppendBooks(x: Snap, y: Snap, t: seq<Step>, q: int, line: string, rolled: bool)
    requires Books(x, t) && !x.lost && Logged(x, y, q, line)
    requires rolled ==> forall n :: y.ledger.promised(n) == x.Slot(n)
    ensures Books(y, t + [Step.Appended(q, line, rolled)]) && Allowed(t, Step.Appended(q, line, rolled))
  {
    hide Snap.Ok, At, Synced, Faithful, Held, Assured, Preserved, AccountOf, Books, AllSourced, AllDated;
    var s := Step.Appended(q, line, rolled);
    BooksIn(x, t, 0);
    LoggedIsOk(x, y, q, line);
    OkIsKept(y);
    forall n
      ensures HeldNext(t, s, n) == y.Slot(n) && AssuredNext(t, s, n) <= y.ledger.promised(n)
      ensures n > q ==> AccountOf(t, n).ids == []
    {
      BooksIn(x, t, n);
      assert x.ledger.promised(n) <= y.ledger.promised(n);
      assert n > q ==> y.Slot(n) == x.Slot(n) == [];
    }
    AppendIsSourced(x, y, t, s);
    NextBooks(y, t, s);
  }

  lemma AppendIsSourced(x: Snap, y: Snap, t: seq<Step>, s: Step)
    requires Faithful(t) && Allowed(t, s) && s.Appended? && Sown(x.fs, y.fs, s.sequence) && AllSourced(x.fs.files, t)
    requires y.Slot(s.sequence) == HeldNext(t, s, s.sequence)
    ensures AllSourced(y.fs.files, t + [s])
  {
    hide At, Faithful, Allowed, Held, HeldNext, AllSourced, Sown, Sourced;
    HeldAfter(t, s, s.sequence);
    FaithfulStep(t, s);
    HeldIsSourced(t + [s], s.sequence);
    SownIsSourced(x.fs, y.fs, t, s, s.sequence);
  }

  /** How much of every sequence is left. */
  ghost function Remains(y: Snap): int -> nat { n => |y.Slot(n)| }

  /** The step of an operation the host did not survive. */
  ghost function Stop(y: Snap, gone: set<int>): Step { if y.lost then Undone(gone) else Left(Remains(y), gone) }

  /** An operation that the host did not survive, or one that deletes. */
  lemma ReduceBooks(x: Snap, alive: bool, y: Snap, t: seq<Step>, gone: set<int>)
    requires Books(x, t) && !x.lost && Reduced(x, alive, y, gone)
    ensures Books(y, t + [Stop(y, gone)]) && Allowed(t, Stop(y, gone)) && (alive ==> !y.lost)
  {
    hide Snap.Ok, At, Synced, Faithful, Held, Assured, Preserved, Inherits, AccountOf, Books, AllSourced, AllDated, NothingNew;
    var s := Stop(y, gone);
    BooksIn(x, t, 0);
    ReducedInherits(x, alive, y, gone);
    NothingNewIsSourced(x.fs, y.fs, t, s);
    NothingNewIsDated(x.fs, y.fs);
    if !y.lost {
      ReduceAllowed(x, alive, y, t, gone);
    } else if alive {
      OkIsKept(y);
    }
    forall n
      ensures if y.lost then HeldNext(t, s, n) <= y.Slot(n) else HeldNext(t, s, n) == y.Slot(n)
      ensures AssuredNext(t, s, n) <= y.ledger.promised(n)
    {
      BooksIn(x, t, n);
      if n !in gone {
        assert x.ledger.promised(n) <= y.ledger.promised(n);
        assert y.lost ==> x.ledger.promised(n) <= y.Slot(n);
      }
      assert !y.lost ==> y.Slot(n) <= x.Slot(n);
    }
    NextBooks(y, t, s);
  }

  lemma ReduceAllowed(x: Snap, alive: bool, y: Snap, t: seq<Step>, gone: set<int>)
    requires Books(x, t) && !x.lost && Reduced(x, alive, y, gone) && !y.lost
    ensures Allowed(t, Left(Remains(y), gone)) && y.Ok()
  {
    hide Snap.Ok, At, Synced, Faithful, Held, Assured, Preserved, Inherits, AccountOf, Books, AllSourced, AllDated;
    BooksIn(x, t, 0);
    forall n
      ensures Remains(y)(n) <= |AccountOf(t, n).ids| && (n in gone || AccountOf(t, n).sure <= Remains(y)(n))
      ensures Remains(y)(n) == |AccountOf(t, n).ids| ==> y.Slot(n) == x.Slot(n)
    {
      BooksIn(x, t, n);
      assert y.Slot(n) <= x.Slot(n);
      if n !in gone { PromiseRemains(x, alive, y, gone, n); }
    }
    forall n, m | n < m && n !in gone && m !in gone && Remains(y)(n) != |AccountOf(t, n).ids|
      ensures AccountOf(t, m).ids == []
    {
      BooksIn(x, t, n);
      BooksIn(x, t, m);
      assert y.Slot(n) != x.Slot(n);
    }
  }

  lemma PromiseRemains(x: Snap, alive: bool, y: Snap, gone: set<int>, n: int)
    requires x.Ok() && Reduced(x, alive, y, gone) && n !in gone
    ensures |x.ledger.promised(n)| <= |y.Slot(n)|
  {
    hide At, Synced, Preserved, Inherits, Good, Firm;
    if alive {
      CalmWorld(x);
      DurableWithin(x.fs.dir, x.fs.files, n);
      assert x.ledger.promised(n) <= At(x.fs.dir, Synced(x.fs.files), n);
      assert y.Slot(n) == x.Slot(n);
    } else {
      assert x.ledger.promised(n) <= y.Slot(n);
    }
  }

  /** Nothing has been acknowledged, and nothing is in the log. */
  lemma NoBooks(x: Snap)
    requires x.Ok() && x.fs == Fs(map[], map[], {map[]}) && forall n :: x.ledger.promised(n) == []
    ensures Books(x, [])
  {
    hide Good, Firm;
    forall n ensures Held([], n) == [] && Assured([], n) == [] {}
  }

  /** Recovery may have to give up the claim that every rotation is certified; the account does not depend on it. */
  lemma WeakenedBooks(x: Snap, t: seq<Step>)
    requires Books(x, t) && !x.lost
    ensures Books(Weakened(x), t)
  {
    hide At, Snap.Ok, Faithful, Held, Assured;
    WeakenedOk(x);
    OkIsKept(Weakened(x));
    forall n ensures Weakened(x).Slot(n) == Held(t, n) { assert x.Slot(n) == Held(t, n); }
  }

  // ---- what was seen -----------------------------------------------------------------------------------------------------------

  ghost predicate AllPreserved(seen: seq<Fs>, s: Fs) { forall k | 0 <= k < |seen| :: Preserved(seen[k], s) }
  ghost predicate AllSealed(seen: seq<Fs>, s: Fs) { forall k | 0 <= k < |seen| :: SealedStay(seen[k], s) }
  ghost predicate AllCertified(seen: seq<Fs>) { forall k | 0 <= k < |seen| :: Certified(seen[k].dir, seen[k].files) }

  lemma SeenOnceMore(seen: seq<Fs>, x: Fs, y: Fs)
    requires AllPreserved(seen, x) && Preserved(x, y)
    ensures AllPreserved(seen + [y], y)
  {
    hide Preserved;
    PreservedDir(y, y);
    forall k | 0 <= k < |seen| ensures Preserved(seen[k], y) { PreservedTransitive(seen[k], x, y); }
  }

  lemma SealedOnceMore(seen: seq<Fs>, x: Fs, y: Fs)
    requires AllSealed(seen, x) && SealedStay(x, y)
    ensures AllSealed(seen + [y], y)
  {
    hide SealedStay;
    SameSeals(y);
    forall k | 0 <= k < |seen| ensures SealedStay(seen[k], y) { SealedTransitive(seen[k], x, y); }
  }

  lemma CertifiedOnceMore(seen: seq<Fs>, y: Fs)
    requires AllCertified(seen) && Certified(y.dir, y.files)
    ensures AllCertified(seen + [y])
  {
    hide Certified;
  }

  /** Every rotation seen while all were certified still has the bytes it had then. */
  lemma RetiredKeepTheirBytes(seen: seq<Fs>, s: Fs, k: nat, q: int)
    requires AllSealed(seen, s) && AllCertified(seen) && k < |seen|
    requires Rotated(q) in seen[k].dir && seen[k].dir[Rotated(q)] in seen[k].files
    ensures var i := seen[k].dir[Rotated(q)]; i in s.files && s.files[i] == seen[k].files[i]
  {
    hide IsClosed, IsOpen, Roomy;
    assert SealedStay(seen[k], s) && Certified(seen[k].dir, seen[k].files);
  }
}

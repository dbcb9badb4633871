/** Every change of a directory entry, and of the staging file, keeps a directory version good. */
module LogNames {
  import opened Common
  import opened LogWire
  import opened LogSegments
  import opened LogDisk
  import opened LogSteps

  /** The directory operations of the protocol, with the inode they concern. */
  datatype DirOp = Bind(name: Name, inode: Inode) | Drop(name: Name) | Publish(inode: Inode)

  function Apply(op: DirOp, d: Dir): Dir {
    match op
    case Bind(name, i) => d[name := i]
    case Drop(name) => d - {name}
    case Publish(i) => (d - {Staging})[Current := i]
  }

  // ---- a bound on rotations -------------------------------------------------------------------------------------

  lemma RotationsUnchanged(d: Dir, e: Dir)
    requires forall q :: Rotated(q) in d <==> Rotated(q) in e
    ensures Rotations(d) == Rotations(e)
  {
    assert forall n: Name | n.Rotated? :: n == Rotated(n.sequence);
  }

  // ---- staging ----------------------------------------------------------------------------------------------------

  /** A new inode under no name changes nothing. */
  lemma NewInode(d: Dir, files: Files, j: Inode, g: File, l: Ledger)
    requires World(d, files, l) && forall n <- d.Keys :: d[n] != j
    ensures World(d, files[j := g], l)
    ensures forall n :: At(d, files[j := g], n) == At(d, files, n)
    ensures forall n :: At(d, Synced(files[j := g]), n) == At(d, Synced(files), n)
  {
    hide OpenFile, ClosedFile, SequenceOf, Events;
    var after := files[j := g];
    forall q | Rotated(q) in d ensures RotatedOk(d, after, q) { assert RotatedOk(d, files, q); }
    if Current in d { assert CurrentOk(d, files) && CurrentOk(d, after); }
    if Staging in d {
      assert StagingOk(d, files);
      var h :| StagedAs(files[d[Staging]], h, d);
      assert StagedAs(after[d[Staging]], h, d);
    }
    assert Good(d, after) by { hide RotatedOk, CurrentOk, StagingOk; }
    SameFilesSameSlots(d, files, after, l);
  }

  /** Only the files that bear a name matter to the log. */
  lemma SameFilesSameSlots(d: Dir, files: Files, after: Files, l: Ledger)
    requires World(d, files, l) && Good(d, after)
    requires forall n <- d.Keys :: n in d && d[n] in files && d[n] in after && files[d[n]] == after[d[n]]
    ensures World(d, after, l)
    ensures forall n :: At(d, after, n) == At(d, files, n) && At(d, Synced(after), n) == At(d, Synced(files), n)
  {
    hide OpenFile, ClosedFile, SequenceOf, Events, Good;
    assert l.certified ==> Certified(d, after);
    forall n
      ensures At(d, after, n) == At(d, files, n) && At(d, Synced(after), n) == At(d, Synced(files), n)
      ensures Records(d, after, l, n) && l.promised(n) <= At(d, Synced(after), n)
    {
      assert Records(d, files, l, n) && l.promised(n) <= At(d, Synced(files), n);
    }
  }

  /** Binding the staging name to a file that holds a prefix of the next header. */
  lemma StageStep(d: Dir, files: Files, j: Inode, h: Header, l: Ledger)
    requires World(d, files, l) && Current !in d && Staging !in d
    requires j in files && (forall n <- d.Keys :: d[n] != j) && StagedAs(files[j], h, d)
    ensures World(d[Staging := j], files, l)
    ensures forall n :: At(d[Staging := j], files, n) == At(d, files, n)
    ensures forall n :: At(d[Staging := j], Synced(files), n) == At(d, Synced(files), n)
  {
    hide OpenFile, ClosedFile, SequenceOf, Events;
    var e := d[Staging := j];
    RotationsUnchanged(d, e);
    forall q | Rotated(q) in e ensures RotatedOk(e, files, q) { assert RotatedOk(d, files, q); }
    assert StagedAs(files[j], h, e);
    assert StagingOk(e, files);
    assert Good(e, files) by { hide RotatedOk, CurrentOk, StagingOk, Rotations; }
    SameSlots(d, e, files, l);
  }

  /** Two directory versions with the same rotations and the same active segment hold the same log. */
  lemma SameSlots(d: Dir, e: Dir, files: Files, l: Ledger)
    requires World(d, files, l) && Good(e, files)
    requires forall q :: Rotated(q) in d <==> Rotated(q) in e
    requires forall q | Rotated(q) in d :: e[Rotated(q)] == d[Rotated(q)]
    requires Current in d <==> Current in e
    requires Current in d ==> d[Current] == e[Current]
    ensures World(e, files, l)
    ensures forall n :: At(e, files, n) == At(d, files, n) && At(e, Synced(files), n) == At(d, Synced(files), n)
  {
    hide Good, SequenceOf, Events, Synced;
    forall n
      ensures At(e, files, n) == At(d, files, n) && At(e, Synced(files), n) == At(d, Synced(files), n)
      ensures Records(e, files, l, n) && l.promised(n) <= At(e, Synced(files), n)
    {
      assert Records(d, files, l, n) && l.promised(n) <= At(d, Synced(files), n);
    }
  }

  /** Writing part of the next header to the staged file. */
  lemma StagedWriteStep(d: Dir, files: Files, g: File, h: Header, l: Ledger)
    requires World(d, files, l) && Staging in d
    requires h.Valid() && g.data <= HeaderLine(h) && g.synced <= |g.data| && Above(h.sequence, d)
    ensures World(d, files[d[Staging] := g], l)
    ensures forall n :: At(d, files[d[Staging] := g], n) == At(d, files, n)
    ensures forall n :: At(d, Synced(files[d[Staging] := g]), n) == At(d, Synced(files), n)
  {
    hide OpenFile, ClosedFile, SequenceOf, Events, HeaderLine;
    var j := d[Staging];
    var after := files[j := g];
    assert StagingOk(d, files);
    var e := d - {Staging};
    assert e[Staging := j] == d;
    RotationsUnchanged(d, e);
    DropStagingStep(d, files, l);
    NewInode(e, files, j, g, l);
    assert StagedAs(g, h, e);
    StageStep(e, after, j, h, l);
  }

  /** Removing the staging name. */
  lemma DropStagingStep(d: Dir, files: Files, l: Ledger)
    requires World(d, files, l)
    ensures World(d - {Staging}, files, l)
    ensures forall n :: At(d - {Staging}, files, n) == At(d, files, n)
    ensures forall n :: At(d - {Staging}, Synced(files), n) == At(d, Synced(files), n)
  {
    hide OpenFile, ClosedFile, SequenceOf, Events;
    var e := d - {Staging};
    RotationsUnchanged(d, e);
    forall q | Rotated(q) in e ensures RotatedOk(e, files, q) { assert RotatedOk(d, files, q); }
    if Current in e { assert CurrentOk(d, files) && CurrentOk(e, files); }
    assert Good(e, files) by { hide RotatedOk, CurrentOk, StagingOk, Rotations; }
    SameSlots(d, e, files, l);
  }

  /** Publishing a whole, synced header as the active segment. */
  lemma PublishStep(d: Dir, files: Files, j: Inode, h: Header, l: Ledger)
    requires World(d, files, l) && Current !in d && j in files && h.Valid() && Above(h.sequence, d)
    requires files[j] == File(HeaderLine(h), |HeaderLine(h)|)
    requires forall n <- d.Keys :: n != Staging ==> d[n] != j
    ensures var e := Apply(Publish(j), d);
      && World(e, files, l)
      && (forall n :: At(e, files, n) == At(d, files, n) && At(e, Synced(files), n) == At(d, Synced(files), n))
    ensures OpenFile(files[j]) && HeaderOfData(files[j].data) == Some(h) && Events(files[j].data) == []
    ensures SplitLines(files[j].data).torn == ""
  {
    hide OpenFile, ClosedFile, Events, HeaderLine, HeaderOfData, SplitLines, World, Above, At, Synced;
    FreshFile(h);
    DropStagingStep(d, files, l);
    AboveFewer(h.sequence, d, d - {Staging});
    PublishBare(d - {Staging}, files, j, h, l);
  }

  lemma AboveFewer(sequence: int, d: Dir, e: Dir)
    requires Above(sequence, d) && e.Keys <= d.Keys
    ensures Above(sequence, e)
  {
  }

  lemma PublishBare(c: Dir, files: Files, j: Inode, h: Header, l: Ledger)
    requires World(c, files, l) && Current !in c && Staging !in c && j in files && Above(h.sequence, c)
    requires OpenFile(files[j]) && HeaderOfData(files[j].data) == Some(h) && Events(files[j].data) == []
    requires files[j].synced == |files[j].data|
    requires forall n <- c.Keys :: c[n] != j
    ensures World(c[Current := j], files, l)
    ensures forall n :: At(c[Current := j], files, n) == At(c, files, n)
    ensures forall n :: At(c[Current := j], Synced(files), n) == At(c, Synced(files), n)
  {
    hide OpenFile, ClosedFile, Events, HeaderLine, HeaderOfData;
    var e := c[Current := j];
    RotationsUnchanged(c, e);
    forall q | Rotated(q) in e ensures RotatedOk(e, files, q) { assert RotatedOk(c, files, q); }
    FileHasSequence(files[j]);
    assert CurrentOk(e, files);
    assert Good(e, files) by { hide RotatedOk, CurrentOk, StagingOk, Rotations; }
    assert files[j].data[..files[j].synced] == files[j].data;
    forall n
      ensures At(e, files, n) == At(c, files, n) && At(e, Synced(files), n) == At(c, Synced(files), n)
      ensures Records(e, files, l, n) && l.promised(n) <= At(e, Synced(files), n)
    {
      assert Records(c, files, l, n) && l.promised(n) <= At(c, Synced(files), n);
    }
  }

  lemma FreshFile(h: Header)
    requires h.Valid()
    ensures var f := File(HeaderLine(h), |HeaderLine(h)|);
      OpenFile(f) && HeaderOfData(f.data) == Some(h) && Events(f.data) == [] && SplitLines(f.data).torn == ""
  {
    hide HeaderLine, IsOpen, Events, SplitLines;
    FreshIsOpen(h);
    HeaderLineLength(h);
    KeptOfWholeOpen(HeaderLine(h));
  }

  // ---- rotation -------------------------------------------------------------------------------------------------------

  /** Giving the closed active segment its rotated name. */
  lemma LinkStep(d: Dir, files: Files, l: Ledger)
    requires World(d, files, l) && Unlinked(d, files) && ClosedFile(files[d[Current]])
    requires l.certified ==> files[d[Current]].synced == |files[d[Current]].data|
    ensures var e := d[Rotated(SequenceOf(files[d[Current]]).value) := d[Current]];
      && World(e, files, l)
      && forall n :: At(e, files, n) == At(d, files, n) && At(e, Synced(files), n) == At(d, Synced(files), n)
  {
    hide OpenFile, ClosedFile, Events, HeaderOfData;
    FileHasSequence(files[d[Current]]);
    var i := d[Current];
    var s := SequenceOf(files[i]).value;
    var e := d[Rotated(s) := i];
    assert CurrentOk(d, files);
    forall q | Rotated(q) in e ensures RotatedOk(e, files, q) {
      if q != s { assert RotatedOk(d, files, q); }
    }
    assert CurrentOk(e, files);
    assert PendingRotation(d, files) && !PendingRotation(e, files);
    assert Rotations(e) == Rotations(d) + {Rotated(s)};
    assert Good(e, files) by { hide RotatedOk, CurrentOk, StagingOk, Rotations, PendingRotation; }
    CutSynced(files[i]);
    forall n
      ensures At(e, files, n) == At(d, files, n) && At(e, Synced(files), n) == At(d, Synced(files), n)
      ensures Records(e, files, l, n) && l.promised(n) <= At(e, Synced(files), n)
    {
      assert Records(d, files, l, n) && l.promised(n) <= At(d, Synced(files), n);
    }
  }

  /** Removing the `current` name of a segment that already has its rotated one. */
  lemma RetireStep(d: Dir, files: Files, l: Ledger)
    requires World(d, files, l) && Current in d && SequenceOf(files[d[Current]]).Some?
    requires Rotated(SequenceOf(files[d[Current]]).value) in d
    ensures var e := d - {Current};
      && World(e, files, l) && Staging !in e && Above(SequenceOf(files[d[Current]]).value + 1, e)
      && forall n :: At(e, files, n) == At(d, files, n) && At(e, Synced(files), n) == At(d, Synced(files), n)
  {
    hide OpenFile, ClosedFile, Events, HeaderOfData;
    FileHasSequence(files[d[Current]]);
    var i := d[Current];
    var s := SequenceOf(files[i]).value;
    var e := d - {Current};
    assert CurrentOk(d, files);
    forall q | Rotated(q) in e ensures RotatedOk(e, files, q) { assert RotatedOk(d, files, q); }
    RotationsUnchanged(d, e);
    assert Staging !in e;
    assert !PendingRotation(e, files);
    assert Good(e, files) by { hide RotatedOk, CurrentOk, StagingOk, Rotations, PendingRotation; }
    assert RotatedOk(d, files, s);
    CutSynced(files[i]);
    forall n
      ensures At(e, files, n) == At(d, files, n) && At(e, Synced(files), n) == At(d, Synced(files), n)
      ensures Records(e, files, l, n) && l.promised(n) <= At(e, Synced(files), n)
    {
      assert Records(d, files, l, n) && l.promised(n) <= At(d, Synced(files), n);
    }
  }

  // ---- recovery and retention --------------------------------------------------------------------------------------------

  /** Truncating the active segment to its complete lines. */
  function Truncated(f: File): File {
    var n := |Complete(f.data)|;
    File(Complete(f.data), if f.synced <= n then f.synced else n)
  }

  lemma TruncatedFile(f: File)
    requires OpenFile(f)
    ensures var g := Truncated(f);
      && OpenFile(g) && HeaderOfData(g.data) == HeaderOfData(f.data) && Events(g.data) == Events(f.data)
      && SplitLines(g.data).torn == "" && g.data <= f.data && |g.data| <= |f.data|
      && Events(f.data[..f.synced]) <= Events(g.data[..g.synced])
  {
    hide Events, HeaderOfData, HeaderLine, IsOpen, IsClosed, SplitLines;
    var g := Truncated(f);
    FileHasSequence(f);
    TruncateKeepsOpen(f.data);
    CompleteIsPrefix(f.data);
    KeptOfOpen(f.data);
    KeptOfWholeOpen(g.data);
    HeaderWithinComplete(f);
    EventsGrow(f.data, f.synced, |f.data|);
    if f.synced <= |g.data| {
      assert g.data[..g.synced] == f.data[..f.synced];
    } else {
      assert g.data[..g.synced] == g.data;
      assert f.data[..|f.data|] == f.data;
    }
  }

  lemma HeaderWithinComplete(f: File)
    requires OpenFile(f)
    ensures |HeaderLine(HeaderOfData(f.data).value)| <= |Complete(f.data)|
  {
    hide HeaderLine, SplitLines, ParseHeader, IsEvent;
    FileHasSequence(f);
    var lines := SplitLines(f.data).lines;
    ParseHeaderExact(lines[0], HeaderOfData(f.data).value);
  }

  lemma TruncateStep(d: Dir, files: Files, l: Ledger)
    requires World(d, files, l) && Unlinked(d, files) && OpenFile(files[d[Current]])
    ensures var g := Truncated(files[d[Current]]);
      && World(d, files[d[Current] := g], l)
      && (forall n :: At(d, files[d[Current] := g], n) == At(d, files, n))
      && (forall n :: At(d, Synced(files), n) <= At(d, Synced(files[d[Current] := g]), n))
  {
    hide Events, HeaderOfData, HeaderLine, IsOpen, IsClosed, SplitLines, Roomy, OpenFile, ClosedFile, World, At, Synced;
    hide Good, Truncated, EventsDurable;
    TruncatedFile(files[d[Current]]);
    TruncatedSequence(files[d[Current]]);
    ReplaceQuietly(d, files, Truncated(files[d[Current]]), l);
  }

  lemma TruncatedSequence(f: File)
    requires OpenFile(f)
    ensures var g := Truncated(f);
      && SequenceOf(g) == SequenceOf(f) && g.synced <= |g.data|
      && SequenceOf(File(g.data[..g.synced], g.synced)) == SequenceOf(f)
  {
    hide Events, HeaderOfData, HeaderLine, IsOpen, IsClosed, SplitLines, Roomy, OpenFile, ClosedFile;
    TruncatedFile(f);
    CutSynced(Truncated(f));
  }

  /** Deleting one rotation other than the active segment's twin; its promise has been withdrawn and it is marked
      as being pruned. */
  lemma PruneStep(d: Dir, files: Files, q: int, l: Ledger)
    requires World(d, files, l) && Rotated(q) in d && l.promised(q) == [] && q in l.pruned
    requires Current in d ==> d[Current] != d[Rotated(q)]
    ensures World(d - {Rotated(q)}, files, l)
    ensures forall n :: At(d - {Rotated(q)}, files, n) == if n == q then [] else At(d, files, n)
    ensures forall n :: n != q ==> At(d - {Rotated(q)}, Synced(files), n) == At(d, Synced(files), n)
  {
    hide OpenFile, ClosedFile, Events, HeaderOfData, Good, At, Synced;
    var e := d - {Rotated(q)};
    PrunedIsGood(d, files, q);
    forall n
      ensures At(e, files, n) == (if n == q then [] else At(d, files, n))
      ensures n != q ==> At(e, Synced(files), n) == At(d, Synced(files), n)
      ensures Records(e, files, l, n) && l.promised(n) <= At(e, Synced(files), n)
    {
      PrunedSlot(d, files, q, n);
      assert Records(d, files, l, n) && l.promised(n) <= At(d, Synced(files), n);
    }
  }

  lemma CurrentIsAbove(d: Dir, files: Files, q: int)
    requires Good(d, files) && Rotated(q) in d && Current in d && d[Current] != d[Rotated(q)]
    ensures SequenceOf(files[d[Current]]).Some? && q < SequenceOf(files[d[Current]]).value
    ensures SequenceOf(Synced(files)[d[Current]]) == SequenceOf(files[d[Current]])
  {
    hide OpenFile, ClosedFile, Events, HeaderOfData, StagingOk, PendingRotation, Rotations;
    assert CurrentOk(d, files);
    FileHasSequence(files[d[Current]]);
    CutSynced(files[d[Current]]);
  }

  lemma PrunedSlot(d: Dir, files: Files, q: int, n: int)
    requires Good(d, files) && Rotated(q) in d && (Current in d ==> d[Current] != d[Rotated(q)])
    ensures var e := d - {Rotated(q)};
      && At(e, files, n) == (if n == q then [] else At(d, files, n))
      && (n != q ==> At(e, Synced(files), n) == At(d, Synced(files), n))
  {
    hide OpenFile, ClosedFile, Events, HeaderOfData, RotatedOk, StagingOk, PendingRotation, Rotations;
    if Current in d { CurrentIsAbove(d, files, q); }
  }

  lemma PrunedIsGood(d: Dir, files: Files, q: int)
    requires Good(d, files) && Rotated(q) in d && (Current in d ==> d[Current] != d[Rotated(q)])
    ensures Good(d - {Rotated(q)}, files)
  {
    hide OpenFile, ClosedFile, Events, HeaderOfData, Rotations;
    var e := d - {Rotated(q)};
    forall p | Rotated(p) in e ensures RotatedOk(e, files, p) { assert RotatedOk(d, files, p); }
    if Current in d {
      CurrentIsAbove(d, files, q);
      assert CurrentOk(e, files);
    }
    if Staging in d {
      var h :| StagedAs(files[d[Staging]], h, d);
      assert StagedAs(files[d[Staging]], h, e);
    }
    FewerRotations(d, e);
    assert |Rotations(e)| + (if PendingRotation(e, files) then 1 else 0) <= |Rotations(d)| + (if PendingRotation(d, files) then 1 else 0);
  }

  lemma FewerRotations(d: Dir, e: Dir)
    requires e.Keys <= d.Keys
    ensures |Rotations(e)| <= |Rotations(d)|
  {
    assert Rotations(e) <= Rotations(d);
    SubsetSmaller(Rotations(e), Rotations(d));
  }

  lemma SubsetSmaller<T>(a: set<T>, b: set<T>)
    requires a <= b
    ensures |a| <= |b|
  {
    assert |b - a| == |b| - |a|;
  }
}

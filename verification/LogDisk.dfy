/** The logs directory as names and inodes, what a power cut may leave of it, and its invariant. */
module LogDisk {
  import opened Common
  import opened LogWire
  import opened LogSegments

  const MAX_ROTATIONS: nat := 10_000

  datatype Name = Current | Staging | Rotated(sequence: int)

  type Inode = nat

  /** An inode's bytes and how many of them are known to be on the device. */
  datatype File = File(data: string, synced: nat)

  type Files = map<Inode, File>
  type Dir = map<Name, Inode>

  // ---- the log a directory holds ---------------------------------------------------------------------------

  /** The events of sequence `n`: its rotation, else the active segment if that is its sequence. */
  ghost function At(d: Dir, files: Files, n: int): seq<string> {
    if Rotated(n) in d && d[Rotated(n)] in files then Events(files[d[Rotated(n)]].data)
    else if Current in d && d[Current] in files && SequenceOf(files[d[Current]]) == Some(n) then
      Events(files[d[Current]].data)
    else []
  }

  ghost function SequenceOf(f: File): Option<int> {
    var h := HeaderOfData(f.data);
    if h.Some? then Some(h.value.sequence) else None
  }

  /** The bytes the device is sure to hold. */
  ghost function Synced(files: Files): Files {
    map i | i in files :: File(if files[i].synced <= |files[i].data| then files[i].data[..files[i].synced] else files[i].data, files[i].synced)
  }

  // ---- the invariant of one directory version ----------------------------------------------------------------

  ghost predicate OpenFile(f: File) {
    && IsOpen(f.data) && Roomy(f.data) && |HeaderLine(HeaderOfData(f.data).value)| <= f.synced <= |f.data| <= MAX_SEGMENT_BYTES
  }

  ghost predicate ClosedFile(f: File) {
    && IsClosed(f.data) && Roomy(f.data)
    && |HeaderLine(HeaderOfData(f.data).value)| <= f.synced <= |f.data| <= MAX_SEGMENT_BYTES
  }

  ghost predicate Above(sequence: int, d: Dir) { forall q | Rotated(q) in d :: q < sequence }

  /** Every event of the file is on the device. */
  ghost predicate EventsDurable(f: File) { f.synced <= |f.data| && Events(f.data[..f.synced]) == Events(f.data) }

  /** A rotation: its events are durable. Its trailer is too while `Certified` holds. */
  ghost predicate RotatedOk(d: Dir, files: Files, q: int)
    requires Rotated(q) in d && d[Rotated(q)] in files
  {
    var f := files[d[Rotated(q)]];
    (ClosedFile(f) || OpenFile(f)) && SequenceOf(f) == Some(q) && EventsDurable(f)
  }

  /** The active segment: still open, or closed by a trailer on its way to its rotated name, or already there. */
  ghost predicate CurrentOk(d: Dir, files: Files)
    requires Current in d && d[Current] in files
  {
    var i := d[Current];
    var f := files[i];
    && (OpenFile(f) || (ClosedFile(f) && EventsDurable(f)))
    && var s := SequenceOf(f).value;
       if Rotated(s) in d then d[Rotated(s)] == i && Above(s + 1, d) else Above(s, d)
  }

  /** Every rotation is closed by its trailer, all of it on the device. */
  ghost predicate Certified(d: Dir, files: Files) {
    forall q | Rotated(q) in d && d[Rotated(q)] in files ::
      ClosedFile(files[d[Rotated(q)]]) && files[d[Rotated(q)]].synced == |files[d[Rotated(q)]].data|
  }

  /** A staged next header: some prefix of it, under no other name, above every rotation. */
  ghost predicate StagedAs(f: File, h: Header, d: Dir) {
    h.Valid() && f.data <= HeaderLine(h) && f.synced <= |f.data| && Above(h.sequence, d)
  }

  ghost predicate StagingOk(d: Dir, files: Files)
    requires Staging in d && d[Staging] in files
  {
    && Current !in d
    && (forall n <- d.Keys :: n != Staging ==> d[n] != d[Staging])
    && exists h :: StagedAs(files[d[Staging]], h, d)
  }

  function Rotations(d: Dir): set<Name> { set n <- d.Keys | n.Rotated? }

  /** A closed active segment that has no rotated name yet. */
  ghost predicate PendingRotation(d: Dir, files: Files) {
    && Current in d && d[Current] in files && ClosedFile(files[d[Current]])
    && Rotated(SequenceOf(files[d[Current]]).value) !in d
  }

  ghost predicate Good(d: Dir, files: Files) {
    && (forall n <- d.Keys :: d[n] in files)
    && (forall q | Rotated(q) in d :: RotatedOk(d, files, q))
    && (Current in d ==> CurrentOk(d, files))
    && (Staging in d ==> StagingOk(d, files))
    && |Rotations(d)| + (if PendingRotation(d, files) then 1 else 0) <= MAX_ROTATIONS
  }

  // ---- the ledger --------------------------------------------------------------------------------------------

  /** Per sequence: the events promised durable and the events now in the log; the sequences whose deletion is
      under way; and whether every rotation so far was completed on a synced trailer. */
  datatype Ledger = Ledger(
    promised: int -> seq<string>, recorded: int -> seq<string>, pruned: set<int>, certified: bool)

  ghost predicate Records(d: Dir, files: Files, l: Ledger, n: int) {
    At(d, files, n) == l.recorded(n) || (n in l.pruned && At(d, files, n) == [])
  }

  /** A directory version is good, keeps every promise on the device, and holds exactly the recorded log. */
  ghost predicate World(d: Dir, files: Files, l: Ledger) {
    && Good(d, files) && (l.certified ==> Certified(d, files))
    && (forall n :: l.promised(n) <= At(d, Synced(files), n))
    && (forall n :: Records(d, files, l, n))
  }

  // ---- file-level facts ------------------------------------------------------------------------------------------

  lemma FileHasSequence(f: File)
    requires OpenFile(f) || ClosedFile(f)
    ensures SequenceOf(f).Some? && HeaderOfData(f.data).value.Valid()
    ensures !(OpenFile(f) && ClosedFile(f))
  {
    hide HeaderLine, SplitLines, OpenLines, ClosedLines, Roomy;
    HasHeader(f.data);
    if IsOpen(f.data) { OpenIsNotClosed(SplitLines(f.data).lines); }
  }

  /** A power cut keeps any prefix at least as long as the synced part. */
  predicate CutFile(f: File, g: File) {
    f.synced <= |g.data| <= |f.data| && g.data == f.data[..|g.data|] && g.synced == |g.data|
  }

  lemma CutOpenFile(f: File, g: File)
    requires OpenFile(f) && CutFile(f, g)
    ensures OpenFile(g) && SequenceOf(g) == SequenceOf(f) && HeaderOfData(g.data) == HeaderOfData(f.data)
    ensures Events(f.data[..f.synced]) <= Events(g.data) <= Events(f.data)
  {
    hide HeaderLine, SplitLines, IsOpen, IsClosed, Events, HeaderOfData, Roomy, MAX_SEGMENT_BYTES;
    FileHasSequence(f);
    CutKeepsOpen(f.data, |g.data|);
    RoomyOfPrefix(f.data, |g.data|);
    EventsGrow(f.data, f.synced, |g.data|);
  }

  lemma CutClosedFile(f: File, g: File)
    requires ClosedFile(f) && CutFile(f, g)
    ensures if |g.data| == |f.data| then ClosedFile(g) && g.data == f.data else OpenFile(g)
    ensures SequenceOf(g) == SequenceOf(f) && HeaderOfData(g.data) == HeaderOfData(f.data)
    ensures Events(f.data[..f.synced]) <= Events(g.data) <= Events(f.data)
  {
    hide HeaderLine, SplitLines, IsOpen, IsClosed, Events, HeaderOfData, Roomy, MAX_SEGMENT_BYTES;
    FileHasSequence(f);
    CutClosedData(f, g);
    EventsGrow(f.data, f.synced, |g.data|);
  }

  lemma CutClosedData(f: File, g: File)
    requires ClosedFile(f) && CutFile(f, g)
    ensures if |g.data| == |f.data| then g.data == f.data else IsOpen(g.data) && Roomy(g.data)
    ensures HeaderOfData(g.data) == HeaderOfData(f.data)
  {
    hide HeaderLine, SplitLines, IsOpen, IsClosed, Events, HeaderOfData, Roomy, MAX_SEGMENT_BYTES;
    FileHasSequence(f);
    if |g.data| < |f.data| {
      CutReopensClosed(f.data, |g.data|);
      RoomyOfPrefix(f.data, |g.data|);
    } else {
      assert g.data == f.data;
    }
  }

  // ---- a power cut ---------------------------------------------------------------------------------------------

  predicate CutFiles(files: Files, after: Files) {
    files.Keys == after.Keys && forall i <- files.Keys :: CutFile(files[i], after[i])
  }

  lemma CutCurrent(d: Dir, files: Files, after: Files)
    requires Good(d, files) && CutFiles(files, after) && Current in d
    ensures CurrentOk(d, after) && SequenceOf(after[d[Current]]) == SequenceOf(files[d[Current]])
    ensures PendingRotation(d, after) ==> PendingRotation(d, files)
    ensures var i := d[Current]; Events(Synced(files)[i].data) <= Events(after[i].data) <= Events(files[i].data)
    ensures SequenceOf(Synced(files)[d[Current]]) == SequenceOf(files[d[Current]])
  {
    hide OpenFile, ClosedFile, HeaderLine, Events, HeaderOfData, Rotations;
    var f, g := files[d[Current]], after[d[Current]];
    assert CutFile(f, g);
    FileHasSequence(f);
    CutSynced(f);
    if OpenFile(f) {
      CutOpenFile(f, g);
    } else {
      CutClosedFile(f, g);
      CutDurable(f, g);
    }
    FileHasSequence(g);
  }

  /** A file whose events are durable loses none of them. */
  lemma CutDurable(f: File, g: File)
    requires (OpenFile(f) || ClosedFile(f)) && EventsDurable(f) && CutFile(f, g)
    ensures Events(g.data) == Events(f.data) && EventsDurable(g) && SequenceOf(g) == SequenceOf(f)
    ensures OpenFile(g) || ClosedFile(g)
    ensures ClosedFile(f) && f.synced == |f.data| ==> ClosedFile(g) && g.data == f.data
  {
    hide OpenFile, ClosedFile, HeaderLine, Events, HeaderOfData;
    FileHasSequence(f);
    if OpenFile(f) { CutOpenFile(f, g); } else { CutClosedFile(f, g); }
    assert g.data[..|g.data|] == g.data;
  }

  lemma CutSynced(f: File)
    requires OpenFile(f) || ClosedFile(f)
    ensures f.synced <= |f.data| && SequenceOf(File(f.data[..f.synced], f.synced)) == SequenceOf(f)
  {
    hide HeaderLine, Events, HeaderOfData, IsOpen, IsClosed, Roomy;
    var g := File(f.data[..f.synced], f.synced);
    assert CutFile(f, g);
    hide OpenFile, ClosedFile;
    if OpenFile(f) { CutOpenFile(f, g); } else { CutClosedFile(f, g); }
  }

  lemma CutRotated(d: Dir, files: Files, after: Files, q: int)
    requires Good(d, files) && CutFiles(files, after) && Rotated(q) in d
    ensures RotatedOk(d, after, q)
    ensures var i := d[Rotated(q)];
      Events(after[i].data) == Events(files[i].data) && Events(Synced(files)[i].data) == Events(files[i].data)
    ensures var i := d[Rotated(q)];
      ClosedFile(files[i]) && files[i].synced == |files[i].data| ==> ClosedFile(after[i]) && after[i].synced == |after[i].data|
  {
    hide OpenFile, ClosedFile, CurrentOk, StagingOk, PendingRotation, Rotations, Events;
    assert RotatedOk(d, files, q);
    assert CutFile(files[d[Rotated(q)]], after[d[Rotated(q)]]);
    CutDurable(files[d[Rotated(q)]], after[d[Rotated(q)]]);
  }

  lemma CutCertified(d: Dir, files: Files, after: Files)
    requires Good(d, files) && CutFiles(files, after) && Certified(d, files)
    ensures Certified(d, after)
  {
    hide OpenFile, ClosedFile, Good;
    GoodNames(d, files);
    forall q | Rotated(q) in d
      ensures ClosedFile(after[d[Rotated(q)]]) && after[d[Rotated(q)]].synced == |after[d[Rotated(q)]].data|
    {
      CutRotated(d, files, after, q);
    }
  }

  lemma GoodNames(d: Dir, files: Files)
    requires Good(d, files)
    ensures forall n <- d.Keys :: d[n] in files
  {
  }

  /** Every crash outcome of a good directory version is good, keeps the promises, and loses at most the end
      of the active segment. */
  lemma CutWorld(d: Dir, files: Files, after: Files, l: Ledger)
    requires World(d, files, l) && CutFiles(files, after)
    ensures Good(d, after) && (l.certified ==> Certified(d, after))
    ensures forall n :: l.promised(n) <= At(d, after, n) <= At(d, files, n) && At(d, Synced(after), n) == At(d, after, n)
    ensures forall n :: At(d, after, n) == At(d, files, n) || (Current in d && SequenceOf(files[d[Current]]) == Some(n))
  {
    hide Good, Events, OpenFile, ClosedFile, HeaderOfData, At, Certified, CutFiles;
    CutIsGood(d, files, after);
    SyncedAfterCut(files, after);
    if l.certified { CutCertified(d, files, after); }
    forall n
      ensures l.promised(n) <= At(d, after, n) <= At(d, files, n) && At(d, Synced(after), n) == At(d, after, n)
      ensures At(d, after, n) == At(d, files, n) || (Current in d && d[Current] in files && SequenceOf(files[d[Current]]) == Some(n))
    {
      assert l.promised(n) <= At(d, Synced(files), n);
      CutSlot(d, files, after, n);
    }
    GoodNames(d, files);
  }

  lemma CutIsGood(d: Dir, files: Files, after: Files)
    requires Good(d, files) && CutFiles(files, after)
    ensures Good(d, after)
  {
    hide RotatedOk, CurrentOk, StagingOk, PendingRotation, Rotations, ClosedFile, Events, HeaderOfData;
    forall q | Rotated(q) in d ensures RotatedOk(d, after, q) { CutRotated(d, files, after, q); }
    if Current in d { CutCurrent(d, files, after); }
    if Staging in d { CutStaging(d, files, after); }
    NoNewPending(d, files, after);
  }

  /** Only the active segment can lose events, and only events that were not durable. */
  lemma CutSlot(d: Dir, files: Files, after: Files, n: int)
    requires Good(d, files) && CutFiles(files, after)
    ensures At(d, Synced(files), n) <= At(d, after, n) <= At(d, files, n)
    ensures
      || At(d, after, n) == At(d, files, n)
      || (Current in d && d[Current] in files && SequenceOf(files[d[Current]]) == Some(n))
  {
    hide RotatedOk, CurrentOk, StagingOk, PendingRotation, Rotations, Events, OpenFile, ClosedFile, HeaderOfData;
    if Current in d { CutCurrent(d, files, after); }
    if Rotated(n) in d { CutRotated(d, files, after, n); }
  }

  lemma NoNewPending(d: Dir, files: Files, after: Files)
    requires Good(d, files) && CutFiles(files, after)
    ensures PendingRotation(d, after) ==> PendingRotation(d, files)
  {
    hide RotatedOk, CurrentOk, StagingOk, Rotations, OpenFile, ClosedFile, PendingRotation;
    if Current in d {
      CutCurrent(d, files, after);
    } else {
      NoCurrentNoPending(d, after);
    }
  }

  lemma NoCurrentNoPending(d: Dir, files: Files)
    requires Current !in d
    ensures !PendingRotation(d, files)
  {
  }

  lemma CutStaging(d: Dir, files: Files, after: Files)
    requires Good(d, files) && CutFiles(files, after) && Staging in d
    ensures StagingOk(d, after)
  {
    hide RotatedOk, CurrentOk, PendingRotation, Rotations, HeaderLine;
    var f, g := files[d[Staging]], after[d[Staging]];
    assert CutFile(f, g);
    var h :| StagedAs(f, h, d);
    assert StagedAs(g, h, d);
  }

  lemma SyncedAfterCut(files: Files, after: Files)
    requires CutFiles(files, after)
    ensures Synced(after) == after
  {
    forall i | i in after ensures Synced(after)[i] == after[i] {
      assert CutFile(files[i], after[i]);
    }
  }
}

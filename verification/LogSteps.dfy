/** Every single write, sync, link, unlink, rename and truncate of the protocol keeps a directory version good. */
module LogSteps {
  import opened Common
  import opened Clock
  import opened LogWire
  import opened LogSegments
  import opened LogDisk

  ghost function WithRecorded(l: Ledger, n: int, events: seq<string>): Ledger {
    l.(recorded := m => if m == n then events else l.recorded(m))
  }

  // ---- writing to the active segment -------------------------------------------------------------------------

  function Extended(f: File, bytes: string): File { File(f.data + bytes, f.synced) }

  /** Replacing the active inode by one with the same sequence that is still an acceptable active segment. */
  lemma ReplaceCurrent(d: Dir, files: Files, g: File, l: Ledger, l': Ledger)
    requires World(d, files, l) && Current in d
    requires var i := d[Current]; var f := files[i]; var s := SequenceOf(f).value;
      && OpenFile(f) && SequenceOf(f).Some? && Rotated(s) !in d
      && (OpenFile(g) || (ClosedFile(g) && EventsDurable(g) && |Rotations(d)| < MAX_ROTATIONS))
      && SequenceOf(g) == SequenceOf(f)
      && Events(f.data[..f.synced]) <= Events(g.data[..g.synced]) && SequenceOf(File(g.data[..g.synced], g.synced)) == Some(s)
      && l' == WithRecorded(l, s, Events(g.data))
    ensures World(d, files[d[Current] := g], l')
    ensures var s := SequenceOf(files[d[Current]]).value;
      forall n :: At(d, files[d[Current] := g], n) == if n == s then Events(g.data) else At(d, files, n)
    ensures forall n :: At(d, Synced(files), n) <= At(d, Synced(files[d[Current] := g]), n)
  {
    hide Events, HeaderOfData, HeaderLine, IsOpen, IsClosed, Roomy, MAX_SEGMENT_BYTES;
    var i := d[Current];
    var f, s, after := files[i], SequenceOf(files[i]).value, files[i := g];
    FileHasSequence(f);
    FileHasSequence(g);
    CutSynced(f);
    assert Current in d && CurrentOk(d, files);
    assert Above(s, d);
    RotationsApart(d, files);
    assert CurrentOk(d, after);
    assert Good(d, after) by { hide RotatedOk, CurrentOk, OpenFile, ClosedFile; }
    assert Certified(d, files) ==> Certified(d, after) by { hide OpenFile, ClosedFile; }
    forall n
      ensures At(d, after, n) == if n == s then Events(g.data) else At(d, files, n)
      ensures At(d, Synced(files), n) <= At(d, Synced(after), n)
      ensures Records(d, after, l', n) && l'.promised(n) <= At(d, Synced(after), n)
    {
      assert Records(d, files, l, n);
      assert l.promised(n) <= At(d, Synced(files), n);
    }
  }

  /** While the active segment has no rotated name, no rotation is its inode. */
  lemma RotationsApart(d: Dir, files: Files)
    requires Good(d, files) && Unlinked(d, files)
    ensures forall q | Rotated(q) in d :: d[Rotated(q)] in files && d[Rotated(q)] != d[Current] && RotatedOk(d, files, q)
  {
    hide HeaderLine, Events, HeaderOfData, OpenFile, ClosedFile;
    forall q | Rotated(q) in d ensures d[Rotated(q)] in files && d[Rotated(q)] != d[Current] && RotatedOk(d, files, q) {
      assert RotatedOk(d, files, q);
      FileHasSequence(files[d[Rotated(q)]]);
    }
  }

  /** The active segment has not been given its rotated name. */
  ghost predicate Unlinked(d: Dir, files: Files) {
    && Current in d && d[Current] in files && SequenceOf(files[d[Current]]).Some?
    && Rotated(SequenceOf(files[d[Current]]).value) !in d
  }

  lemma AppendFile(f: File, line: string)
    requires OpenFile(f) && SplitLines(f.data).torn == "" && IsEvent(line)
    requires |f.data| + |line| + MAX_TRAILER_LINE_BYTES <= MAX_SEGMENT_BYTES
    ensures var g := Extended(f, line);
      && OpenFile(g) && SplitLines(g.data).torn == "" && HeaderOfData(g.data) == HeaderOfData(f.data)
      && Events(g.data) == Events(f.data) + [line]
  {
    hide Events, HeaderOfData, HeaderLine, IsOpen, IsClosed, SplitLines, IsEvent;
    FileHasSequence(f);
    AppendKeepsOpen(f.data, line);
    KeptOfWholeOpen(f.data + line);
  }

  lemma TearFile(f: File, fragment: string)
    requires OpenFile(f) && '\n' !in fragment && |f.data| + |fragment| <= MAX_SEGMENT_BYTES
    ensures var g := Extended(f, fragment);
      && OpenFile(g) && HeaderOfData(g.data) == HeaderOfData(f.data) && Events(g.data) == Events(f.data)
  {
    hide Events, HeaderOfData, HeaderLine, IsOpen, IsClosed, SplitLines, Roomy;
    FileHasSequence(f);
    TearKeepsOpen(f.data, fragment);
    TearKeepsRoom(f.data, fragment);
  }

  lemma CloseFile(f: File, h: Header, last: Option<Instant>, closedAt: Instant)
    requires OpenFile(f) && SplitLines(f.data).torn == "" && HeaderOfData(f.data) == Some(h)
    requires var t := TrailerFor(h, Events(f.data), last, closedAt); t.Some? && t.value.Valid()
    ensures var t := TrailerFor(h, Events(f.data), last, closedAt).value;
      var g := Extended(f, TrailerLine(t));
      && ClosedFile(g) && HeaderOfData(g.data) == Some(h) && Events(g.data) == Events(f.data)
  {
    hide Events, HeaderOfData, HeaderLine, TrailerLine, IsOpen, IsClosed, SplitLines, Roomy, TrailerFor;
    FileHasSequence(f);
    var t := TrailerFor(h, Events(f.data), last, closedAt).value;
    CloseCertifies(f.data, h, last, closedAt);
    TrailerLineLength(t);
    ClosingKeepsRoom(f.data, f.data + TrailerLine(t));
  }

  /** An event line written whole. */
  lemma AppendStep(d: Dir, files: Files, line: string, l: Ledger)
    requires World(d, files, l) && Unlinked(d, files) && IsEvent(line)
    requires var f := files[d[Current]];
      OpenFile(f) && SplitLines(f.data).torn == "" && |f.data| + |line| + MAX_TRAILER_LINE_BYTES <= MAX_SEGMENT_BYTES
    ensures var f := files[d[Current]]; var g := Extended(f, line); var s := SequenceOf(f);
      && s.Some? && OpenFile(g) && SplitLines(g.data).torn == "" && HeaderOfData(g.data) == HeaderOfData(f.data)
      && Events(g.data) == Events(f.data) + [line]
      && World(d, files[d[Current] := g], WithRecorded(l, s.value, Events(f.data) + [line]))
      && (forall n :: At(d, files[d[Current] := g], n) == if n == s.value then At(d, files, n) + [line] else At(d, files, n))
      && (forall n :: At(d, Synced(files), n) <= At(d, Synced(files[d[Current] := g]), n))
  {
    hide Events, HeaderOfData, HeaderLine, IsOpen, IsClosed, SplitLines, World, IsEvent, OpenFile, ClosedFile, Good, At;
    hide Synced;
    var f := files[d[Current]];
    var g := Extended(f, line);
    WorldIsGood(d, files, l);
    AppendFile(f, line);
    CurrentIsTop(d, files);
    WholeOpenSynced(f, g);
    ReplaceCurrent(d, files, g, l, WithRecorded(l, SequenceOf(f).value, Events(g.data)));
  }

  lemma WholeOpenSynced(f: File, g: File)
    requires OpenFile(f) && g.synced == f.synced && f.data <= g.data
    ensures f.data[..f.synced] == g.data[..g.synced] && SequenceOf(f).Some?
    ensures SequenceOf(File(g.data[..g.synced], g.synced)) == SequenceOf(f)
  {
    hide HeaderOfData, HeaderLine, IsOpen, IsClosed, SplitLines, Roomy;
    FileHasSequence(f);
    CutSynced(f);
    assert f.data[..f.synced] == g.data[..g.synced];
  }

  lemma CurrentIsTop(d: Dir, files: Files)
    requires Good(d, files) && Unlinked(d, files)
    ensures SequenceOf(files[d[Current]]).Some?
    ensures var s := SequenceOf(files[d[Current]]).value;
      Above(s, d) && Rotated(s) !in d && At(d, files, s) == Events(files[d[Current]].data)
  {
    hide HeaderOfData, HeaderLine, IsOpen, IsClosed, Roomy, Events;
    FileHasSequence(files[d[Current]]);
    assert CurrentOk(d, files);
  }

  /** A write that tears, of an event line or of a trailer. */
  lemma TearStep(d: Dir, files: Files, fragment: string, l: Ledger)
    requires World(d, files, l) && Unlinked(d, files) && '\n' !in fragment
    requires var f := files[d[Current]]; OpenFile(f) && |f.data| + |fragment| <= MAX_SEGMENT_BYTES
    ensures var f := files[d[Current]]; var g := Extended(f, fragment);
      && OpenFile(g) && HeaderOfData(g.data) == HeaderOfData(f.data) && Events(g.data) == Events(f.data)
      && World(d, files[d[Current] := g], l)
      && (forall n :: At(d, files[d[Current] := g], n) == At(d, files, n))
      && (forall n :: At(d, Synced(files), n) <= At(d, Synced(files[d[Current] := g]), n))
  {
    hide Events, HeaderOfData, HeaderLine, IsOpen, IsClosed, SplitLines, Roomy, OpenFile, ClosedFile, World, At, Synced;
    hide Good, EventsDurable;
    var f := files[d[Current]];
    var g := Extended(f, fragment);
    TearFile(f, fragment);
    WholeOpenSynced(f, g);
    ReplaceQuietly(d, files, g, l);
  }

  lemma TearKeepsRoom(data: string, fragment: string)
    requires Roomy(data) && '\n' !in fragment
    ensures Roomy(data + fragment)
  {
    hide SplitLines, Kept;
    SplitAppendTorn(data, fragment);
  }

  lemma SameLedger(d: Dir, files: Files, after: Files, l: Ledger, l': Ledger, s: int)
    requires World(d, files, l) && World(d, after, l') && l' == WithRecorded(l, s, At(d, files, s))
    requires At(d, after, s) == At(d, files, s)
    ensures World(d, after, l)
  {
    hide Good, At;
    forall n ensures Records(d, after, l, n) && l.promised(n) <= At(d, Synced(after), n) {
      assert Records(d, files, l, n);
      assert Records(d, after, l', n);
      assert l'.promised(n) <= At(d, Synced(after), n);
    }
  }

  /** A trailer written whole, while a rotation is still allowed. */
  lemma CloseStep(d: Dir, files: Files, h: Header, last: Option<Instant>, closedAt: Instant, l: Ledger)
    requires World(d, files, l) && Unlinked(d, files) && |Rotations(d)| < MAX_ROTATIONS
    requires EventsDurable(files[d[Current]])
    requires var f := files[d[Current]];
      OpenFile(f) && SplitLines(f.data).torn == "" && HeaderOfData(f.data) == Some(h)
      && var t := TrailerFor(h, Events(f.data), last, closedAt); t.Some? && t.value.Valid()
    ensures var f := files[d[Current]]; var t := TrailerFor(h, Events(f.data), last, closedAt).value;
      var g := Extended(f, TrailerLine(t));
      && ClosedFile(g) && SequenceOf(g) == SequenceOf(f) == Some(h.sequence) && Events(g.data) == Events(f.data)
      && HeaderOfData(g.data) == Some(h)
      && World(d, files[d[Current] := g], l)
      && (forall n :: At(d, files[d[Current] := g], n) == At(d, files, n))
      && (forall n :: At(d, Synced(files), n) <= At(d, Synced(files[d[Current] := g]), n))
  {
    hide Events, HeaderOfData, HeaderLine, TrailerLine, IsOpen, IsClosed, SplitLines, Roomy, TrailerFor, Rotations;
    hide OpenFile, ClosedFile, At, Synced, Good, Trailer.Valid, EventsDurable, World;
    var f := files[d[Current]];
    var t := TrailerFor(h, Events(f.data), last, closedAt).value;
    var g := Extended(f, TrailerLine(t));
    CloseFile(f, h, last, closedAt);
    WholeOpenSynced(f, g);
    DurableExtends(f, g);
    ReplaceQuietly(d, files, g, l);
  }

  /** Replacing the active inode by one with the same events. */
  lemma ReplaceQuietly(d: Dir, files: Files, g: File, l: Ledger)
    requires World(d, files, l) && Unlinked(d, files)
    requires var f := files[d[Current]];
      && OpenFile(f) && (OpenFile(g) || (ClosedFile(g) && EventsDurable(g) && |Rotations(d)| < MAX_ROTATIONS))
      && SequenceOf(g) == SequenceOf(f) && Events(g.data) == Events(f.data)
      && Events(f.data[..f.synced]) <= Events(g.data[..g.synced])
      && SequenceOf(File(g.data[..g.synced], g.synced)) == SequenceOf(f)
    ensures World(d, files[d[Current] := g], l)
    ensures forall n :: At(d, files[d[Current] := g], n) == At(d, files, n)
    ensures forall n :: At(d, Synced(files), n) <= At(d, Synced(files[d[Current] := g]), n)
  {
    hide Events, OpenFile, ClosedFile, At, Synced, Good, EventsDurable, World, SequenceOf;
    WorldIsGood(d, files, l);
    CurrentIsTop(d, files);
    var s := SequenceOf(files[d[Current]]).value;
    var l' := WithRecorded(l, s, Events(g.data));
    ReplaceCurrent(d, files, g, l, l');
    SameLedger(d, files, files[d[Current] := g], l, l', s);
  }

  lemma WorldIsGood(d: Dir, files: Files, l: Ledger)
    requires World(d, files, l)
    ensures Good(d, files)
  {
  }

  lemma DurableExtends(f: File, g: File)
    requires EventsDurable(f) && f.data <= g.data && g.synced == f.synced && Events(g.data) == Events(f.data)
    ensures EventsDurable(g)
  {
    hide Events;
    assert g.data[..g.synced] == f.data[..f.synced];
  }

  /** The trailer fits in the room an open segment keeps for it. */
  lemma ClosingKeepsRoom(data: string, closed: string)
    requires IsOpen(data) && SplitLines(data).torn == "" && Roomy(data)
    requires IsClosed(closed) && data <= closed && |closed| <= |data| + MAX_TRAILER_LINE_BYTES
    requires Events(closed) == Events(data) && HeaderOfData(closed) == HeaderOfData(data)
    ensures Roomy(closed) && |closed| <= MAX_SEGMENT_BYTES
  {
    hide SplitLines, ParseHeader, HeaderLine, IsTrailerLine, Flatten, ParseTrailerFor, IsEvent;
    KeptOfWholeOpen(data);
    var a, b := SplitLines(data).lines, SplitLines(closed).lines;
    ParseHeaderExact(a[0], HeaderOfData(data).value);
    ParseHeaderExact(b[0], HeaderOfData(data).value);
  }

  // ---- making bytes durable ------------------------------------------------------------------------------------

  function Flushed(f: File): File { File(f.data, |f.data|) }

  lemma FlushedFile(f: File)
    requires f.synced <= |f.data|
    ensures OpenFile(f) ==> OpenFile(Flushed(f))
    ensures ClosedFile(f) ==> ClosedFile(Flushed(f))
    ensures SequenceOf(Flushed(f)) == SequenceOf(f)
    ensures OpenFile(f) || ClosedFile(f) ==> Events(f.data[..f.synced]) <= Events(f.data)
    ensures EventsDurable(Flushed(f))
  {
    hide HeaderOfData, HeaderLine, IsOpen, IsClosed, SplitLines, Roomy, Events;
    assert f.data[..|f.data|] == f.data;
    if OpenFile(f) || ClosedFile(f) {
      FileHasSequence(f);
      EventsGrow(f.data, f.synced, |f.data|);
    }
  }

  /** fsync of any inode keeps every directory version and only adds durable events. */
  lemma SyncStep(d: Dir, files: Files, i: Inode, l: Ledger)
    requires World(d, files, l) && i in files && files[i].synced <= |files[i].data|
    ensures World(d, files[i := Flushed(files[i])], l)
    ensures forall n :: At(d, files[i := Flushed(files[i])], n) == At(d, files, n)
    ensures forall n :: At(d, Synced(files), n) <= At(d, Synced(files[i := Flushed(files[i])]), n)
  {
    hide Good, At, Certified, Records, EventsDurable;
    var after := files[i := Flushed(files[i])];
    SyncKeepsGood(d, files, i);
    if l.certified { SyncKeepsCertified(d, files, i); }
    forall n
      ensures At(d, after, n) == At(d, files, n) && At(d, Synced(files), n) <= At(d, Synced(after), n)
      ensures Records(d, after, l, n) && l.promised(n) <= At(d, Synced(after), n)
    {
      SyncKeepsSlot(d, files, i, n);
      SyncKeepsRecord(d, files, i, n, l);
      assert l.promised(n) <= At(d, Synced(files), n);
    }
  }

  lemma SyncKeepsRecord(d: Dir, files: Files, i: Inode, n: int, l: Ledger)
    requires World(d, files, l) && i in files
    requires var after := files[i := Flushed(files[i])]; At(d, after, n) == At(d, files, n)
    ensures Records(d, files[i := Flushed(files[i])], l, n)
  {
    hide Good, At;
    assert Records(d, files, l, n);
  }

  lemma SyncKeepsCertified(d: Dir, files: Files, i: Inode)
    requires Good(d, files) && Certified(d, files) && i in files && files[i].synced <= |files[i].data|
    ensures Certified(d, files[i := Flushed(files[i])])
  {
    hide HeaderOfData, HeaderLine, IsOpen, IsClosed, SplitLines, Roomy, Events;
    FlushedFile(files[i]);
  }

  lemma SyncKeepsGood(d: Dir, files: Files, i: Inode)
    requires Good(d, files) && i in files && files[i].synced <= |files[i].data|
    ensures Good(d, files[i := Flushed(files[i])])
  {
    hide HeaderOfData, HeaderLine, IsOpen, IsClosed, SplitLines, Roomy, Events, OpenFile, ClosedFile, EventsDurable;
    hide Rotations;
    var f, after := files[i], files[i := Flushed(files[i])];
    FlushedFile(f);
    forall q | Rotated(q) in d ensures RotatedOk(d, after, q) { assert RotatedOk(d, files, q); }
    if Current in d { SyncKeepsCurrent(d, files, i); }
    if Staging in d {
      var h :| StagedAs(files[d[Staging]], h, d);
      assert StagedAs(after[d[Staging]], h, d);
    }
    assert Good(d, after) by { hide RotatedOk, CurrentOk, StagingOk, PendingRotation; }
  }

  lemma SyncKeepsCurrent(d: Dir, files: Files, i: Inode)
    requires Good(d, files) && i in files && files[i].synced <= |files[i].data| && Current in d
    ensures CurrentOk(d, files[i := Flushed(files[i])])
    ensures PendingRotation(d, files[i := Flushed(files[i])]) ==> PendingRotation(d, files)
  {
    hide HeaderOfData, OpenFile, ClosedFile, EventsDurable, Rotations, StagingOk;
    var after := files[i := Flushed(files[i])];
    FlushedFile(files[i]);
    assert CurrentOk(d, files);
    FileHasSequence(files[d[Current]]);
    FileHasSequence(after[d[Current]]);
  }

  lemma SyncKeepsSlot(d: Dir, files: Files, i: Inode, n: int)
    requires Good(d, files) && i in files && files[i].synced <= |files[i].data|
    ensures var after := files[i := Flushed(files[i])];
      At(d, after, n) == At(d, files, n) && At(d, Synced(files), n) <= At(d, Synced(after), n)
  {
    hide HeaderOfData, HeaderLine, IsOpen, IsClosed, SplitLines, Roomy, Events, PendingRotation, Rotations, StagingOk;
    var f := files[i];
    var g := Flushed(f);
    assert g.data[..g.synced] == f.data;
    FlushedFile(f);
    if Rotated(n) in d {
      assert RotatedOk(d, files, n);
    }
    if Current in d {
      assert CurrentOk(d, files);
      CutSynced(files[d[Current]]);
    }
  }

  /** Once the active inode is synced too, the whole log is durable. */
  lemma SyncedLogIsWhole(d: Dir, files: Files)
    requires Good(d, files)
    requires Current in d ==> files[d[Current]].synced == |files[d[Current]].data|
    ensures forall n :: At(d, Synced(files), n) == At(d, files, n)
  {
    hide HeaderOfData, HeaderLine, IsOpen, IsClosed, SplitLines, Roomy, Events, PendingRotation, Rotations, StagingOk;
    if Current in d {
      var f := files[d[Current]];
      assert f.data[..f.synced] == f.data;
    }
    forall n ensures At(d, Synced(files), n) == At(d, files, n) {
      if Rotated(n) in d {
        assert RotatedOk(d, files, n);
      }
    }
  }
}

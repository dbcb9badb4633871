/** Every directory a power cut might leave, however long ago its entries changed, and the promises all of them keep. */
module LogVersions {
  import opened Common
  import opened LogWire
  import opened LogSegments
  import opened LogDisk
  import opened LogSteps
  import opened LogNames

  ghost predicate Whole(f: File) { OpenFile(f) || ClosedFile(f) }

  /** Every name is a file's, every name but a staged one a segment's, and a rotated name one of its sequence. */
  ghost predicate Names(w: Dir, files: Files) {
    forall n <- w.Keys ::
      && w[n] in files && (n != Staging ==> Whole(files[w[n]]))
      && (n.Rotated? ==> SequenceOf(files[w[n]]) == Some(n.sequence))
  }

  /** Every rotation in `d` is in `w` too, except the twin of the active segment. */
  ghost predicate Lags(w: Dir, d: Dir) {
    forall q | Rotated(q) in d && (Current in d ==> d[Current] != d[Rotated(q)]) ::
      Rotated(q) in w && w[Rotated(q)] == d[Rotated(q)]
  }

  ghost predicate Honours(w: Dir, files: Files, promised: int -> seq<string>) {
    forall n :: promised(n) <= At(w, Synced(files), n)
  }

  ghost predicate Version(w: Dir, d: Dir, files: Files, promised: int -> seq<string>) {
    Names(w, files) && Lags(w, d) && Honours(w, files, promised)
  }

  /** All versions of the visible directory `d` that a power cut might leave keep the promises. */
  ghost predicate Firm(worlds: set<Dir>, d: Dir, files: Files, promised: int -> seq<string>) {
    d in worlds && forall w <- worlds :: Version(w, d, files, promised)
  }

  /** In every version each rotation is closed by a trailer that is on the device. */
  ghost predicate Stamped(worlds: set<Dir>, files: Files) { forall w <- worlds :: Certified(w, files) }

  // ---- changes of files ------------------------------------------------------------------------------------------------

  /** The same segment with at least as many durable events. */
  ghost predicate Grown(f: File, g: File) {
    && Whole(g) && SequenceOf(g) == SequenceOf(f) && f.synced <= |f.data| && g.synced <= |g.data|
    && Events(f.data[..f.synced]) <= Events(g.data[..g.synced])
  }

  lemma GrownByWrite(f: File, g: File)
    requires Whole(f) && Whole(g) && SequenceOf(g) == SequenceOf(f) && g.synced == f.synced && f.data <= g.data
    ensures Grown(f, g)
  {
    hide IsOpen, IsClosed, Roomy, Events, HeaderOfData, HeaderLine;
    assert f.data[..f.synced] == g.data[..g.synced];
  }

  lemma GrownBySync(f: File)
    requires Whole(f)
    ensures Grown(f, Flushed(f))
  {
    hide OpenFile, ClosedFile, Events, HeaderOfData;
    WholeLengths(f);
    FlushedFile(f);
    assert Flushed(f).data[..Flushed(f).synced] == f.data;
  }

  lemma WholeLengths(f: File)
    requires Whole(f)
    ensures f.synced <= |f.data|
  {
    hide IsOpen, IsClosed, Roomy, HeaderLine;
  }

  lemma GrownByTruncation(f: File)
    requires OpenFile(f)
    ensures Grown(f, Truncated(f))
  {
    hide OpenFile, ClosedFile, Events, HeaderOfData, Truncated;
    WholeLengths(f);
    TruncatedFile(f);
    TruncatedSequence(f);
  }

  /** The durable events of a slot only grow with the file that holds them. */
  lemma GrownSlot(w: Dir, files: Files, i: Inode, g: File, n: int)
    requires Names(w, files) && (i in files && Whole(files[i]) ==> Grown(files[i], g))
    ensures At(w, Synced(files), n) <= At(w, Synced(files[i := g]), n)
  {
    hide OpenFile, ClosedFile, Events, HeaderOfData;
    if Current in w {
      assert w[Current] in files && Whole(files[w[Current]]);
      CutSynced(files[w[Current]]);
      if w[Current] == i { CutSynced(g); }
    }
    if Rotated(n) in w { assert w[Rotated(n)] in files && Whole(files[w[Rotated(n)]]); }
  }

  lemma FirmFile(worlds: set<Dir>, d: Dir, files: Files, promised: int -> seq<string>, i: Inode, g: File)
    requires Firm(worlds, d, files, promised) && (i in files && Whole(files[i]) ==> Grown(files[i], g))
    ensures Firm(worlds, d, files[i := g], promised)
  {
    hide OpenFile, ClosedFile, At, Synced, Lags, SequenceOf, Events;
    forall w <- worlds ensures Version(w, d, files[i := g], promised) {
      assert Version(w, d, files, promised);
      forall n ensures promised(n) <= At(w, Synced(files[i := g]), n) {
        assert promised(n) <= At(w, Synced(files), n);
        GrownSlot(w, files, i, g, n);
      }
    }
  }

  // ---- power cuts ------------------------------------------------------------------------------------------------------

  lemma CutWhole(f: File, g: File)
    requires Whole(f) && CutFile(f, g)
    ensures Whole(g) && SequenceOf(g) == SequenceOf(f) && Events(f.data[..f.synced]) <= Events(g.data)
  {
    hide OpenFile, ClosedFile, Events, HeaderOfData;
    if OpenFile(f) { CutOpenFile(f, g); } else { CutClosedFile(f, g); }
  }

  lemma CutKeepsSlot(w: Dir, files: Files, after: Files, n: int)
    requires Names(w, files) && CutFiles(files, after)
    ensures At(w, Synced(files), n) <= At(w, after, n)
  {
    hide OpenFile, ClosedFile, Events, HeaderOfData;
    if Current in w {
      assert Whole(files[w[Current]]) && CutFile(files[w[Current]], after[w[Current]]);
      CutWhole(files[w[Current]], after[w[Current]]);
      CutSynced(files[w[Current]]);
    }
    if Rotated(n) in w {
      assert Whole(files[w[Rotated(n)]]) && CutFile(files[w[Rotated(n)]], after[w[Rotated(n)]]);
      CutWhole(files[w[Rotated(n)]], after[w[Rotated(n)]]);
    }
  }

  /** Whatever version a power cut leaves, it keeps every promise. */
  lemma FirmCut(worlds: set<Dir>, d: Dir, files: Files, promised: int -> seq<string>, w: Dir, after: Files)
    requires Firm(worlds, d, files, promised) && w in worlds && CutFiles(files, after)
    ensures Firm({w}, w, after, promised)
    ensures forall n :: promised(n) <= At(w, after, n)
  {
    hide OpenFile, ClosedFile, At, Synced, SequenceOf, Events;
    assert Version(w, d, files, promised);
    forall n <- w.Keys
      ensures w[n] in after && (n != Staging ==> Whole(after[w[n]]))
      ensures n.Rotated? ==> SequenceOf(after[w[n]]) == Some(n.sequence)
    {
      assert CutFile(files[w[n]], after[w[n]]);
      if n != Staging { CutWhole(files[w[n]], after[w[n]]); }
    }
    SyncedAfterCut(files, after);
    forall n ensures promised(n) <= At(w, after, n) {
      assert promised(n) <= At(w, Synced(files), n);
      CutKeepsSlot(w, files, after, n);
    }
    assert Version(w, w, after, promised);
  }

  // ---- changes of entries ------------------------------------------------------------------------------------------------

  /** Each version may or may not have seen the operation. */
  function Spread(op: DirOp, worlds: set<Dir>): set<Dir> { worlds + set w <- worlds :: Apply(op, w) }

  /** A version stays one, and is still one after the operation. */
  ghost predicate Follows(op: DirOp, w: Dir, d: Dir, files: Files, promised: int -> seq<string>) {
    Version(w, Apply(op, d), files, promised) && Version(Apply(op, w), Apply(op, d), files, promised)
  }

  lemma FirmSpread(worlds: set<Dir>, d: Dir, files: Files, promised: int -> seq<string>, op: DirOp)
    requires d in worlds && forall w <- worlds :: Follows(op, w, d, files, promised)
    ensures Firm(Spread(op, worlds), Apply(op, d), files, promised)
  {
    hide Version;
    forall v <- Spread(op, worlds) ensures Version(v, Apply(op, d), files, promised) {
      if v in worlds {
        assert Follows(op, v, d, files, promised);
      } else {
        var w :| w in worlds && v == Apply(op, w);
        assert Follows(op, w, d, files, promised);
      }
    }
  }

  lemma StagingIsNoSlot(op: DirOp, w: Dir, files: Files, n: int)
    requires op == Drop(Staging) || (op.Bind? && op.name == Staging)
    ensures At(Apply(op, w), files, n) == At(w, files, n)
  {
    hide SequenceOf, Events;
  }

  /** Binding or dropping the staging name concerns no slot. */
  lemma FirmStaging(worlds: set<Dir>, d: Dir, files: Files, promised: int -> seq<string>, op: DirOp)
    requires Firm(worlds, d, files, promised)
    requires op == Drop(Staging) || (op.Bind? && op.name == Staging && op.inode in files)
    ensures Firm(Spread(op, worlds), Apply(op, d), files, promised)
  {
    hide Whole, SequenceOf, Events, Synced, At;
    forall w <- worlds ensures Follows(op, w, d, files, promised) {
      assert Version(w, d, files, promised);
      forall n ensures promised(n) <= At(Apply(op, w), Synced(files), n) {
        assert promised(n) <= At(w, Synced(files), n);
        StagingIsNoSlot(op, w, Synced(files), n);
      }
    }
    FirmSpread(worlds, d, files, promised, op);
  }

  /** Publishing over a directory without an active segment: what is promised lies in rotations, which no version
      lacks. */
  lemma FirmPublish(worlds: set<Dir>, d: Dir, files: Files, promised: int -> seq<string>, j: Inode)
    requires Firm(worlds, d, files, promised) && Current !in d && j in files && Whole(files[j])
    ensures Firm(Spread(Publish(j), worlds), Apply(Publish(j), d), files, promised)
  {
    hide Whole, SequenceOf, Events, Synced;
    var op := Publish(j);
    assert Version(d, d, files, promised);
    forall w <- worlds ensures Follows(op, w, d, files, promised) {
      assert Version(w, d, files, promised);
      forall n ensures promised(n) <= At(Apply(op, w), Synced(files), n) {
        assert promised(n) <= At(w, Synced(files), n) && promised(n) <= At(d, Synced(files), n);
        if Rotated(n) in d { assert Rotated(n) in w && w[Rotated(n)] == d[Rotated(n)]; }
      }
    }
    FirmSpread(worlds, d, files, promised, op);
  }

  /** Giving the active segment its rotated name. */
  lemma FirmLink(worlds: set<Dir>, d: Dir, files: Files, promised: int -> seq<string>, q: int)
    requires Firm(worlds, d, files, promised) && Current in d && Rotated(q) !in d
    requires d[Current] in files && SequenceOf(files[d[Current]]) == Some(q)
    ensures var op := Bind(Rotated(q), d[Current]); Firm(Spread(op, worlds), Apply(op, d), files, promised)
  {
    hide Whole, SequenceOf, Events;
    var i := d[Current];
    var op := Bind(Rotated(q), i);
    assert Version(d, d, files, promised);
    assert Whole(files[i]);
    forall w <- worlds ensures Follows(op, w, d, files, promised) {
      assert Version(w, d, files, promised);
      forall n ensures promised(n) <= At(Apply(op, w), Synced(files), n) {
        assert promised(n) <= At(w, Synced(files), n) && promised(n) <= At(d, Synced(files), n);
      }
    }
    FirmSpread(worlds, d, files, promised, op);
  }

  /** Dropping the active name of a segment whose rotated name is on the device. */
  lemma FirmRetire(d: Dir, files: Files, promised: int -> seq<string>, q: int)
    requires Firm({d}, d, files, promised) && Current in d && d[Current] in files
    requires SequenceOf(files[d[Current]]) == Some(q) && Rotated(q) in d && d[Rotated(q)] == d[Current]
    ensures Firm(Spread(Drop(Current), {d}), Apply(Drop(Current), d), files, promised)
  {
    hide Events, OpenFile, ClosedFile, SequenceOf;
    var op := Drop(Current);
    assert Version(d, d, files, promised);
    assert Whole(files[d[Current]]);
    CutSynced(files[d[Current]]);
    forall n ensures At(Apply(op, d), Synced(files), n) == At(d, Synced(files), n) {}
    assert Follows(op, d, d, files, promised);
    FirmSpread({d}, d, files, promised, op);
  }

  /** Dropping a rotation whose promise has been withdrawn. */
  lemma FirmPrune(worlds: set<Dir>, d: Dir, files: Files, promised: int -> seq<string>, q: int)
    requires Firm(worlds, d, files, promised) && promised(q) == []
    ensures Firm(Spread(Drop(Rotated(q)), worlds), Apply(Drop(Rotated(q)), d), files, promised)
  {
    hide Whole, SequenceOf, Events, Synced;
    var op := Drop(Rotated(q));
    forall w <- worlds ensures Follows(op, w, d, files, promised) {
      assert Version(w, d, files, promised);
      forall n ensures promised(n) <= At(Apply(op, w), Synced(files), n) {
        assert promised(n) <= At(w, Synced(files), n);
      }
    }
    FirmSpread(worlds, d, files, promised, op);
  }

  // ---- certified rotations -----------------------------------------------------------------------------------------------

  /** Writing to a file that is not sealed, or to a new one. */
  lemma StampedFile(worlds: set<Dir>, d: Dir, files: Files, promised: int -> seq<string>, i: Inode, g: File)
    requires Firm(worlds, d, files, promised) && Stamped(worlds, files)
    requires i in files && ClosedFile(files[i]) && files[i].synced == |files[i].data| ==> g == files[i]
    ensures Stamped(worlds, files[i := g])
  {
    hide OpenFile, ClosedFile, Lags, Honours, SequenceOf;
    forall w <- worlds ensures Certified(w, files[i := g]) {
      assert Version(w, d, files, promised) && Certified(w, files);
    }
  }

  /** Only a segment whose trailer is on the device gets a rotated name. */
  lemma StampedSpread(worlds: set<Dir>, files: Files, op: DirOp)
    requires Stamped(worlds, files)
    requires op.Bind? && op.name.Rotated? && op.inode in files ==>
      ClosedFile(files[op.inode]) && files[op.inode].synced == |files[op.inode].data|
    ensures Stamped(Spread(op, worlds), files)
  {
    hide ClosedFile;
    forall v <- Spread(op, worlds) ensures Certified(v, files) {
      if v !in worlds {
        var w :| w in worlds && v == Apply(op, w);
        assert Certified(w, files);
      }
    }
  }

  lemma FirmSync(worlds: set<Dir>, d: Dir, files: Files, promised: int -> seq<string>)
    requires Firm(worlds, d, files, promised)
    ensures Firm({d}, d, files, promised)
  {
    hide Version;
  }

  // ---- what may be promised ------------------------------------------------------------------------------------------------

  lemma FirmPromise(
    worlds: set<Dir>, d: Dir, files: Files, promised: int -> seq<string>, more: int -> seq<string>)
    requires Firm(worlds, d, files, promised)
    requires forall n :: more(n) <= promised(n) || forall w <- worlds :: more(n) <= At(w, Synced(files), n)
    ensures Firm(worlds, d, files, more)
  {
    hide At, Synced, Names, Lags;
    forall w <- worlds ensures Version(w, d, files, more) {
      assert Version(w, d, files, promised);
      forall n ensures more(n) <= At(w, Synced(files), n) {
        assert promised(n) <= At(w, Synced(files), n);
      }
    }
  }

  /** Version `w` takes the events of sequence `n` from inode `i`. */
  ghost predicate ReadsFrom(w: Dir, i: Inode, n: int) {
    if Rotated(n) in w then w[Rotated(n)] == i else Current in w && w[Current] == i
  }

  /** Every version a power cut might leave binds the active name, or the rotated name of sequence `n`, to inode `i`. */
  ghost predicate Anchored(worlds: set<Dir>, i: Inode, n: int) { forall w <- worlds :: ReadsFrom(w, i, n) }

  lemma ReadsSynced(w: Dir, files: Files, i: Inode, n: int)
    requires Names(w, files) && ReadsFrom(w, i, n) && i in files && SequenceOf(files[i]) == Some(n)
    requires files[i].synced == |files[i].data|
    ensures At(w, Synced(files), n) == Events(files[i].data) == At(w, files, n)
  {
    hide Events, OpenFile, ClosedFile, HeaderOfData;
    assert files[i].data[..files[i].synced] == files[i].data;
  }

  /** The events of a rotation, other than the active segment's twin, are durable in every version. */
  lemma RotationIsKept(worlds: set<Dir>, d: Dir, files: Files, promised: int -> seq<string>, n: int)
    requires Firm(worlds, d, files, promised) && Good(d, files) && Rotated(n) in d
    requires Current in d ==> d[Current] != d[Rotated(n)]
    ensures forall w <- worlds :: At(w, Synced(files), n) == At(d, files, n)
  {
    hide Whole, Events, HeaderOfData, OpenFile, ClosedFile, CurrentOk, StagingOk, Rotations, PendingRotation;
    assert RotatedOk(d, files, n);
    forall w <- worlds ensures At(w, Synced(files), n) == At(d, files, n) {
      assert Version(w, d, files, promised);
    }
  }
}

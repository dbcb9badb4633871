/** The system calls themselves: each may be refused, tear, or never return. */
module LogKernel {
  import opened Common
  import opened LogDisk
  import opened LogSteps
  import opened LogNames
  import opened LogVersions
  import opened LogFilesystem

  datatype Stat = Missing | Unreadable | Found(inode: Inode, size: nat, links: nat)

  function Links(d: Dir, i: Inode): nat { |set n <- d.Keys | d[n] == i| }

  /** `os.ftruncate`. */
  function Shortened(f: File, n: nat): File
    requires n <= |f.data|
  {
    File(f.data[..n], if f.synced <= n then f.synced else n)
  }

  class Disk {
    var s: Fs
    var alive: bool
    var own: set<Dir>
    var lost: bool
    ghost var ledger: Ledger
    /** How many calls have failed so far. */
    ghost var faults: nat

    ghost function Now(): Snap
      reads this
    {
      Snap(s, own, lost, ledger)
    }

    /** The call had no effect of its own: it was refused, or the host stopped before it. */
    twostate predicate NoEffect()
      reads this
    {
      && old(faults) <= faults
      && if alive then old(alive) && Now() == old(Now())
         else if old(alive) then Halted(old(Now()), Now())
         else Now() == old(Now())
    }

    constructor (s: Fs)
      ensures this.s == s && alive && own == {s.dir} && !lost && faults == 0
      ensures ledger == Ledger(_ => [], LogOf(s), {}, true)
    {
      this.s, alive, own, lost, faults := s, true, {s.dir}, false, 0;
      ledger := Ledger(_ => [], LogOf(s), {}, true);
    }

    /** The environment's choice before every call: go on, refuse it, kill the process, or cut the power. */
    method Refuses() returns (refused: bool)
      modifies this
      ensures !refused ==> alive && old(alive) && Now() == old(Now()) && faults == old(faults)
      ensures refused ==> NoEffect() && (alive ==> faults > old(faults))
    {
      refused := true;
      if !alive {
        return;
      }
      if * {
        alive := false;
        return;
      }
      if * {
        var t: Fs := *;
        if t.dir in s.worlds && t.worlds == {t.dir} && CutFiles(s.files, t.files) {
          ledger := Ledger(ledger.promised, LogOf(t), {}, ledger.certified);
          lost := lost || t.dir !in own;
          s, own, alive := t, {t.dir}, false;
          return;
        }
      }
      if * {
        faults := faults + 1;
        return;
      }
      refused := false;
    }

    /** `os.stat` without following links. */
    method StatName(name: Name) returns (r: Stat)
      modifies this
      ensures NoEffect() && (r.Unreadable? || (alive && faults == old(faults)))
      ensures r.Unreadable? ==> !alive || faults > old(faults) || (name in old(s.dir) && old(s.dir[name] !in s.files))
      ensures r.Missing? ==> name !in s.dir
      ensures r.Found? ==>
        && name in s.dir && s.dir[name] == r.inode && r.inode in s.files
        && r.size == |s.files[r.inode].data| && r.links == Links(s.dir, r.inode)
    {
      var refused := Refuses();
      if refused {
        return Unreadable;
      }
      if name !in s.dir {
        return Missing;
      }
      var i := s.dir[name];
      if i !in s.files {
        return Unreadable;
      }
      r := Found(i, |s.files[i].data|, Links(s.dir, i));
    }

    /** Reading a whole open file. */
    method Read(i: Inode) returns (r: Option<string>)
      requires i in s.files
      modifies this
      ensures NoEffect()
      ensures r.Some? ==> alive && r.value == old(s.files[i].data) && faults == old(faults)
      ensures r.None? ==> !alive || faults > old(faults)
    {
      var refused := Refuses();
      r := if refused then None else Some(s.files[i].data);
    }

    /** `os.scandir`, keeping the rotated names' sequences. */
    method ScanRotated() returns (r: Option<set<int>>)
      modifies this
      ensures NoEffect()
      ensures r.Some? ==> alive && faults == old(faults) && forall q :: q in r.value <==> Rotated(q) in s.dir
      ensures r.Some? ==> |r.value| == |Rotations(s.dir)|
      ensures r.None? ==> !alive || faults > old(faults)
    {
      var refused := Refuses();
      if refused {
        return None;
      }
      var found := set n <- s.dir.Keys | n.Rotated? :: n.sequence;
      SameCount(found, Rotations(s.dir));
      r := Some(found);
    }

    /** `os.write` on a descriptor opened for append: some prefix of the bytes is written. */
    method Write(i: Inode, bytes: string) returns (written: Option<nat>)
      requires i in s.files
      modifies this
      ensures written.None? ==> NoEffect() && (alive ==> faults > old(faults))
      ensures written.Some? ==>
        && alive && old(alive) && written.value <= |bytes|
        && Now() == old(Now()).(fs := WithFile(old(s), i, Extended(old(s.files[i]), bytes[..written.value])))
        && (if written.value == |bytes| then faults == old(faults) else faults > old(faults))
    {
      var refused := Refuses();
      if refused {
        return None;
      }
      var k: int := *;
      if 0 <= k < |bytes| {
        faults := faults + 1;
      } else {
        k := |bytes|;
      }
      s := WithFile(s, i, Extended(s.files[i], bytes[..k]));
      written := Some(k);
    }

    /** `os.fsync` of a file. */
    method Fsync(i: Inode) returns (ok: bool)
      requires i in s.files
      modifies this
      ensures ok ==>
        && alive && old(alive) && faults == old(faults)
        && Now() == old(Now()).(fs := WithFile(old(s), i, Flushed(old(s.files[i]))))
      ensures !ok ==> NoEffect() && (alive ==> faults > old(faults))
    {
      var refused := Refuses();
      if refused {
        return false;
      }
      s := WithFile(s, i, Flushed(s.files[i]));
      ok := true;
    }

    /** `os.fsync` of the directory. */
    method FsyncDir() returns (ok: bool)
      modifies this
      ensures ok ==> alive && old(alive) && faults == old(faults) && Now() == old(Now()).DirSynced()
      ensures !ok ==> NoEffect() && (alive ==> faults > old(faults))
    {
      var refused := Refuses();
      if refused {
        return false;
      }
      s, own := SyncedDir(s), {s.dir};
      ok := true;
    }

    /** `os.open(..., O_CREAT | O_EXCL)` of the staging name. */
    method CreateStaging() returns (r: Option<Inode>)
      modifies this
      ensures r.Some? ==>
        && alive && old(alive) && faults == old(faults) && r.value !in old(s.files) && Staging !in old(s.dir)
        && Now() == old(Now()).(fs := WithFile(old(s), r.value, File("", 0))).Changed(Bind(Staging, r.value))
      ensures r.None? ==> NoEffect() && (alive ==> faults > old(faults) || Staging in old(s.dir))
    {
      var refused := Refuses();
      if refused {
        return None;
      }
      var j: Inode := *;
      if Staging in s.dir {
        return None;
      }
      if j in s.files {
        faults := faults + 1;
        return None;
      }
      s, own := ChangeDir(WithFile(s, j, File("", 0)), Bind(Staging, j)), Spread(Bind(Staging, j), own);
      r := Some(j);
    }

    /** `os.link` of the current name to a rotated name; `exists` reports EEXIST. */
    method LinkRotated(q: int) returns (ok: bool, exists_: bool)
      modifies this
      ensures ok ==>
        && alive && old(alive) && faults == old(faults) && !exists_
        && Current in old(s.dir) && Rotated(q) !in old(s.dir)
        && Now() == old(Now()).Changed(Bind(Rotated(q), old(s.dir[Current])))
      ensures !ok ==> NoEffect()
      ensures !ok && alive ==> faults > old(faults) || Current !in old(s.dir) || Rotated(q) in old(s.dir)
      ensures exists_ ==> !ok && alive && faults == old(faults) && Rotated(q) in old(s.dir)
    {
      ok, exists_ := false, false;
      var refused := Refuses();
      if refused || Current !in s.dir {
        return;
      }
      if Rotated(q) in s.dir {
        exists_ := true;
        return;
      }
      var op := Bind(Rotated(q), s.dir[Current]);
      s, own := ChangeDir(s, op), Spread(op, own);
      ok := true;
    }

    /** `os.unlink`. */
    method Unlink(name: Name) returns (ok: bool)
      modifies this
      ensures ok ==>
        && alive && old(alive) && faults == old(faults) && name in old(s.dir)
        && Now() == old(Now()).Changed(Drop(name))
      ensures !ok ==> NoEffect() && (alive ==> faults > old(faults) || name !in old(s.dir))
    {
      var refused := Refuses();
      if refused || name !in s.dir {
        return false;
      }
      s, own := ChangeDir(s, Drop(name)), Spread(Drop(name), own);
      ok := true;
    }

    /** `os.rename` of the staging name to the current name. */
    method PublishStaging() returns (ok: bool)
      modifies this
      ensures ok ==>
        && alive && old(alive) && faults == old(faults) && Staging in old(s.dir)
        && Now() == old(Now()).Changed(Publish(old(s.dir[Staging])))
      ensures !ok ==> NoEffect() && (alive ==> faults > old(faults) || Staging !in old(s.dir))
    {
      var refused := Refuses();
      if refused || Staging !in s.dir {
        return false;
      }
      var op := Publish(s.dir[Staging]);
      s, own := ChangeDir(s, op), Spread(op, own);
      ok := true;
    }

    /** `os.ftruncate` to a shorter length. */
    method Truncate(i: Inode, n: nat) returns (ok: bool)
      requires i in s.files && n <= |s.files[i].data|
      modifies this
      ensures ok ==>
        && alive && old(alive) && faults == old(faults)
        && Now() == old(Now()).(fs := WithFile(old(s), i, Shortened(old(s.files[i]), n)))
      ensures !ok ==> NoEffect() && (alive ==> faults > old(faults))
    {
      var refused := Refuses();
      if refused {
        return false;
      }
      s := WithFile(s, i, Shortened(s.files[i], n));
      ok := true;
    }

    /** The host comes up again; every process that ran before is gone. */
    method Restart()
      modifies this
      ensures alive && Now() == old(Now()) && faults == old(faults)
    {
      alive := true;
    }

    /** Bookkeeping at the start of an operation: what is in the log now is what it must account for. */
    method Enter()
      modifies this
      ensures s == old(s) && alive == old(alive) && faults == old(faults) && own == {s.dir} && lost == old(lost)
      ensures ledger == Ledger(old(ledger).promised, LogOf(s), {}, old(ledger).certified)
    {
      own := {s.dir};
      ledger := Ledger(ledger.promised, LogOf(s), {}, ledger.certified);
    }

    /** Acquiring the log lock; it is released when the operation returns. */
    method Lock() returns (ok: bool)
      modifies this
      ensures ok ==> alive && old(alive) && Now() == old(Now()) && faults == old(faults)
      ensures !ok ==> NoEffect() && (alive ==> faults > old(faults))
    {
      var refused := Refuses();
      ok := !refused;
    }

    /** `os.fstat` of an open descriptor. */
    method StatFile(i: Inode) returns (r: Stat)
      requires i in s.files
      modifies this
      ensures NoEffect() && (r.Unreadable? ==> !alive || faults > old(faults))
      ensures !r.Unreadable? ==>
        alive && faults == old(faults) && r == Found(i, |s.files[i].data|, Links(s.dir, i)) && i in s.files
    {
      var refused := Refuses();
      r := if refused then Unreadable else Found(i, |s.files[i].data|, Links(s.dir, i));
    }
  }

  /** Entering an operation keeps the invariant; it has changed no entry yet. */
  lemma EnterOk(x: Snap, y: Snap)
    requires x.Ok() && y.fs == x.fs && y.own == {x.fs.dir} && y.lost == x.lost
    requires y.ledger == Ledger(x.ledger.promised, LogOf(x.fs), {}, x.ledger.certified)
    ensures y.Ok() && y.Calm() && SameLog(x, y) && forall n :: y.ledger.recorded(n) == y.Slot(n)
  {
    hide Good, At, Synced, Firm;
    assert World(x.fs.dir, x.fs.files, x.ledger);
    forall n ensures Records(x.fs.dir, x.fs.files, y.ledger, n) && y.ledger.promised(n) <= At(x.fs.dir, Synced(x.fs.files), n) {}
    assert World(x.fs.dir, x.fs.files, y.ledger);
  }

  /** An empty directory with nothing promised. */
  lemma EmptyIsOk(x: Snap)
    requires x.fs == Fs(map[], map[], {map[]}) && x.own == {map[]} && !x.lost
    requires x.ledger == Ledger(_ => [], LogOf(x.fs), {}, true)
    ensures x.Ok()
  {
    assert Rotations(map[]) == {};
    forall n ensures Records(map[], map[], x.ledger, n) && x.ledger.promised(n) <= At(map[], Synced(map[]), n) {}
    assert World(map[], map[], x.ledger);
    assert Version(map[], map[], map[], x.ledger.promised);
  }

  lemma SameCount(found: set<int>, names: set<Name>)
    requires forall n <- names :: n.Rotated?
    requires found == set n <- names :: n.sequence
    ensures |found| == |names|
  {
    if names != {} {
      var n :| n in names;
      var rest := names - {n};
      assert found - {n.sequence} == set m <- rest :: m.sequence;
      SameCount(found - {n.sequence}, rest);
    }
  }
}

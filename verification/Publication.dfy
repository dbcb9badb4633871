/** Atomic no-overwrite publication of a file, under a failure of any system call. */
module Publication {
  import opened Common

  /** The failure categories of the secure file boundary. */
  datatype Kind =
    | ACCESS_CONTROL_UNSAFE | ALREADY_EXISTS | CHANGED | CLEANUP_FAILED | COMMIT_UNCERTAIN | INVALID | NOT_FOUND
    | NOT_REGULAR | PARENT_UNSAFE | PERMISSION_FAILED | SECURITY_UNSUPPORTED | SYNC_FAILED | UNREADABLE | WRITE_FAILED
    | BEFORE_PUBLISH

  /** What a failed system call reports. */
  datatype Errno = ENOENT | EEXIST | ELOOP | OTHER

  /** What an inner step raises: a fixed kind, or a raw operating-system error. */
  datatype Raised = Secure(kind: Kind) | Os(errno: Errno)

  type Fd = nat
  type Inode = nat

  /** The names of one directory, and the bytes of every inode. */
  datatype View = View(dir: map<string, Inode>, files: map<Inode, string>)

  const STAGED_FILE_PREFIX: string := ".milhouse-stage-"
  const STAGED_FILE_ATTEMPTS: nat := 16
  const STAGED_TOKEN_LENGTH: nat := 32

  predicate IsToken(token: string) {
    |token| == STAGED_TOKEN_LENGTH && forall i | 0 <= i < |token| :: '0' <= token[i] <= '9' || 'a' <= token[i] <= 'f'
  }

  /** A name the writer may choose for its staged file: the prefix and 32 hexadecimal digits. */
  predicate IsStagingName(name: string) {
    STAGED_FILE_PREFIX <= name && IsToken(name[|STAGED_FILE_PREFIX|..])
  }

  /** Forty-eight characters: the sixteen of the prefix and 32 hexadecimal digits. */
  lemma StagingNamesExactly(name: string)
    ensures IsStagingName(name) <==>
      && |name| == 48 && name[..16] == ".milhouse-stage-"
      && forall i | 16 <= i < 48 :: '0' <= name[i] <= '9' || 'a' <= name[i] <= 'f'
  {
    if |name| == 48 { assert forall i | 16 <= i < 48 :: name[i] == name[16..][i - 16]; }
  }

  /** What other processes may do between two calls: bind names nobody uses, to inodes that are not `mine`. */
  predicate Undisturbed(a: View, b: View, mine: set<Inode>) {
    && (forall n <- a.dir.Keys :: n in b.dir && b.dir[n] == a.dir[n])
    && (forall n <- b.dir.Keys :: n in a.dir || b.dir[n] !in mine)
    && (forall i <- a.files.Keys :: i in b.files && b.files[i] == a.files[i])
  }

  // ---- descriptors -------------------------------------------------------------------------------------------------

  /** Since `a`, every descriptor opened has had exactly one close attempt, except the `pending` ones, which have had
      none; earlier descriptors are as they were. */
  ghost predicate Balanced(a: map<Fd, nat>, b: map<Fd, nat>, pending: set<Fd>) {
    && (forall fd <- a.Keys :: fd in b && b[fd] == a[fd])
    && pending <= b.Keys - a.Keys
    && forall fd <- b.Keys - a.Keys :: b[fd] == if fd in pending then 0 else 1
  }

  // ---- the final name at every moment -------------------------------------------------------------------------------

  /** An inode of `ours` shows under staging names only, or under the final name with the whole content. */
  ghost predicate WholeOrStaged(v: View, leaf: string, ours: set<Inode>, content: string) {
    forall n <- v.dir.Keys :: v.dir[n] in ours && v.dir[n] in v.files ==>
      IsStagingName(n) || (n == leaf && v.files[v.dir[n]] == content)
  }

  /** At no moment since `from` has the final name shown a part of the content, or anything older been touched. */
  ghost predicate NeverTorn(start: View, moments: seq<View>, from: nat, v: View, leaf: string, ours: set<Inode>, content: string) {
    && from <= |moments|
    && forall k | from <= k < |moments| ::
         && moments[k].files.Keys <= v.files.Keys && Kept(start, moments[k])
         && WholeOrStaged(moments[k], leaf, ours, content)
  }

  /** Nothing that was there before has been unbound, rebound or rewritten. */
  ghost predicate Kept(a: View, b: View) {
    && (forall n <- a.dir.Keys :: n in b.dir && b.dir[n] == a.dir[n])
    && (forall i <- a.files.Keys :: i in b.files && b.files[i] == a.files[i])
  }

  lemma NeverTornStep(
    start: View, moments: seq<View>, from: nat, v: View, w: View, leaf: string, ours: set<Inode>, content: string)
    requires NeverTorn(start, moments, from, v, leaf, ours, content)
    requires v.files.Keys <= w.files.Keys && WholeOrStaged(w, leaf, ours, content) && Kept(start, w)
    ensures NeverTorn(start, moments + [w], from, w, leaf, ours, content)
  {
    hide WholeOrStaged, Kept;
  }

  /** Every name is that of a file. */
  ghost predicate Bound(v: View) { forall n <- v.dir.Keys :: v.dir[n] in v.files }

  class Volume {
    var v: View
    /** Close attempts of every descriptor opened so far. */
    var closes: map<Fd, nat>
    var next: Fd
    /** The inode behind each descriptor of a file. */
    var target: map<Fd, Inode>
    /** The inodes this process has created. */
    ghost var mine: set<Inode>
    /** Every state between two calls. */
    ghost var moments: seq<View>

    ghost predicate Valid()
      reads this
    {
      && (forall fd <- closes.Keys :: fd < next) && (forall fd <- target.Keys :: fd in closes && target[fd] in v.files)
      && mine <= v.files.Keys && Bound(v) && forall k | 0 <= k < |moments| :: Bound(moments[k])
    }

    /** The call left everything of this process alone. */
    twostate predicate Idle()
      reads this
    {
      && Undisturbed(old(v), v, old(mine)) && mine == old(mine) && closes == old(closes) && target == old(target)
      && moments == old(moments) + [v]
    }

    constructor (dir: map<string, Inode>, files: map<Inode, string>)
      requires forall n <- dir.Keys :: dir[n] in files
      ensures v == View(dir, files) && closes == map[] && target == map[] && mine == {} && moments == [] && Valid()
    {
      v, closes, next, target, mine, moments := View(dir, files), map[], 0, map[], {}, [];
    }

    /** Other processes run; then the call fails, or goes on. */
    method Interleave() returns (error: Option<Errno>)
      requires Valid()
      modifies this
      ensures Valid() && Idle() && error != Some(EEXIST) && error != Some(ENOENT)
    {
      var w: View := *;
      if
        && (forall n <- v.dir.Keys :: n in w.dir && w.dir[n] == v.dir[n])
        && (forall i <- v.files.Keys :: i in w.files && w.files[i] == v.files[i])
        && (forall n <- w.dir.Keys :: w.dir[n] in w.files && (n in v.dir || w.dir[n] !in v.files))
      {
        v := w;
      }
      moments := moments + [v];
      error := *;
      if error == Some(EEXIST) || error == Some(ENOENT) {
        error := Some(OTHER);
      }
    }

    /** A new descriptor, not yet closed. */
    method Descriptor() returns (fd: Fd)
      requires Valid()
      modifies this`closes, this`next
      ensures Valid() && fd !in old(closes) && closes == old(closes)[fd := 0]
    {
      fd := next;
      closes, next := closes[fd := 0], next + 1;
    }

    /** `os.open` of one directory of the chain. */
    method OpenDirectory() returns (r: Result<Fd, Errno>)
      requires Valid()
      modifies this
      ensures Valid() && Undisturbed(old(v), v, old(mine)) && mine == old(mine) && target == old(target)
      ensures moments == old(moments) + [v]
      ensures match r
        case Success(fd) => fd !in old(closes) && closes == old(closes)[fd := 0]
        case Failure(_) => closes == old(closes)
    {
      var error := Interleave();
      if error.Some? {
        return Failure(error.value);
      }
      var fd := Descriptor();
      r := Success(fd);
    }

    /** `os.close`: one attempt, whether or not it reports an error. */
    method Close(fd: Fd) returns (ok: bool)
      requires Valid() && fd in closes
      modifies this
      ensures Valid() && Undisturbed(old(v), v, old(mine)) && mine == old(mine) && target == old(target)
      ensures moments == old(moments) + [v] && closes == old(closes)[fd := old(closes)[fd] + 1]
    {
      var error := Interleave();
      closes := closes[fd := closes[fd] + 1];
      ok := error.None?;
    }

    /** `os.fstat`, `os.fchmod`, `os.fsync` and the ownership probes: nothing changes. */
    method Probe() returns (error: Option<Errno>)
      requires Valid()
      modifies this
      ensures Valid() && Idle()
    {
      error := Interleave();
    }

    /** `os.fstat` of a file: its size, and whether kind, owner, mode and link count are as required. */
    method StatFile(fd: Fd) returns (r: Result<(nat, bool), Errno>)
      requires Valid() && fd in target
      modifies this
      ensures Valid() && Idle()
      ensures r.Success? ==> r.value.0 == |v.files[target[fd]]|
    {
      var error := Interleave();
      if error.Some? {
        return Failure(error.value);
      }
      var sound: bool := *;
      r := Success((|v.files[target[fd]]|, sound));
    }

    /** `os.stat` of a name. */
    method StatName(name: string) returns (r: Result<bool, Errno>)
      requires Valid()
      modifies this
      ensures Valid() && Idle()
      ensures r.Success? ==> (r.value <==> name in v.dir)
    {
      var error := Interleave();
      r := if error.Some? then Failure(error.value) else Success(name in v.dir);
    }

    /** `os.open(..., O_CREAT | O_EXCL)`. */
    method CreateExclusive(name: string) returns (r: Result<Fd, Errno>)
      requires Valid()
      modifies this
      ensures Valid() && moments == old(moments) + [v]
      ensures match r
        case Success(fd) =>
          && fd !in old(closes) && fd !in old(target) && closes == old(closes)[fd := 0] && fd in target
          && target == old(target)[fd := target[fd]] && mine == old(mine) + {target[fd]} && target[fd] !in old(v).files
          && name !in old(v).dir && name in v.dir && v.dir[name] == target[fd] && v.files[target[fd]] == ""
          && Undisturbed(old(v), View(v.dir - {name}, v.files - {target[fd]}), old(mine))
          && forall n <- v.dir.Keys :: n != name ==> v.dir[n] != target[fd]
        case Failure(_) => Undisturbed(old(v), v, old(mine)) && mine == old(mine) && closes == old(closes) && target == old(target)
    {
      var error := Interleave();
      if error.Some? {
        return Failure(error.value);
      }
      if name in v.dir {
        return Failure(EEXIST);
      }
      var i: Inode := *;
      if i in v.files {
        return Failure(OTHER);
      }
      ghost var w := v;
      var fd := Descriptor();
      v := View(v.dir[name := i], v.files[i := ""]);
      target := target[fd := i];
      mine := mine + {i};
      moments := moments[..|moments| - 1] + [v];
      assert v.dir - {name} == w.dir && v.files - {i} == w.files;
      r := Success(fd);
    }

    /** `os.open` of an existing name, for reading. */
    method OpenLeaf(name: string) returns (r: Result<Fd, Errno>)
      requires Valid()
      modifies this
      ensures Valid() && Undisturbed(old(v), v, old(mine)) && mine == old(mine) && moments == old(moments) + [v]
      ensures match r
        case Success(fd) =>
          && fd !in old(closes) && closes == old(closes)[fd := 0] && fd in target && target == old(target)[fd := target[fd]]
          && fd !in old(target) && name in v.dir && v.dir[name] == target[fd]
        case Failure(_) => closes == old(closes) && target == old(target)
    {
      var error := Interleave();
      if error.Some? {
        return Failure(error.value);
      }
      if name !in v.dir {
        return Failure(ENOENT);
      }
      if v.dir[name] !in v.files {
        return Failure(OTHER);
      }
      var fd := Descriptor();
      target := target[fd := v.dir[name]];
      r := Success(fd);
    }

    /** `os.write`: some prefix of the bytes is appended. */
    method Write(fd: Fd, bytes: string) returns (r: Result<nat, Errno>)
      requires Valid() && fd in target && target[fd] in mine
      modifies this
      ensures Valid() && moments == old(moments) + [v] && mine == old(mine) && closes == old(closes) && target == old(target)
      ensures match r
        case Success(k) => k <= |bytes| && Wrote(old(v), v, old(mine), target[fd], old(v).files[target[fd]] + bytes[..k])
        case Failure(_) => Undisturbed(old(v), v, old(mine))
    {
      var error := Interleave();
      if error.Some? {
        return Failure(error.value);
      }
      var k: int := *;
      if k < 0 || k > |bytes| {
        k := |bytes|;
      }
      ghost var w := v;
      v := v.(files := v.files[target[fd] := v.files[target[fd]] + bytes[..k]]);
      moments := moments[..|moments| - 1] + [v];
      r := Success(k);
    }

    /** `os.pread`: some part of what is there, nothing only at the end. */
    method Pread(fd: Fd, count: nat, offset: nat) returns (r: Result<string, Errno>)
      requires Valid() && fd in target && count > 0
      modifies this
      ensures Valid() && Idle()
      ensures r.Success? ==>
        var data := v.files[target[fd]];
        && |r.value| <= count && (r.value == "" <==> offset >= |data|)
        && (offset <= |data| ==> offset + |r.value| <= |data| && r.value == data[offset..offset + |r.value|])
    {
      var error := Interleave();
      if error.Some? {
        return Failure(error.value);
      }
      var data := v.files[target[fd]];
      if offset >= |data| {
        return Success("");
      }
      var k: int := *;
      if k < 1 || k > count || offset + k > |data| {
        k := 1;
      }
      r := Success(data[offset..offset + k]);
    }

    /** `os.ftruncate` to nothing. */
    method Empty(fd: Fd) returns (error: Option<Errno>)
      requires Valid() && fd in target && target[fd] in mine
      modifies this
      ensures Valid() && moments == old(moments) + [v] && mine == old(mine) && closes == old(closes) && target == old(target)
      ensures if error.None? then Wrote(old(v), v, old(mine), target[fd], "") else Undisturbed(old(v), v, old(mine))
    {
      error := Interleave();
      if error.None? {
        v := v.(files := v.files[target[fd] := ""]);
        moments := moments[..|moments| - 1] + [v];
      }
    }

    /** The kernel's exclusive rename; an EIO or a failing call leaves open whether it took place. */
    method RenameNoReplace(staged: string, final: string) returns (r: Option<Kind>)
      requires Valid()
      modifies this
      ensures Valid() && moments == old(moments) + [v] && mine == old(mine) && closes == old(closes) && target == old(target)
      ensures r.None? ==> Renamed(old(v), v, old(mine), staged, final)
      ensures r == Some(COMMIT_UNCERTAIN) ==>
        Renamed(old(v), v, old(mine), staged, final) || Undisturbed(old(v), v, old(mine))
      ensures r.Some? && r.value != COMMIT_UNCERTAIN ==> Undisturbed(old(v), v, old(mine))
    {
      var error := Interleave();
      var lost: bool := *;
      if error.Some? && !lost {
        var unsupported: bool := *;
        return Some(if unsupported then SECURITY_UNSUPPORTED else WRITE_FAILED);
      }
      var took: bool := *;
      if error.Some? && !took {
        return Some(COMMIT_UNCERTAIN);
      }
      if final in v.dir {
        return Some(ALREADY_EXISTS);
      }
      if staged !in v.dir {
        return Some(WRITE_FAILED);
      }
      v := v.(dir := (v.dir - {staged})[final := v.dir[staged]]);
      moments := moments[..|moments| - 1] + [v];
      r := if error.Some? then Some(COMMIT_UNCERTAIN) else None;
    }

    /** `os.replace`: the staged name becomes the final name, whatever that was bound to. */
    method Replace(staged: string, final: string) returns (error: Option<Errno>)
      requires Valid() && staged != final
      modifies this
      ensures Valid() && moments == old(moments) + [v] && mine == old(mine) && closes == old(closes) && target == old(target)
      ensures if error.None? then Replaced(old(v), v, old(mine), staged, final) else Undisturbed(old(v), v, old(mine))
    {
      error := Interleave();
      if error.Some? {
        return;
      }
      if staged !in v.dir {
        return Some(ENOENT);
      }
      v := v.(dir := (v.dir - {staged})[final := v.dir[staged]]);
      moments := moments[..|moments| - 1] + [v];
    }

    /** `os.unlink`. */
    method Unlink(name: string) returns (error: Option<Errno>)
      requires Valid()
      modifies this
      ensures Valid() && moments == old(moments) + [v] && mine == old(mine) && closes == old(closes) && target == old(target)
      ensures if error.None? then Unlinked(old(v), v, old(mine), name) else Undisturbed(old(v), v, old(mine))
    {
      error := Interleave();
      if error.Some? {
        return;
      }
      if name !in v.dir {
        return Some(ENOENT);
      }
      v := v.(dir := v.dir - {name});
      moments := moments[..|moments| - 1] + [v];
    }
  }

  /** Others ran, and the name, which was bound, is gone. */
  ghost predicate Unlinked(a: View, b: View, mine: set<Inode>, name: string) {
    exists w :: Undisturbed(a, w, mine) && name in w.dir && b == w.(dir := w.dir - {name})
  }

  /** Others ran, and inode `i` now holds `data`. */
  ghost predicate Wrote(a: View, b: View, mine: set<Inode>, i: Inode, data: string) {
    exists w :: Undisturbed(a, w, mine) && i in w.files && b == w.(files := w.files[i := data])
  }

  /** Others ran, and the staged name became the final name, which was free. */
  ghost predicate Renamed(a: View, b: View, mine: set<Inode>, staged: string, final: string) {
    exists w :: Undisturbed(a, w, mine) && staged in w.dir && final !in w.dir
      && b == w.(dir := (w.dir - {staged})[final := w.dir[staged]])
  }

  /** Others ran, and the staged name became the final name. */
  ghost predicate Replaced(a: View, b: View, mine: set<Inode>, staged: string, final: string) {
    exists w :: Undisturbed(a, w, mine) && staged in w.dir
      && b == w.(dir := (w.dir - {staged})[final := w.dir[staged]])
  }

  // ---- a staged file ----------------------------------------------------------------------------------------------------

  /** Inode `i` is ours and bears the name `n` only. */
  ghost predicate Held(v: View, i: Inode, n: string) {
    i in v.files && n in v.dir && v.dir[n] == i && forall m <- v.dir.Keys :: v.dir[m] == i ==> m == n
  }

  /** A call that publishes `content` as `leaf`: where it began, what it has staged, and what had been seen by then. */
  datatype Call = Call(
    start: View, from: nat, leaf: string, content: string, inode: Inode, staged: string, past: seq<View>)

  /** Between staging and publication. */
  ghost predicate Staging(c: Call, v: View, moments: seq<View>) {
    && Held(v, c.inode, c.staged) && Kept(c.start, v)
    && c.inode !in c.start.files && c.staged !in c.start.dir && c.staged != c.leaf && IsStagingName(c.staged)
    && NeverTorn(c.start, moments, c.from, v, c.leaf, {c.inode}, c.content) && c.past <= moments
  }

  /** After publication: the final name is bound to the whole content. */
  ghost predicate Published(c: Call, v: View, moments: seq<View>) {
    && Held(v, c.inode, c.leaf) && Kept(c.start, v)
    && v.files[c.inode] == c.content && c.inode !in c.start.files && IsStagingName(c.staged)
    && NeverTorn(c.start, moments, c.from, v, c.leaf, {c.inode}, c.content) && c.past <= moments
  }

  /** Before publication, or after it. */
  ghost predicate Phase(c: Call, v: View, moments: seq<View>, done: bool) {
    if done then Published(c, v, moments) else Staging(c, v, moments)
  }

  lemma UndisturbedKeeps(start: View, a: View, b: View, mine: set<Inode>, i: Inode, n: string)
    requires Undisturbed(a, b, mine) && i in mine && Held(a, i, n) && Kept(start, a)
    ensures Held(b, i, n) && Kept(start, b) && b.files[i] == a.files[i] && a.files.Keys <= b.files.Keys
  {
  }

  lemma WroteKeeps(start: View, a: View, b: View, mine: set<Inode>, i: Inode, n: string, data: string)
    requires Wrote(a, b, mine, i, data) && i in mine && Held(a, i, n) && Kept(start, a) && i !in start.files
    ensures Held(b, i, n) && Kept(start, b) && b.files[i] == data && a.files.Keys <= b.files.Keys
  {
    var w :| Undisturbed(a, w, mine) && i in w.files && b == w.(files := w.files[i := data]);
    UndisturbedKeeps(start, a, w, mine, i, n);
  }

  lemma StagingIdle(c: Call, v: View, moments: seq<View>, w: View, mine: set<Inode>)
    requires Staging(c, v, moments) && Undisturbed(v, w, mine) && c.inode in mine
    ensures Staging(c, w, moments + [w]) && w.files[c.inode] == v.files[c.inode]
  {
    hide Undisturbed, NeverTorn;
    UndisturbedKeeps(c.start, v, w, mine, c.inode, c.staged);
    NeverTornStep(c.start, moments, c.from, v, w, c.leaf, {c.inode}, c.content);
  }

  lemma StagingWrote(c: Call, v: View, moments: seq<View>, w: View, mine: set<Inode>, data: string)
    requires Staging(c, v, moments) && Wrote(v, w, mine, c.inode, data) && c.inode in mine
    ensures Staging(c, w, moments + [w]) && w.files[c.inode] == data
  {
    hide Wrote, NeverTorn;
    WroteKeeps(c.start, v, w, mine, c.inode, c.staged, data);
    NeverTornStep(c.start, moments, c.from, v, w, c.leaf, {c.inode}, c.content);
  }

  lemma PublishedIdle(c: Call, v: View, moments: seq<View>, w: View, mine: set<Inode>)
    requires Published(c, v, moments) && Undisturbed(v, w, mine) && c.inode in mine
    ensures Published(c, w, moments + [w])
  {
    hide Undisturbed, NeverTorn;
    UndisturbedKeeps(c.start, v, w, mine, c.inode, c.leaf);
    NeverTornStep(c.start, moments, c.from, v, w, c.leaf, {c.inode}, c.content);
  }

  lemma PhaseIdle(c: Call, v: View, moments: seq<View>, w: View, mine: set<Inode>, done: bool)
    requires Phase(c, v, moments, done) && Undisturbed(v, w, mine) && c.inode in mine
    ensures Phase(c, w, moments + [w], done) && w.files[c.inode] == v.files[c.inode]
  {
    hide Undisturbed;
    if done { PublishedIdle(c, v, moments, w, mine); } else { StagingIdle(c, v, moments, w, mine); }
  }

  lemma StagingRenamed(c: Call, v: View, moments: seq<View>, w: View, mine: set<Inode>)
    requires Staging(c, v, moments) && v.files[c.inode] == c.content && c.inode in mine
    requires Renamed(v, w, mine, c.staged, c.leaf)
    ensures Published(c, w, moments + [w])
  {
    hide NeverTorn;
    var u :| Undisturbed(v, u, mine) && c.staged in u.dir && c.leaf !in u.dir
      && w == u.(dir := (u.dir - {c.staged})[c.leaf := u.dir[c.staged]]);
    UndisturbedKeeps(c.start, v, u, mine, c.inode, c.staged);
    NeverTornStep(c.start, moments, c.from, v, w, c.leaf, {c.inode}, c.content);
  }

  // ---- the steps -----------------------------------------------------------------------------------------------------------

  /** A failure that does not claim the commit point. */
  predicate BeforeCommit(e: Option<Raised>) { e != Some(Secure(COMMIT_UNCERTAIN)) }

  /** `fd` is the descriptor of the file this call stages, or has published. */
  ghost predicate Owns(c: Call, vol: Volume, fd: Fd, done: bool)
    reads vol
  {
    && vol.Valid() && c.inode in vol.mine && Phase(c, vol.v, vol.moments, done)
    && fd in vol.target && vol.target[fd] == c.inode
  }

  /** The descriptors and the inodes created are as they were. */
  twostate predicate SameDescriptors(vol: Volume)
    reads vol
  {
    vol.closes == old(vol.closes) && vol.target == old(vol.target) && vol.mine == old(vol.mine)
  }

  ghost function DataOf(vol: Volume, c: Call): string
    reads vol
  {
    if c.inode in vol.v.files then vol.v.files[c.inode] else ""
  }

  method WriteSome(vol: Volume, fd: Fd, bytes: string, ghost c: Call) returns (r: Result<nat, Errno>)
    requires Owns(c, vol, fd, false)
    modifies vol
    ensures Owns(c, vol, fd, false) && SameDescriptors(vol)
    ensures match r
      case Success(k) => k <= |bytes| && DataOf(vol, c) == old(DataOf(vol, c)) + bytes[..k]
      case Failure(_) => true
  {
    hide Undisturbed, Wrote, NeverTorn, Held, Kept;
    ghost var v, moments := vol.v, vol.moments;
    r := vol.Write(fd, bytes);
    if r.Success? {
      StagingWrote(c, v, moments, vol.v, vol.mine, v.files[c.inode] + bytes[..r.value]);
    } else {
      StagingIdle(c, v, moments, vol.v, vol.mine);
    }
  }

  method ProbeOwned(vol: Volume, fd: Fd, ghost c: Call, ghost done: bool) returns (error: Option<Errno>)
    requires Owns(c, vol, fd, done)
    modifies vol
    ensures Owns(c, vol, fd, done) && SameDescriptors(vol) && DataOf(vol, c) == old(DataOf(vol, c))
  {
    hide Undisturbed, NeverTorn, Held, Kept, Phase;
    ghost var v, moments := vol.v, vol.moments;
    error := vol.Probe();
    PhaseIdle(c, v, moments, vol.v, vol.mine, done);
  }

  /** `os.fstat` and `_validate_created_metadata`. */
  method CheckMetadata(vol: Volume, fd: Fd, size: nat, ghost c: Call, ghost done: bool) returns (e: Option<Raised>)
    requires Owns(c, vol, fd, done)
    modifies vol
    ensures Owns(c, vol, fd, done) && SameDescriptors(vol) && DataOf(vol, c) == old(DataOf(vol, c))
    ensures (e.None? ==> |DataOf(vol, c)| == size) && BeforeCommit(e)
  {
    hide Undisturbed, NeverTorn, Held, Kept, Phase;
    ghost var v, moments := vol.v, vol.moments;
    var metadata := vol.StatFile(fd);
    PhaseIdle(c, v, moments, vol.v, vol.mine, done);
    if metadata.Failure? {
      return Some(Os(metadata.error));
    }
    e := if metadata.value.0 == size && metadata.value.1 then None else Some(Secure(CHANGED));
  }

  method ReadSome(vol: Volume, fd: Fd, count: nat, offset: nat, ghost c: Call, ghost done: bool)
    returns (r: Result<string, Errno>)
    requires Owns(c, vol, fd, done) && count > 0
    modifies vol
    ensures Owns(c, vol, fd, done) && SameDescriptors(vol) && DataOf(vol, c) == old(DataOf(vol, c))
    ensures r.Success? ==>
      var data := DataOf(vol, c);
      && |r.value| <= count && (r.value == "" <==> offset >= |data|)
      && (offset <= |data| ==> offset + |r.value| <= |data| && r.value == data[offset..offset + |r.value|])
  {
    hide Undisturbed, NeverTorn, Held, Kept, Phase;
    ghost var v, moments := vol.v, vol.moments;
    r := vol.Pread(fd, count, offset);
    PhaseIdle(c, v, moments, vol.v, vol.mine, done);
  }

  /** The write loop. */
  method WriteAll(vol: Volume, fd: Fd, content: string, ghost c: Call) returns (e: Option<Raised>)
    requires Owns(c, vol, fd, false) && DataOf(vol, c) == ""
    modifies vol
    ensures Owns(c, vol, fd, false) && SameDescriptors(vol)
    ensures (e.None? ==> DataOf(vol, c) == content) && BeforeCommit(e)
  {
    hide Owns, DataOf;
    var offset := 0;
    while offset < |content|
      invariant 0 <= offset <= |content| && Owns(c, vol, fd, false) && SameDescriptors(vol)
      invariant DataOf(vol, c) == content[..offset]
    {
      var written := WriteSome(vol, fd, content[offset..], c);
      if written.Failure? || written.value == 0 {
        return Some(Secure(WRITE_FAILED));
      }
      assert content[..offset] + content[offset..][..written.value] == content[..offset + written.value];
      offset := offset + written.value;
    }
    e := None;
  }

  /** `_descriptor_content_matches`: reads one byte more than expected, so equality is that of the whole file. */
  method ContentMatches(vol: Volume, fd: Fd, expected: string, ghost c: Call, ghost done: bool)
    returns (r: Result<bool, Raised>)
    requires Owns(c, vol, fd, done)
    modifies vol
    ensures Owns(c, vol, fd, done) && SameDescriptors(vol) && DataOf(vol, c) == old(DataOf(vol, c))
    ensures r.Success? ==> (r.value <==> DataOf(vol, c) == expected)
    ensures r.Failure? ==> BeforeCommit(Some(r.error))
  {
    hide Owns, DataOf;
    var read, remaining := "", |expected| + 1;
    ghost var data := DataOf(vol, c);
    while remaining > 0
      invariant remaining >= 0 && |read| + remaining == |expected| + 1 && |read| <= |data| && read == data[..|read|]
      invariant Owns(c, vol, fd, done) && SameDescriptors(vol) && DataOf(vol, c) == data
    {
      var chunk := ReadSome(vol, fd, remaining, |read|, c, done);
      if chunk.Failure? {
        return Failure(Secure(UNREADABLE));
      }
      if chunk.value == "" {
        assert data[..|data|] == data;
        break;
      }
      assert data[..|read|] + data[|read|..|read| + |chunk.value|] == data[..|read| + |chunk.value|];
      read := read + chunk.value;
      remaining := remaining - |chunk.value|;
    }
    r := Success(read == expected);
  }

  // ---- descriptors of the directory chain -----------------------------------------------------------------------------------

  lemma BalancedStart(a: map<Fd, nat>)
    ensures Balanced(a, a, {})
  {
  }

  lemma BalancedOpen(a: map<Fd, nat>, b: map<Fd, nat>, pending: set<Fd>, fd: Fd)
    requires Balanced(a, b, pending) && fd !in b
    ensures Balanced(a, b[fd := 0], pending + {fd})
  {
  }

  lemma BalancedClose(a: map<Fd, nat>, b: map<Fd, nat>, pending: set<Fd>, fd: Fd)
    requires Balanced(a, b, pending) && fd in pending
    ensures fd in b && Balanced(a, b[fd := b[fd] + 1], pending - {fd})
  {
  }

  lemma BalancedTransitive(a: map<Fd, nat>, b: map<Fd, nat>, c: map<Fd, nat>, p: set<Fd>, q: set<Fd>)
    requires Balanced(a, b, p) && Balanced(b, c, q)
    ensures Balanced(a, c, p + q)
  {
  }

  lemma UndisturbedTransitive(a: View, b: View, c: View, mine: set<Inode>)
    requires Undisturbed(a, b, mine) && Undisturbed(b, c, mine)
    ensures Undisturbed(a, c, mine)
  {
  }

  /** What calls that only open, probe and close do: no more than other processes do meanwhile. */
  ghost predicate Quiet(a: View, m: seq<View>, b: View, n: seq<View>, mine: set<Inode>) {
    && Undisturbed(a, b, mine) && m <= n
    && forall k | |m| <= k < |n| :: Undisturbed(a, n[k], mine) && n[k].files.Keys <= b.files.Keys
  }

  lemma QuietStart(a: View, m: seq<View>, mine: set<Inode>)
    ensures Quiet(a, m, a, m, mine)
  {
  }

  lemma QuietStep(a: View, m: seq<View>, b: View, n: seq<View>, c: View, mine: set<Inode>)
    requires Quiet(a, m, b, n, mine) && Undisturbed(b, c, mine)
    ensures Quiet(a, m, c, n + [c], mine)
  {
    UndisturbedTransitive(a, b, c, mine);
    assert b.files.Keys <= c.files.Keys;
    hide Undisturbed;
  }

  lemma QuietPhase(c: Call, a: View, m: seq<View>, b: View, n: seq<View>, mine: set<Inode>, done: bool)
    requires Phase(c, a, m, done) && Quiet(a, m, b, n, mine) && c.inode in mine
    ensures Phase(c, b, n, done) && b.files[c.inode] == a.files[c.inode]
  {
    var name := if done then c.leaf else c.staged;
    UndisturbedKeeps(c.start, a, b, mine, c.inode, name);
    forall k | c.from <= k < |n|
      ensures n[k].files.Keys <= b.files.Keys && Kept(c.start, n[k]) && WholeOrStaged(n[k], c.leaf, {c.inode}, c.content)
    {
      if k < |m| { assert n[k] == m[k]; } else { UndisturbedKeeps(c.start, a, n[k], mine, c.inode, name); }
    }
  }

  /** `_open_directory_chain`: at most the last directory's descriptor stays open. */
  method OpenChain(vol: Volume, depth: nat) returns (r: Result<Fd, Raised>)
    requires vol.Valid()
    modifies vol
    ensures vol.Valid() && vol.mine == old(vol.mine) && vol.target == old(vol.target)
    ensures Quiet(old(vol.v), old(vol.moments), vol.v, vol.moments, vol.mine)
    ensures Balanced(old(vol.closes), vol.closes, if r.Success? then {r.value} else {})
    ensures r.Failure? ==> BeforeCommit(Some(r.error))
  {
    hide Undisturbed, Quiet, Balanced;
    ghost var v, m, closes := vol.v, vol.moments, vol.closes;
    BalancedStart(closes);
    QuietStart(v, m, vol.mine);
    if depth == 0 {
      return Failure(Secure(INVALID));
    }
    var root := OpenNext(vol, v, m, closes, {});
    if root.Failure? {
      return Failure(Os(root.error));
    }
    var current := root.value;
    assert {} + {current} == {current};
    for i := 1 to depth
      invariant Walks(vol, v, m, closes, {current}) && vol.mine == old(vol.mine) && vol.target == old(vol.target)
    {
      var next := OpenNext(vol, v, m, closes, {current});
      assert {current} - {current} == {};
      if next.Failure? {
        var closed := CloseOne(vol, current, v, m, closes, {current});
        return Failure(Os(next.error));
      }
      assert {current} + {next.value} == {current, next.value};
      assert {current, next.value} - {next.value} == {current} && {current, next.value} - {current} == {next.value};
      var notDirectory := ProbeOne(vol, v, m, closes, {current, next.value});
      if notDirectory.Some? {
        var closed := CloseOne(vol, next.value, v, m, closes, {current, next.value});
        closed := CloseOne(vol, current, v, m, closes, {current});
        return Failure(Os(notDirectory.value));
      }
      var closed := CloseOne(vol, current, v, m, closes, {current, next.value});
      current := next.value;
      if !closed {
        assert {current} - {current} == {};
        closed := CloseOne(vol, current, v, m, closes, {current});
        return Failure(Secure(UNREADABLE));
      }
    }
    r := Success(current);
  }

  /** A walk that has only opened, probed and closed; `pending` are its open descriptors. */
  ghost predicate Walks(vol: Volume, v: View, m: seq<View>, closes: map<Fd, nat>, pending: set<Fd>)
    reads vol
  {
    vol.Valid() && Quiet(v, m, vol.v, vol.moments, vol.mine) && Balanced(closes, vol.closes, pending)
  }

  method OpenNext(vol: Volume, ghost v: View, ghost m: seq<View>, ghost closes: map<Fd, nat>, ghost pending: set<Fd>)
    returns (r: Result<Fd, Errno>)
    requires Walks(vol, v, m, closes, pending)
    modifies vol
    ensures vol.mine == old(vol.mine) && vol.target == old(vol.target)
    ensures Walks(vol, v, m, closes, if r.Success? then pending + {r.value} else pending)
    ensures r.Success? ==> r.value !in pending
  {
    hide Undisturbed, Quiet, Balanced;
    ghost var a, n, b := vol.v, vol.moments, vol.closes;
    r := vol.OpenDirectory();
    QuietStep(v, m, a, n, vol.v, vol.mine);
    if r.Success? {
      PendingAreOpen(closes, b, pending);
      BalancedOpen(closes, b, pending, r.value);
    }
  }

  lemma PendingAreOpen(a: map<Fd, nat>, b: map<Fd, nat>, pending: set<Fd>)
    requires Balanced(a, b, pending)
    ensures pending <= b.Keys
  {
  }

  method ProbeOne(vol: Volume, ghost v: View, ghost m: seq<View>, ghost closes: map<Fd, nat>, ghost pending: set<Fd>)
    returns (error: Option<Errno>)
    requires Walks(vol, v, m, closes, pending)
    modifies vol
    ensures vol.mine == old(vol.mine) && vol.target == old(vol.target) && Walks(vol, v, m, closes, pending)
    ensures Undisturbed(old(vol.v), vol.v, vol.mine)
  {
    hide Undisturbed, Quiet, Balanced;
    ghost var a, n := vol.v, vol.moments;
    error := vol.Probe();
    QuietStep(v, m, a, n, vol.v, vol.mine);
  }

  method CloseOne(vol: Volume, fd: Fd, ghost v: View, ghost m: seq<View>, ghost closes: map<Fd, nat>, ghost pending: set<Fd>)
    returns (ok: bool)
    requires Walks(vol, v, m, closes, pending) && fd in pending
    modifies vol
    ensures vol.mine == old(vol.mine) && vol.target == old(vol.target) && Walks(vol, v, m, closes, pending - {fd})
  {
    hide Undisturbed, Quiet, Balanced;
    ghost var a, n, b := vol.v, vol.moments, vol.closes;
    PendingAreOpen(closes, b, pending);
    ok := vol.Close(fd);
    QuietStep(v, m, a, n, vol.v, vol.mine);
    BalancedClose(closes, b, pending, fd);
  }

  /** `inspect_regular_file_no_follow`: what the name is bound to now, with every descriptor closed again. */
  method InspectLeaf(vol: Volume, depth: nat, leaf: string) returns (r: Result<(Inode, nat), Raised>)
    requires vol.Valid()
    modifies vol
    ensures vol.Valid() && vol.mine == old(vol.mine)
    ensures forall fd <- old(vol.target).Keys :: fd in vol.target && vol.target[fd] == old(vol.target)[fd]
    ensures Quiet(old(vol.v), old(vol.moments), vol.v, vol.moments, vol.mine)
    ensures Balanced(old(vol.closes), vol.closes, {})
    ensures r.Success? && leaf in old(vol.v).dir ==> r.value.0 == old(vol.v).dir[leaf]
  {
    hide Undisturbed, Quiet, Balanced;
    ghost var v, m, closes := vol.v, vol.moments, vol.closes;
    var chain := OpenChain(vol, depth);
    if chain.Failure? {
      return Failure(chain.error);
    }
    var dirfd := chain.value;
    assert {dirfd} - {dirfd} == {};
    var bad := ProbeOne(vol, v, m, closes, {dirfd});
    if bad.Some? {
      var closed := CloseOne(vol, dirfd, v, m, closes, {dirfd});
      return Failure(Os(bad.value));
    }
    var named := OpenNamed(vol, leaf, v, m, closes, {dirfd});
    if named.Failure? {
      var closed := CloseOne(vol, dirfd, v, m, closes, {dirfd});
      return Failure(Os(named.error));
    }
    var fd := named.value;
    assert {dirfd} + {fd} - {dirfd} == {fd} && {fd} - {fd} == {};
    var metadata := StatOne(vol, fd, v, m, closes, {dirfd} + {fd});
    ghost var inode := vol.target[fd];
    var closed := CloseOne(vol, dirfd, v, m, closes, {dirfd} + {fd});
    if metadata.Failure? || !closed {
      var leafClosed := CloseOne(vol, fd, v, m, closes, {fd});
      return Failure(if metadata.Failure? then metadata.error else Secure(UNREADABLE));
    }
    closed := CloseOne(vol, fd, v, m, closes, {fd});
    r := if closed then Success(metadata.value) else Failure(Secure(UNREADABLE));
  }

  method OpenNamed(
    vol: Volume, name: string, ghost v: View, ghost m: seq<View>, ghost closes: map<Fd, nat>, ghost pending: set<Fd>)
    returns (r: Result<Fd, Errno>)
    requires Walks(vol, v, m, closes, pending)
    modifies vol
    ensures vol.mine == old(vol.mine)
    ensures forall fd <- old(vol.target).Keys :: fd in vol.target && vol.target[fd] == old(vol.target)[fd]
    ensures Walks(vol, v, m, closes, if r.Success? then pending + {r.value} else pending)
    ensures r.Success? ==>
      && r.value !in pending && r.value in vol.target && (name in v.dir ==> vol.target[r.value] == v.dir[name])
      && name in vol.v.dir && vol.v.dir[name] == vol.target[r.value]
  {
    hide Quiet, Balanced;
    ghost var a, n, b := vol.v, vol.moments, vol.closes;
    r := vol.OpenLeaf(name);
    QuietStep(v, m, a, n, vol.v, vol.mine);
    if r.Success? {
      PendingAreOpen(closes, b, pending);
      BalancedOpen(closes, b, pending, r.value);
      QuietNames(v, m, vol.v, vol.moments, vol.mine);
    }
  }

  lemma QuietNames(a: View, m: seq<View>, b: View, n: seq<View>, mine: set<Inode>)
    requires Quiet(a, m, b, n, mine)
    ensures forall name <- a.dir.Keys :: name in b.dir && b.dir[name] == a.dir[name]
  {
  }

  /** `os.fstat` with the regular-file check: the inode and its size. */
  method StatOne(vol: Volume, fd: Fd, ghost v: View, ghost m: seq<View>, ghost closes: map<Fd, nat>, ghost pending: set<Fd>)
    returns (r: Result<(Inode, nat), Raised>)
    requires Walks(vol, v, m, closes, pending) && fd in vol.target
    modifies vol
    ensures vol.mine == old(vol.mine) && vol.target == old(vol.target) && Walks(vol, v, m, closes, pending)
    ensures Undisturbed(old(vol.v), vol.v, vol.mine) && (r.Success? ==> r.value.0 == vol.target[fd])
  {
    hide Undisturbed, Quiet, Balanced;
    ghost var a, n := vol.v, vol.moments;
    var metadata := vol.StatFile(fd);
    QuietStep(v, m, a, n, vol.v, vol.mine);
    if metadata.Failure? {
      return Failure(Os(metadata.error));
    }
    r := if metadata.value.1 then Success((vol.target[fd], metadata.value.0)) else Failure(Secure(NOT_REGULAR));
  }

  // ---- staging and publishing ----------------------------------------------------------------------------------------------------

  /** Nothing of this call exists yet. */
  ghost predicate Begun(c: Call, v: View, moments: seq<View>) {
    && Kept(c.start, v) && c.from <= |moments|
    && forall k | c.from <= k < |moments| :: moments[k].files.Keys <= v.files.Keys && Kept(c.start, moments[k])
  }

  lemma QuietBegun(c: Call, a: View, m: seq<View>, b: View, n: seq<View>, mine: set<Inode>)
    requires Begun(c, a, m) && Quiet(a, m, b, n, mine)
    ensures Begun(c, b, n)
  {
    assert a.files.Keys <= b.files.Keys;
    forall k | c.from <= k < |n| ensures n[k].files.Keys <= b.files.Keys && Kept(c.start, n[k]) {
      if k < |m| { assert n[k] == m[k]; }
    }
  }

  /** A staging name: the prefix and a random token, which may fail to come, or be none. */
  method StagingName() returns (name: Option<string>)
    ensures name.Some? ==> IsStagingName(name.value)
  {
    var token: string := *;
    var failed: bool := *;
    if failed || !IsToken(token) {
      return None;
    }
    assert (STAGED_FILE_PREFIX + token)[|STAGED_FILE_PREFIX|..] == token;
    name := Some(STAGED_FILE_PREFIX + token);
  }

  /** The token made the final name itself the staged one, which was then seen bound to an empty file. */
  ghost predicate Clashes(c: Call, leaf: string) {
    && c.staged == leaf && c.from < |c.past|
    && var w := c.past[|c.past| - 1]; leaf in w.dir && w.dir[leaf] == c.inode && c.inode in w.files && w.files[c.inode] == ""
  }

  /** The call as it stands once it has staged under `name`. If that is the final name, it publishes nothing under any
      other. */
  function Staged(c: Call, i: Inode, name: string, moments: seq<View>): Call {
    c.(inode := i, staged := name, leaf := if name == c.leaf then c.leaf + "/" else c.leaf, past := moments)
  }

  method CreateStaged(vol: Volume, name: string, ghost c0: Call) returns (r: Result<Fd, Errno>, ghost c: Call)
    requires vol.Valid() && Begun(c0, vol.v, vol.moments) && IsStagingName(name)
    modifies vol
    ensures vol.Valid()
    ensures match r
      case Success(fd) =>
        && c == Staged(c0, c.inode, name, c.past) && (name == c0.leaf ==> Clashes(c, name))
        && Owns(c, vol, fd, false) && DataOf(vol, c) == ""
        && vol.mine == old(vol.mine) + {c.inode} && fd !in old(vol.closes) && vol.closes == old(vol.closes)[fd := 0]
      case Failure(_) =>
        && c == c0 && Begun(c0, vol.v, vol.moments) && vol.closes == old(vol.closes) && vol.mine == old(vol.mine)
  {
    c := c0;
    ghost var v, m, mine := vol.v, vol.moments, vol.mine;
    r := vol.CreateExclusive(name);
    if r.Success? {
      c := Staged(c0, vol.target[r.value], name, vol.moments);
      BegunOtherwise(c0, c, v, m);
      StagingBegins(c, v, m, vol.v, mine);
    } else {
      QuietStart(v, m, mine);
      QuietStep(v, m, v, m, vol.v, mine);
      QuietBegun(c, v, m, vol.v, vol.moments, mine);
    }
  }

  /** Nothing of the call exists yet, so it may still publish anything. */
  lemma BegunOtherwise(c: Call, d: Call, v: View, m: seq<View>)
    requires Begun(c, v, m) && d.start == c.start && d.from == c.from
    ensures Begun(d, v, m)
  {
  }

  lemma StagingBegins(c: Call, v: View, m: seq<View>, w: View, mine: set<Inode>)
    requires Begun(c, v, m) && c.inode !in v.files && c.staged !in v.dir && c.staged != c.leaf && IsStagingName(c.staged)
    requires c.past == m + [w]
    requires forall n <- v.dir.Keys :: v.dir[n] in v.files
    requires c.staged in w.dir && w.dir[c.staged] == c.inode && c.inode in w.files
    requires Undisturbed(v, View(w.dir - {c.staged}, w.files - {c.inode}), mine)
    requires forall n <- w.dir.Keys :: n != c.staged ==> w.dir[n] != c.inode
    ensures Staging(c, w, m + [w])
  {
  }

  /** Everything up to the moment of publication; the descriptor is handed over whatever happens. */
  method Stage(vol: Volume, leaf: string, content: string, private: bool, ghost c0: Call)
    returns (failure: Option<Raised>, descriptor: Option<Fd>, staged: string, ghost c: Call)
    requires vol.Valid() && Begun(c0, vol.v, vol.moments) && c0.leaf == leaf
    modifies vol
    ensures vol.Valid() && BeforeCommit(failure)
    ensures match descriptor
      case None => failure.Some? && c == c0 && Begun(c0, vol.v, vol.moments) && vol.closes == old(vol.closes) && vol.mine == old(vol.mine)
      case Some(fd) =>
        && c == Staged(c0, c.inode, staged, c.past) && (staged == leaf ==> Clashes(c, leaf))
        && Owns(c, vol, fd, false) && vol.mine == old(vol.mine) + {c.inode}
        && fd !in old(vol.closes) && vol.closes == old(vol.closes)[fd := 0]
        && (failure.None? ==> DataOf(vol, c) == content)
  {
    hide Begun, Owns, DataOf;
    descriptor, staged, c := None, "", c0;
    for attempt := 0 to STAGED_FILE_ATTEMPTS
      invariant vol.Valid() && Begun(c0, vol.v, vol.moments) && vol.closes == old(vol.closes) && vol.mine == old(vol.mine)
    {
      var name := StagingName();
      if name.None? {
        return Some(Secure(WRITE_FAILED)), None, "", c0;
      }
      var created;
      created, c := CreateStaged(vol, name.value, c0);
      if created.Success? {
        failure := FillStaged(vol, created.value, content, private, c);
        OwnerIsValid(c, vol, created.value, false);
        return failure, Some(created.value), name.value, c;
      }
      if created.error != EEXIST {
        return Some(Os(created.error)), None, "", c0;
      }
    }
    failure := Some(Secure(WRITE_FAILED));
    c := c0;
  }

  lemma OwnerIsValid(c: Call, vol: Volume, fd: Fd, done: bool)
    requires Owns(c, vol, fd, done)
    ensures vol.Valid() && c.inode in vol.mine && fd in vol.target
  {
  }

  method FillStaged(vol: Volume, fd: Fd, content: string, private: bool, ghost c: Call) returns (failure: Option<Raised>)
    requires Owns(c, vol, fd, false) && DataOf(vol, c) == ""
    modifies vol
    ensures Owns(c, vol, fd, false) && SameDescriptors(vol) && BeforeCommit(failure)
    ensures failure.None? ==> DataOf(vol, c) == content
  {
    hide Owns, DataOf;
    var error := ProbeOwned(vol, fd, c, false);
    if error.Some? {
      return Some(Os(error.value));
    }
    error := ProbeOwned(vol, fd, c, false);
    if error.Some? {
      return Some(Secure(PERMISSION_FAILED));
    }
    if private {
      error := ProbeOwned(vol, fd, c, false);
      if error.Some? {
        return Some(Secure(ACCESS_CONTROL_UNSAFE));
      }
    }
    failure := WriteAll(vol, fd, content, c);
    if failure.Some? {
      return;
    }
    error := ProbeOwned(vol, fd, c, false);
    if error.Some? {
      return Some(Secure(SYNC_FAILED));
    }
    failure := CheckMetadata(vol, fd, |content|, c, false);
    if failure.Some? {
      return;
    }
    var matches := ContentMatches(vol, fd, content, c, false);
    if matches.Failure? {
      return Some(matches.error);
    }
    if !matches.value {
      return Some(Secure(CHANGED));
    }
    if private {
      error := ProbeOwned(vol, fd, c, false);
      if error.Some? {
        return Some(Secure(ACCESS_CONTROL_UNSAFE));
      }
    }
    error := ProbeOwned(vol, fd, c, false);
    failure := if error.Some? then Some(Secure(BEFORE_PUBLISH)) else None;
  }

  /** Publication and its verification. */
  method Publish(vol: Volume, depth: nat, fd: Fd, staged: string, leaf: string, content: string, ghost c: Call)
    returns (failure: Option<Raised>, published: bool, uncertain: bool, inode: Option<Inode>)
    requires Owns(c, vol, fd, false) && DataOf(vol, c) == content == c.content && staged == c.staged
    requires leaf == c.leaf || leaf == c.staged
    modifies vol
    ensures vol.mine == old(vol.mine) && Balanced(old(vol.closes), vol.closes, {})
    ensures published ==> !uncertain && Owns(c, vol, fd, true) && leaf == c.leaf
    ensures uncertain ==> failure == Some(Secure(COMMIT_UNCERTAIN)) && (Owns(c, vol, fd, true) || Owns(c, vol, fd, false))
    ensures !published && !uncertain ==> failure.Some? && Owns(c, vol, fd, false) && BeforeCommit(failure)
    ensures failure.None? ==> published && inode == Some(c.inode)
    ensures DataOf(vol, c) == content
  {
    hide Balanced, Phase;
    ghost var v, m := vol.v, vol.moments;
    BalancedStart(vol.closes);
    var renamed := vol.RenameNoReplace(staged, leaf);
    if leaf == c.leaf { RenameOutcome(c, v, m, vol.v, vol.mine, renamed); } else { RenameFails(c, v, m, vol.v, vol.mine, renamed); }
    if renamed.Some? {
      return Some(Secure(renamed.value)), false, renamed.value == COMMIT_UNCERTAIN, None;
    }
    failure, inode := VerifyPublished(vol, depth, fd, leaf, content, c);
    published, uncertain := true, false;
  }

  lemma RenameOutcome(c: Call, v: View, m: seq<View>, w: View, mine: set<Inode>, r: Option<Kind>)
    requires Phase(c, v, m, false) && v.files[c.inode] == c.content && c.inode in mine
    requires r.None? ==> Renamed(v, w, mine, c.staged, c.leaf)
    requires r == Some(COMMIT_UNCERTAIN) ==> Renamed(v, w, mine, c.staged, c.leaf) || Undisturbed(v, w, mine)
    requires r.Some? && r.value != COMMIT_UNCERTAIN ==> Undisturbed(v, w, mine)
    ensures r.None? ==> Phase(c, w, m + [w], true)
    ensures r == Some(COMMIT_UNCERTAIN) ==> Phase(c, w, m + [w], true) || Phase(c, w, m + [w], false)
    ensures r.Some? && r.value != COMMIT_UNCERTAIN ==> Phase(c, w, m + [w], false)
    ensures c.inode in w.files && w.files[c.inode] == c.content
  {
    hide NeverTorn, Undisturbed, Renamed, Kept, Held;
    if Undisturbed(v, w, mine) { PhaseIdle(c, v, m, w, mine, false); }
    if Renamed(v, w, mine, c.staged, c.leaf) { StagingRenamed(c, v, m, w, mine); }
    PhaseHasFile(c, w, m + [w]);
  }

  /** A name cannot be renamed to itself: it is not free. */
  lemma RenameFails(c: Call, v: View, m: seq<View>, w: View, mine: set<Inode>, r: Option<Kind>)
    requires Phase(c, v, m, false) && v.files[c.inode] == c.content && c.inode in mine
    requires r.None? ==> Renamed(v, w, mine, c.staged, c.staged)
    requires r == Some(COMMIT_UNCERTAIN) ==> Renamed(v, w, mine, c.staged, c.staged) || Undisturbed(v, w, mine)
    requires r.Some? && r.value != COMMIT_UNCERTAIN ==> Undisturbed(v, w, mine)
    ensures r.Some? && Phase(c, w, m + [w], false) && c.inode in w.files && w.files[c.inode] == c.content
  {
    hide NeverTorn, Undisturbed, Kept, Held;
    PhaseIdle(c, v, m, w, mine, false);
    PhaseHasFile(c, w, m + [w]);
  }

  lemma PhaseHasFile(c: Call, w: View, m: seq<View>)
    ensures Phase(c, w, m, true) || Phase(c, w, m, false) ==> c.inode in w.files
  {
  }

  /** The parent is synced, and the final name, the descriptor and the bytes are compared once more. */
  method VerifyPublished(vol: Volume, depth: nat, fd: Fd, leaf: string, content: string, ghost c: Call)
    returns (failure: Option<Raised>, inode: Option<Inode>)
    requires Owns(c, vol, fd, true) && leaf == c.leaf
    modifies vol
    ensures Owns(c, vol, fd, true) && vol.mine == old(vol.mine) && Balanced(old(vol.closes), vol.closes, {})
    ensures DataOf(vol, c) == old(DataOf(vol, c))
    ensures failure.None? ==> inode == Some(c.inode)
  {
    hide Balanced, Phase;
    inode := None;
    BalancedStart(vol.closes);
    var error := ProbeOwned(vol, fd, c, true);
    if error.Some? {
      return Some(Secure(COMMIT_UNCERTAIN)), None;
    }
    failure := CheckMetadata(vol, fd, |content|, c, true);
    if failure.Some? {
      return;
    }
    ghost var v, m := vol.v, vol.moments;
    PublishedName(c, v, m);
    var current := InspectLeaf(vol, depth, leaf);
    QuietPhase(c, v, m, vol.v, vol.moments, vol.mine, true);
    if current.Failure? || current.value.0 != vol.target[fd] || current.value.1 != |content| {
      return Some(Secure(COMMIT_UNCERTAIN)), None;
    }
    var matches := ContentMatches(vol, fd, content, c, true);
    if matches.Failure? || !matches.value {
      return Some(Secure(COMMIT_UNCERTAIN)), None;
    }
    failure := CheckMetadata(vol, fd, |content|, c, true);
    if failure.None? {
      inode := Some(current.value.0);
    }
  }

  lemma PublishedName(c: Call, v: View, m: seq<View>)
    requires Phase(c, v, m, true)
    ensures c.leaf in v.dir && v.dir[c.leaf] == c.inode
  {
  }

  // ---- the whole call --------------------------------------------------------------------------------------------------------

  /** How a raw failure surfaces; once publication has happened or may have, only as uncertain. */
  function Surfaced(e: Raised, committed: bool): Kind {
    if committed then COMMIT_UNCERTAIN
    else match e
      case Secure(kind) => kind
      case Os(ENOENT) => NOT_FOUND
      case Os(ELOOP) => NOT_REGULAR
      case Os(_) => UNREADABLE
  }

  /** `_sanitize_staged_descriptor`. */
  method Sanitize(vol: Volume, fd: Fd, ghost c: Call) returns (ok: bool)
    requires Owns(c, vol, fd, false)
    modifies vol
    ensures Owns(c, vol, fd, false) && SameDescriptors(vol) && (ok ==> DataOf(vol, c) == "")
  {
    hide Undisturbed, Wrote, NeverTorn, Held, Kept, Staging;
    ghost var v, moments := vol.v, vol.moments;
    var error := vol.Empty(fd);
    if error.Some? {
      StagingIdle(c, v, moments, vol.v, vol.mine);
      return false;
    }
    StagingWrote(c, v, moments, vol.v, vol.mine, "");
    error := ProbeOwned(vol, fd, c, false);
    ok := error.None?;
  }

  method CloseOwned(vol: Volume, fd: Fd, ghost c: Call, ghost done: bool, ghost closes: map<Fd, nat>, ghost pending: set<Fd>)
    returns (ok: bool)
    requires Owns(c, vol, fd, done) && Balanced(closes, vol.closes, pending) && fd in pending
    modifies vol
    ensures Owns(c, vol, fd, done) && vol.mine == old(vol.mine) && DataOf(vol, c) == old(DataOf(vol, c))
    ensures Balanced(closes, vol.closes, pending - {fd})
  {
    hide Undisturbed, Phase, Balanced;
    ghost var v, m, b := vol.v, vol.moments, vol.closes;
    PendingAreOpen(closes, b, pending);
    ok := vol.Close(fd);
    PhaseIdle(c, v, m, vol.v, vol.mine, done);
    BalancedClose(closes, b, pending, fd);
  }

  /** What the call leaves behind, whichever way it ends. */
  ghost predicate Leaves(a: View, v: View, leaf: string, content: string, made: set<Inode>, r: Result<Inode, Kind>) {
    && Kept(a, v) && made !! a.files.Keys && made <= v.files.Keys && WholeOrStaged(v, leaf, made, content)
    && match r
       case Success(i) => i in made && leaf in v.dir && v.dir[leaf] == i && v.files[i] == content
       case Failure(COMMIT_UNCERTAIN) => forall i <- made :: v.files[i] == content
       case Failure(kind) =>
         && (leaf in v.dir ==> v.dir[leaf] !in made)
         && (kind != CLEANUP_FAILED ==> forall i <- made :: v.files[i] == "")
  }

  /** The flags of a call that has stopped, and what they say about its staged file. */
  datatype Progress = Progress(
    failure: Option<Raised>, descriptor: Option<Fd>, published: bool, uncertain: bool, inode: Option<Inode>)

  ghost predicate Stopped(p: Progress, c: Call, vol: Volume)
    reads vol
  {
    && vol.Valid()
    && match p.descriptor
       case None =>
         Begun(c, vol.v, vol.moments) && p.failure.Some? && BeforeCommit(p.failure) && !p.published && !p.uncertain
       case Some(fd) =>
         && (Owns(c, vol, fd, false) || Owns(c, vol, fd, true))
         && (p.failure.None? ==> p.published && p.inode == Some(c.inode))
         && if p.published then Owns(c, vol, fd, true) && DataOf(vol, c) == c.content
            else if p.uncertain then p.failure.Some? && DataOf(vol, c) == c.content
            else Owns(c, vol, fd, false) && p.failure.Some? && BeforeCommit(p.failure)
  }

  /** The body of the call, once the parent directory is open. */
  method Attempt(vol: Volume, depth: nat, leaf: string, content: string, private: bool, ghost c0: Call)
    returns (p: Progress, ghost c: Call)
    requires vol.Valid() && Begun(c0, vol.v, vol.moments) && c0.leaf == leaf && c0.content == content
    modifies vol
    ensures Stopped(p, c, vol) && c.start == c0.start && c.from == c0.from && c.content == content
    ensures if p.descriptor.Some? && c.staged == leaf then Clashes(c, leaf) && !p.published else c.leaf == leaf
    ensures vol.mine == old(vol.mine) + (if p.descriptor.Some? then {c.inode} else {})
    ensures p.descriptor.Some? ==> p.descriptor.value !in old(vol.closes)
    ensures Balanced(old(vol.closes), vol.closes, if p.descriptor.Some? then {p.descriptor.value} else {})
  {
    hide Begun, Phase, Balanced, DataOf;
    c := c0;
    ghost var closes := vol.closes;
    BalancedStart(closes);
    var failure := CheckParent(vol, leaf, private, c0);
    if failure.Some? {
      return Progress(failure, None, false, false, None), c0;
    }
    var descriptor, staged;
    failure, descriptor, staged, c := Stage(vol, leaf, content, private, c0);
    if descriptor.None? {
      return Progress(failure, None, false, false, None), c;
    }
    var fd := descriptor.value;
    BalancedOpen(closes, closes, {}, fd);
    assert {} + {fd} == {fd};
    if failure.Some? {
      return Progress(failure, descriptor, false, false, None), c;
    }
    ghost var before := vol.closes;
    var published, uncertain, inode;
    failure, published, uncertain, inode := Publish(vol, depth, fd, staged, leaf, content, c);
    BalancedTransitive(closes, before, vol.closes, {fd}, {});
    assert {fd} + {} == {fd};
    p := Progress(failure, descriptor, published, uncertain, inode);
  }

  /** The parent's own checks, and the early test that the name is free. */
  method CheckParent(vol: Volume, leaf: string, private: bool, ghost c: Call) returns (failure: Option<Raised>)
    requires vol.Valid() && Begun(c, vol.v, vol.moments)
    modifies vol
    ensures vol.Valid() && Begun(c, vol.v, vol.moments) && SameDescriptors(vol) && BeforeCommit(failure)
  {
    hide Begun;
    var error := ProbeBegun(vol, c);
    if error.Some? {
      return Some(Os(error.value));
    }
    if private {
      error := ProbeBegun(vol, c);
      if error.Some? {
        return Some(Secure(PARENT_UNSAFE));
      }
    }
    ghost var v, m := vol.v, vol.moments;
    var taken := vol.StatName(leaf);
    QuietStart(v, m, vol.mine);
    QuietStep(v, m, v, m, vol.v, vol.mine);
    QuietBegun(c, v, m, vol.v, vol.moments, vol.mine);
    if taken.Failure? {
      return Some(Os(taken.error));
    }
    failure := if taken.value then Some(Secure(ALREADY_EXISTS)) else None;
  }

  method ProbeBegun(vol: Volume, ghost c: Call) returns (error: Option<Errno>)
    requires vol.Valid() && Begun(c, vol.v, vol.moments)
    modifies vol
    ensures vol.Valid() && Begun(c, vol.v, vol.moments) && SameDescriptors(vol)
  {
    hide Begun;
    ghost var v, m := vol.v, vol.moments;
    error := vol.Probe();
    QuietStart(v, m, vol.mine);
    QuietStep(v, m, v, m, vol.v, vol.mine);
    QuietBegun(c, v, m, vol.v, vol.moments, vol.mine);
  }

  /** The cleanup of the staged file: emptied unless it is or may be published, and closed once. */
  method Release(vol: Volume, p: Progress, ghost c: Call, ghost closes: map<Fd, nat>, ghost pending: set<Fd>)
    returns (failure: Option<Kind>, ghost done: bool)
    requires p.descriptor.Some? && Stopped(p, c, vol) && Balanced(closes, vol.closes, pending) && p.descriptor.value in pending
    modifies vol
    ensures Owns(c, vol, p.descriptor.value, done) && vol.mine == old(vol.mine)
    ensures Balanced(closes, vol.closes, pending - {p.descriptor.value})
    ensures failure.None? ==> p.published && p.inode == Some(c.inode)
    ensures p.published ==> done
    ensures if p.published || p.uncertain
      then DataOf(vol, c) == c.content && (failure.None? || failure == Some(COMMIT_UNCERTAIN))
      else !done && failure.Some? && failure != Some(COMMIT_UNCERTAIN) && (failure != Some(CLEANUP_FAILED) ==> DataOf(vol, c) == "")
  {
    hide Phase, Balanced, DataOf;
    var fd := p.descriptor.value;
    var committed := p.published || p.uncertain;
    done := Owns(c, vol, fd, true) && committed;
    failure := if p.failure.Some? then Some(Surfaced(p.failure.value, committed)) else None;
    if !committed {
      var clean := Sanitize(vol, fd, c);
      if !clean {
        failure := Some(CLEANUP_FAILED);
      }
    }
    var closed := CloseOwned(vol, fd, c, done, closes, pending);
    if !closed {
      failure := Some(if committed then COMMIT_UNCERTAIN else CLEANUP_FAILED);
    }
  }

  /** At some moment since `from` the final name was bound to a file of this call that did not hold the content. */
  ghost predicate ShownEmpty(moments: seq<View>, from: nat, leaf: string, made: set<Inode>, content: string) {
    exists k | from <= k < |moments| ::
      leaf in moments[k].dir && moments[k].dir[leaf] in made && moments[k].dir[leaf] in moments[k].files
      && moments[k].files[moments[k].dir[leaf]] == "" != content
  }

  /** A torn moment is just what the guarantee excludes. */
  lemma ShownEmptyIsTorn(start: View, moments: seq<View>, from: nat, v: View, leaf: string, made: set<Inode>, content: string)
    requires ShownEmpty(moments, from, leaf, made, content) && !IsStagingName(leaf)
    ensures !NeverTorn(start, moments, from, v, leaf, made, content)
  {
    hide Kept;
    var k :| from <= k < |moments| && leaf in moments[k].dir && moments[k].dir[leaf] in made
      && moments[k].dir[leaf] in moments[k].files && moments[k].files[moments[k].dir[leaf]] == "" != content;
    assert !WholeOrStaged(moments[k], leaf, made, content);
  }

  /** `create_regular_file_no_follow`: the final name shows the whole content or nothing of it, at every moment, exactly
      when the random token did not make it the staged name; every descriptor gets exactly one close attempt; and the
      error says which case it is. */
  method CreateRegularFile(vol: Volume, depth: nat, leaf: string, content: string, private: bool)
    returns (r: Result<Inode, Kind>, ghost made: set<Inode>, ghost staged: Option<string>)
    requires vol.Valid()
    modifies vol
    ensures vol.Valid() && vol.mine == old(vol.mine) + made && Balanced(old(vol.closes), vol.closes, {})
    ensures staged.Some? ==> IsStagingName(staged.value)
    ensures staged != Some(leaf) ==> Leaves(old(vol.v), vol.v, leaf, content, made, r)
    ensures staged != Some(leaf) ==> NeverTorn(old(vol.v), vol.moments, old(|vol.moments|), vol.v, leaf, made, content)
    ensures staged == Some(leaf) ==> r.Failure? && ShownEmpty(vol.moments, old(|vol.moments|), leaf, made, content)
  {
    hide Balanced, Phase, Begun, Owns, NeverTorn, Leaves, Quiet, ShownEmpty, Clashes;
    made, staged := {}, None;
    ghost var v, m, closes := vol.v, vol.moments, vol.closes;
    ghost var c0 := Call(v, |m|, leaf, content, 0, "", []);
    BalancedStart(closes);
    CallBegins(c0, v, m);
    NothingMade(c0, v, m, INVALID);
    if content == "" {
      return Failure(INVALID), {}, None;
    }
    var chain := OpenChain(vol, depth);
    QuietBegun(c0, v, m, vol.v, vol.moments, vol.mine);
    if chain.Failure? {
      NothingMade(c0, vol.v, vol.moments, Surfaced(chain.error, false));
      return Failure(Surfaced(chain.error, false)), {}, None;
    }
    var dirfd := chain.value;
    ghost var walked := vol.closes;
    var p, c := Attempt(vol, depth, leaf, content, private, c0);
    staged := if p.descriptor.Some? then Some(c.staged) else None;
    if p.descriptor.Some? { StagedUnderToken(p, c, vol); }
    r, made := Finish(vol, p, dirfd, c, closes, walked);
    if staged == Some(leaf) { ClashShows(c, vol.moments, leaf); }
  }

  lemma StagedUnderToken(p: Progress, c: Call, vol: Volume)
    requires Stopped(p, c, vol) && p.descriptor.Some?
    ensures IsStagingName(c.staged)
  {
    hide NeverTorn;
  }

  lemma ClashShows(c: Call, moments: seq<View>, leaf: string)
    requires Clashes(c, leaf) && c.past <= moments && c.content != ""
    ensures ShownEmpty(moments, c.from, leaf, {c.inode}, c.content)
  {
    var k := |c.past| - 1;
    assert moments[k] == c.past[k];
  }

  lemma CallBegins(c: Call, v: View, m: seq<View>)
    requires c.start == v && c.from == |m|
    ensures Begun(c, v, m)
  {
  }

  lemma NothingMade(c: Call, v: View, m: seq<View>, kind: Kind)
    requires Begun(c, v, m) && kind != COMMIT_UNCERTAIN
    ensures Leaves(c.start, v, c.leaf, c.content, {}, Failure(kind)) && NeverTorn(c.start, m, c.from, v, c.leaf, {}, c.content)
  {
  }

  /** The cleanup, then the parent's descriptor, then the verdict. */
  method Finish(vol: Volume, p: Progress, dirfd: Fd, ghost c: Call, ghost closes: map<Fd, nat>, ghost walked: map<Fd, nat>)
    returns (r: Result<Inode, Kind>, ghost made: set<Inode>)
    requires Stopped(p, c, vol)
    requires Balanced(closes, walked, {dirfd})
    requires p.descriptor.Some? ==> p.descriptor.value !in walked
    requires Balanced(walked, vol.closes, if p.descriptor.Some? then {p.descriptor.value} else {})
    modifies vol
    ensures made == (if p.descriptor.Some? then {c.inode} else {})
    ensures vol.Valid() && vol.mine == old(vol.mine) && Balanced(closes, vol.closes, {})
    ensures Leaves(c.start, vol.v, c.leaf, c.content, made, r) && NeverTorn(c.start, vol.moments, c.from, vol.v, c.leaf, made, c.content)
    ensures (r.Success? ==> p.published) && (p.descriptor.Some? ==> c.past <= vol.moments)
  {
    hide Balanced, Phase, Begun, Owns, NeverTorn, Leaves, DataOf;
    made := if p.descriptor.Some? then {c.inode} else {};
    PendingAreOpen(closes, walked, {dirfd});
    if p.descriptor.None? {
      var kind := Surfaced(p.failure.value, false);
      BalancedTransitive(closes, walked, vol.closes, {dirfd}, {});
      assert {dirfd} + {} == {dirfd};
      var closed := CloseBegun(vol, dirfd, c, closes);
      NothingMade(c, vol.v, vol.moments, kind);
      return Failure(kind), made;
    }
    var fd := p.descriptor.value;
    BalancedTransitive(closes, walked, vol.closes, {dirfd}, {fd});
    ghost var done: bool;
    var failure: Option<Kind>;
    failure, done := Release(vol, p, c, closes, {dirfd} + {fd});
    assert {dirfd} + {fd} - {fd} == {dirfd};
    var closed := CloseLast(vol, dirfd, fd, c, done, closes);
    if !closed && failure.None? {
      failure := Some(COMMIT_UNCERTAIN);
    }
    r := if failure.Some? then Failure(failure.value) else Success(p.inode.value);
    Verdict(c, vol, fd, done, p.published || p.uncertain, r);
  }

  method CloseBegun(vol: Volume, fd: Fd, ghost c: Call, ghost closes: map<Fd, nat>) returns (ok: bool)
    requires vol.Valid() && Begun(c, vol.v, vol.moments) && Balanced(closes, vol.closes, {fd})
    modifies vol
    ensures vol.Valid() && vol.mine == old(vol.mine) && Begun(c, vol.v, vol.moments) && Balanced(closes, vol.closes, {})
  {
    hide Begun, Balanced, Undisturbed;
    ghost var v, m, b := vol.v, vol.moments, vol.closes;
    PendingAreOpen(closes, b, {fd});
    ok := vol.Close(fd);
    QuietStart(v, m, vol.mine);
    QuietStep(v, m, v, m, vol.v, vol.mine);
    QuietBegun(c, v, m, vol.v, vol.moments, vol.mine);
    BalancedClose(closes, b, {fd}, fd);
    assert {fd} - {fd} == {};
  }

  method CloseLast(vol: Volume, dirfd: Fd, fd: Fd, ghost c: Call, ghost done: bool, ghost closes: map<Fd, nat>)
    returns (ok: bool)
    requires Owns(c, vol, fd, done) && Balanced(closes, vol.closes, {dirfd})
    modifies vol
    ensures Owns(c, vol, fd, done) && vol.mine == old(vol.mine) && DataOf(vol, c) == old(DataOf(vol, c))
    ensures Balanced(closes, vol.closes, {})
  {
    hide Undisturbed, Phase, Balanced;
    ghost var v, m, b := vol.v, vol.moments, vol.closes;
    PendingAreOpen(closes, b, {dirfd});
    ok := vol.Close(dirfd);
    PhaseIdle(c, v, m, vol.v, vol.mine, done);
    BalancedClose(closes, b, {dirfd}, dirfd);
    assert {dirfd} - {dirfd} == {};
  }

  lemma Verdict(c: Call, vol: Volume, fd: Fd, done: bool, committed: bool, r: Result<Inode, Kind>)
    requires Owns(c, vol, fd, done) && (r.Success? ==> done && r.value == c.inode)
    requires if committed then DataOf(vol, c) == c.content && (r.Success? || r == Failure(COMMIT_UNCERTAIN))
             else !done && r.Failure? && r.error != COMMIT_UNCERTAIN && (r.error != CLEANUP_FAILED ==> DataOf(vol, c) == "")
    ensures vol.Valid() && Leaves(c.start, vol.v, c.leaf, c.content, {c.inode}, r)
    ensures NeverTorn(c.start, vol.moments, c.from, vol.v, c.leaf, {c.inode}, c.content) && c.past <= vol.moments
  {
  }

  /** `sync_parent_directory_no_follow`. */
  method SyncParent(vol: Volume, depth: nat, private: bool) returns (ok: bool)
    requires vol.Valid()
    modifies vol
    ensures vol.Valid() && vol.mine == old(vol.mine)
    ensures Quiet(old(vol.v), old(vol.moments), vol.v, vol.moments, vol.mine)
    ensures Balanced(old(vol.closes), vol.closes, {})
  {
    hide Undisturbed, Quiet, Balanced;
    ghost var v, m, closes := vol.v, vol.moments, vol.closes;
    var chain := OpenChain(vol, depth);
    if chain.Failure? {
      return false;
    }
    var dirfd := chain.value;
    assert {dirfd} - {dirfd} == {};
    var error := ProbeOne(vol, v, m, closes, {dirfd});
    if error.None? && private {
      error := ProbeOne(vol, v, m, closes, {dirfd});
    }
    if error.None? {
      error := ProbeOne(vol, v, m, closes, {dirfd});
    }
    var closed := CloseOne(vol, dirfd, v, m, closes, {dirfd});
    ok := error.None? && closed;
  }

  // ---- removal ------------------------------------------------------------------------------------------------------------------

  /** Others ran, the name was unlinked while bound to the expected inode, and others ran again. */
  ghost predicate Removed(a: View, b: View, mine: set<Inode>, leaf: string, expected: Option<Inode>) {
    exists w, u :: Undisturbed(a, w, mine) && leaf in w.dir && (expected.Some? ==> w.dir[leaf] == expected.value)
      && u == w.(dir := w.dir - {leaf}) && Undisturbed(u, b, mine)
  }

  /** How a raw failure before the unlink surfaces. */
  function RemovalKind(e: Errno): Kind {
    match e
    case ENOENT => NOT_FOUND
    case ELOOP => NOT_REGULAR
    case _ => WRITE_FAILED
  }

  /** The checks before the unlink, from the opened leaf: a regular private file, and the expected one. */
  method CheckLeaf(vol: Volume, leaf: string, expected: Option<Inode>, fd: Fd,
    ghost v: View, ghost m: seq<View>, ghost closes: map<Fd, nat>, ghost pending: set<Fd>) returns (failure: Option<Kind>)
    requires Walks(vol, v, m, closes, pending) && fd in vol.target
    modifies vol
    ensures vol.mine == old(vol.mine) && vol.target == old(vol.target) && Walks(vol, v, m, closes, pending)
    ensures Undisturbed(old(vol.v), vol.v, vol.mine) && failure != Some(COMMIT_UNCERTAIN)
    ensures failure.None? && expected.Some? ==> vol.target[fd] == expected.value
  {
    hide Undisturbed, Quiet, Balanced;
    ghost var a := vol.v;
    var metadata := StatOne(vol, fd, v, m, closes, pending);
    if metadata.Failure? {
      return Some(if metadata.error.Os? then RemovalKind(metadata.error.errno) else NOT_REGULAR);
    }
    if expected.Some? && metadata.value.0 != expected.value {
      return Some(CHANGED);
    }
    ghost var b := vol.v;
    var acl := ProbeOne(vol, v, m, closes, pending);
    UndisturbedTransitive(a, b, vol.v, vol.mine);
    failure := if acl.Some? then Some(ACCESS_CONTROL_UNSAFE) else None;
  }

  /** `remove_regular_file_no_follow`: success and an uncertain commit both mean the validated name is gone; every other
      error means this call removed nothing. */
  method RemoveRegularFile(vol: Volume, depth: nat, leaf: string, expected: Option<Inode>) returns (r: Option<Kind>)
    requires vol.Valid()
    modifies vol
    ensures vol.Valid() && vol.mine == old(vol.mine) && Balanced(old(vol.closes), vol.closes, {})
    ensures if r.None? || r == Some(COMMIT_UNCERTAIN)
      then Removed(old(vol.v), vol.v, vol.mine, leaf, expected)
      else Undisturbed(old(vol.v), vol.v, vol.mine)
  {
    hide Undisturbed, Quiet, Balanced, Removed;
    ghost var v, m, closes := vol.v, vol.moments, vol.closes;
    var chain := OpenChain(vol, depth);
    QuietIsUndisturbed(v, m, vol.v, vol.moments, vol.mine);
    if chain.Failure? {
      return Some(Surfaced(chain.error, false));
    }
    var dirfd := chain.value;
    assert {dirfd} - {dirfd} == {};
    var parent := ProbeOne(vol, v, m, closes, {dirfd});
    if parent.Some? {
      var closed := CloseOne(vol, dirfd, v, m, closes, {dirfd});
      QuietIsUndisturbed(v, m, vol.v, vol.moments, vol.mine);
      return Some(PARENT_UNSAFE);
    }
    var named := OpenNamed(vol, leaf, v, m, closes, {dirfd});
    if named.Failure? {
      var closed := CloseOne(vol, dirfd, v, m, closes, {dirfd});
      QuietIsUndisturbed(v, m, vol.v, vol.moments, vol.mine);
      return Some(RemovalKind(named.error));
    }
    var fd := named.value;
    ghost var a := vol.v;
    var failure := CheckLeaf(vol, leaf, expected, fd, v, m, closes, {dirfd} + {fd});
    UndisturbedNames(a, vol.v, vol.mine);
    assert {dirfd} + {fd} - {fd} == {dirfd};
    if failure.Some? {
      var closed := CloseOne(vol, fd, v, m, closes, {dirfd} + {fd});
      closed := CloseOne(vol, dirfd, v, m, closes, {dirfd});
      QuietIsUndisturbed(v, m, vol.v, vol.moments, vol.mine);
      return failure;
    }
    r := UnlinkChecked(vol, leaf, expected, dirfd, fd, v, m, closes);
  }

  lemma UndisturbedNames(a: View, b: View, mine: set<Inode>)
    requires Undisturbed(a, b, mine)
    ensures forall n <- a.dir.Keys :: n in b.dir && b.dir[n] == a.dir[n]
  {
  }

  /** The unlink, the parent's sync, and both closes. */
  method UnlinkChecked(vol: Volume, leaf: string, expected: Option<Inode>, dirfd: Fd, fd: Fd,
    ghost v: View, ghost m: seq<View>, ghost closes: map<Fd, nat>) returns (r: Option<Kind>)
    requires Walks(vol, v, m, closes, {dirfd} + {fd}) && fd != dirfd
    requires leaf in vol.v.dir && (expected.Some? ==> vol.v.dir[leaf] == expected.value)
    modifies vol
    ensures vol.Valid() && vol.mine == old(vol.mine) && Balanced(closes, vol.closes, {})
    ensures if r.None? || r == Some(COMMIT_UNCERTAIN)
      then Removed(v, vol.v, vol.mine, leaf, expected)
      else Undisturbed(v, vol.v, vol.mine)
  {
    hide Undisturbed, Quiet, Balanced, Removed;
    ghost var a, n := vol.v, vol.moments;
    assert {dirfd} + {fd} - {fd} == {dirfd} && {dirfd} - {dirfd} == {};
    var error := vol.Unlink(leaf);
    ghost var b, o := vol.v, vol.moments;
    if error.Some? {
      QuietStep(v, m, a, n, b, vol.mine);
      var closed := CloseOne(vol, fd, v, m, closes, {dirfd} + {fd});
      closed := CloseOne(vol, dirfd, v, m, closes, {dirfd});
      QuietIsUndisturbed(v, m, vol.v, vol.moments, vol.mine);
      return Some(RemovalKind(error.value));
    }
    QuietStart(b, o, vol.mine);
    var unsynced := ProbeOne(vol, b, o, closes, {dirfd} + {fd});
    var leafClosed := CloseOne(vol, fd, b, o, closes, {dirfd} + {fd});
    var parentClosed := CloseOne(vol, dirfd, b, o, closes, {dirfd});
    QuietIsUndisturbed(v, m, a, n, vol.mine);
    QuietIsUndisturbed(b, o, vol.v, vol.moments, vol.mine);
    UnlinkedIsRemoved(v, a, b, vol.v, vol.mine, leaf, expected);
    r := if unsynced.None? && leafClosed && parentClosed then None else Some(COMMIT_UNCERTAIN);
  }

  lemma UnlinkedIsRemoved(v: View, a: View, b: View, c: View, mine: set<Inode>, leaf: string, expected: Option<Inode>)
    requires Undisturbed(v, a, mine) && Unlinked(a, b, mine, leaf) && Undisturbed(b, c, mine)
    requires leaf in a.dir && (expected.Some? ==> a.dir[leaf] == expected.value)
    ensures Removed(v, c, mine, leaf, expected)
  {
    var w :| Undisturbed(a, w, mine) && leaf in w.dir && b == w.(dir := w.dir - {leaf});
    UndisturbedTransitive(v, a, w, mine);
  }

  lemma QuietIsUndisturbed(a: View, m: seq<View>, b: View, n: seq<View>, mine: set<Inode>)
    requires Quiet(a, m, b, n, mine)
    ensures Undisturbed(a, b, mine)
  {
  }
}

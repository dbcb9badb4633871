/** The acknowledgement file: replaced as a whole, so it is always the complete old or the complete new value. */
module OutboxAck {
  import opened Common
  import opened Publication

  /** The fixed codes of the acknowledgement writer, without their `MH_OUTBOX_ACK` prefix. */
  datatype AckCode = PATH | WRITE | UNSUPPORTED | PARENT_MISSING | UNSAFE | UNCERTAIN

  /** `_write_error`. */
  function WriteError(kind: Kind): AckCode {
    match kind
    case SECURITY_UNSUPPORTED => UNSUPPORTED
    case NOT_FOUND => PARENT_MISSING
    case NOT_REGULAR => PATH
    case COMMIT_UNCERTAIN => UNCERTAIN
    case ACCESS_CONTROL_UNSAFE => UNSAFE
    case PARENT_UNSAFE => UNSAFE
    case _ => WRITE
  }

  /** Which failures of the staged write each code stands for. */
  lemma WriteErrorsExactly(kind: Kind)
    ensures WriteError(kind) == UNCERTAIN <==> kind == COMMIT_UNCERTAIN
    ensures WriteError(kind) == PATH <==> kind == NOT_REGULAR
    ensures WriteError(kind) == PARENT_MISSING <==> kind == NOT_FOUND
    ensures WriteError(kind) == UNSUPPORTED <==> kind == SECURITY_UNSUPPORTED
    ensures WriteError(kind) == UNSAFE <==> kind in {ACCESS_CONTROL_UNSAFE, PARENT_UNSAFE}
  {
  }

  predicate IsNameChar(c: char) {
    'A' <= c <= 'Z' || 'a' <= c <= 'z' || '0' <= c <= '9' || c == '.' || c == '_' || c == '-'
  }

  /** A safe single-component file name. */
  predicate IsAckName(name: string) {
    1 <= |name| <= 255 && name[0] !in "._-" && forall i | 0 <= i < |name| :: IsNameChar(name[i])
  }

  function StagedAckName(filename: string, token: string): string { "." + filename + "." + token + ".tmp" }

  /** The staged name is not the acknowledgement's, and neither is one the secure writer may choose for itself: one does
      not begin with a dot, the other does not end in a hexadecimal digit. */
  lemma StagedAckNameIsApart(filename: string, token: string)
    requires IsAckName(filename)
    ensures !IsStagingName(StagedAckName(filename, token)) && StagedAckName(filename, token) != filename
    ensures !IsStagingName(filename)
  {
    var staged := StagedAckName(filename, token);
    assert staged[0] == '.' && filename[0] != '.' && staged[|staged| - 1] == 'p';
    if IsStagingName(staged) { StagingNameEnds(staged); }
    if IsStagingName(filename) { StagingNameEnds(filename); }
  }

  lemma StagingNameEnds(name: string)
    requires IsStagingName(name)
    ensures name[0] == '.' && name[|name| - 1] != 'p'
  {
    var token := name[|STAGED_FILE_PREFIX|..];
    assert token[|token| - 1] == name[|name| - 1];
  }

  /** The acknowledgement is what it was at the start, or it is the whole new content. */
  ghost predicate OldOrNew(a: View, v: View, filename: string, content: string, made: set<Inode>) {
    && (filename in a.dir ==> filename in v.dir)
    && (filename in v.dir ==>
          var i := v.dir[filename];
          && i in v.files
          && if i in made then v.files[i] == content
             else filename in a.dir ==> i == a.dir[filename] && i in a.files && v.files[i] == a.files[i])
  }

  /** Specifically, the new content. */
  ghost predicate New(v: View, filename: string, content: string, made: set<Inode>) {
    filename in v.dir && v.dir[filename] in made && v.dir[filename] in v.files && v.files[v.dir[filename]] == content
  }

  ghost predicate AlwaysOldOrNew(
    a: View, moments: seq<View>, from: nat, filename: string, content: string, made: set<Inode>)
  {
    from <= |moments| && forall k | from <= k < |moments| :: OldOrNew(a, moments[k], filename, content, made)
  }

  lemma StaysOldOrNew(
    a: View, v: View, w: View, mine: set<Inode>, filename: string, content: string, made: set<Inode>)
    requires OldOrNew(a, v, filename, content, made) && Undisturbed(v, w, mine) && made <= mine
    requires Bound(w)
    requires made <= v.files.Keys && (filename in a.dir ==> a.dir[filename] in a.files)
    ensures OldOrNew(a, w, filename, content, made)
    ensures New(v, filename, content, made) ==> New(w, filename, content, made)
    ensures (filename in v.dir ==> v.dir[filename] !in made) ==> filename in w.dir ==> w.dir[filename] !in made
    ensures made <= w.files.Keys
  {
  }

  /** While the staged file is created, the acknowledgement is untouched. */
  lemma StagingIsApart(
    a: View, m: seq<View>, from: nat, v: View, staged: string, made: set<Inode>, filename: string, content: string)
    requires NeverTorn(a, m, from, v, staged, made, content) && filename != staged && !IsStagingName(filename)
    requires forall k | 0 <= k < |m| :: Bound(m[k])
    requires filename in a.dir ==> a.dir[filename] in a.files
    ensures AlwaysOldOrNew(a, m, from, filename, content, made)
  {
    forall k | from <= k < |m| ensures OldOrNew(a, m[k], filename, content, made) {
      assert WholeOrStaged(m[k], staged, made, content) && Kept(a, m[k]) && Bound(m[k]);
    }
  }

  /** A write of the acknowledgement that has reached some state. */
  ghost predicate Writes(
    a: View, vol: Volume, from: nat, filename: string, content: string, made: set<Inode>, done: bool)
    reads vol
  {
    && vol.Valid() && made <= vol.mine && made <= vol.v.files.Keys
    && OldOrNew(a, vol.v, filename, content, made) && AlwaysOldOrNew(a, vol.moments, from, filename, content, made)
    && (filename in a.dir ==> a.dir[filename] in a.files) && (done ==> New(vol.v, filename, content, made))
  }

  lemma MomentsGrow(a: View, m: seq<View>, n: seq<View>, from: nat, filename: string, content: string, made: set<Inode>)
    requires AlwaysOldOrNew(a, m, from, filename, content, made) && m <= n
    requires forall k | |m| <= k < |n| :: OldOrNew(a, n[k], filename, content, made)
    ensures AlwaysOldOrNew(a, n, from, filename, content, made)
  {
    hide OldOrNew;
    forall k | from <= k < |n| ensures OldOrNew(a, n[k], filename, content, made) {
      if k < |m| { assert n[k] == m[k]; }
    }
  }

  /** Opening, probing and closing leave the acknowledgement alone. */
  lemma QuietOldOrNew(
    a: View, v: View, m: seq<View>, w: View, n: seq<View>, mine: set<Inode>, from: nat, filename: string, content: string,
    made: set<Inode>)
    requires OldOrNew(a, v, filename, content, made) && AlwaysOldOrNew(a, m, from, filename, content, made)
    requires Quiet(v, m, w, n, mine) && made <= mine && made <= v.files.Keys && Bound(w)
    requires (forall k | 0 <= k < |n| :: Bound(n[k])) && (filename in a.dir ==> a.dir[filename] in a.files)
    ensures OldOrNew(a, w, filename, content, made) && AlwaysOldOrNew(a, n, from, filename, content, made)
    ensures (New(v, filename, content, made) ==> New(w, filename, content, made)) && made <= w.files.Keys
  {
    StaysOldOrNew(a, v, w, mine, filename, content, made);
    forall k | |m| <= k < |n| ensures OldOrNew(a, n[k], filename, content, made) {
      StaysOldOrNew(a, v, n[k], mine, filename, content, made);
    }
    MomentsGrow(a, m, n, from, filename, content, made);
  }

  lemma ReplacedIsNew(a: View, v: View, w: View, mine: set<Inode>, staged: string, filename: string, content: string, made: set<Inode>)
    requires Replaced(v, w, mine, staged, filename) && staged in v.dir && v.dir[staged] in made && made <= mine
    requires v.dir[staged] in v.files && v.files[v.dir[staged]] == content && Bound(w) && made <= v.files.Keys
    ensures OldOrNew(a, w, filename, content, made) && New(w, filename, content, made) && made <= w.files.Keys
  {
  }

  lemma UnlinkedStays(
    a: View, v: View, w: View, mine: set<Inode>, staged: string, filename: string, content: string, made: set<Inode>)
    requires OldOrNew(a, v, filename, content, made) && made <= mine && made <= v.files.Keys && staged != filename
    requires Unlinked(v, w, mine, staged) || Undisturbed(v, w, mine)
    requires Bound(w) && (filename in a.dir ==> a.dir[filename] in a.files)
    ensures OldOrNew(a, w, filename, content, made) && made <= w.files.Keys
    ensures (filename in v.dir ==> v.dir[filename] !in made) ==> filename in w.dir ==> w.dir[filename] !in made
  {
  }

  lemma OneMoment(a: View, m: seq<View>, w: View, from: nat, filename: string, content: string, made: set<Inode>)
    requires AlwaysOldOrNew(a, m, from, filename, content, made) && OldOrNew(a, w, filename, content, made)
    ensures AlwaysOldOrNew(a, m + [w], from, filename, content, made)
  {
    hide OldOrNew;
    MomentsGrow(a, m, m + [w], from, filename, content, made);
  }

  /** `write_outbox_ack`: at every moment the acknowledgement is wholly old or wholly new; success means new, and an
      error other than an unconfirmed commit means old. */
  method WriteOutboxAck(vol: Volume, depth: nat, filename: string, token: string, content: string)
    returns (r: Option<AckCode>, ghost made: set<Inode>)
    requires vol.Valid()
    modifies vol
    ensures vol.Valid() && vol.mine == old(vol.mine) + made && Balanced(old(vol.closes), vol.closes, {})
    ensures IsAckName(filename) ==> AlwaysOldOrNew(old(vol.v), vol.moments, old(|vol.moments|), filename, content, made)
    ensures !IsAckName(filename) ==> r == Some(PATH) && vol.v == old(vol.v) && vol.moments == old(vol.moments)
    ensures r.None? ==> New(vol.v, filename, content, made)
    ensures r.Some? && r.value != UNCERTAIN ==> filename in vol.v.dir ==> vol.v.dir[filename] !in made
  {
    hide Balanced, NeverTorn, Leaves, AlwaysOldOrNew, OldOrNew, New, Quiet, IsAckName, IsStagingName, ShownEmpty;
    ghost var a, from, closes := vol.v, |vol.moments|, vol.closes;
    made := {};
    BalancedStart(closes);
    if !IsAckName(filename) {
      return Some(PATH), {};
    }
    StagedAckNameIsApart(filename, token);
    var staged := StagedAckName(filename, token);
    var created;
    ghost var inner: Option<string>;
    created, made, inner := CreateRegularFile(vol, depth, staged, content, true);
    CreatedApart(a, vol.v, vol.moments, from, staged, made, filename, content, created);
    if created.Failure? {
      return Some(WriteError(created.error)), made;
    }
    ghost var before := vol.closes;
    r := ReplaceAck(vol, depth, staged, filename, content, a, from, made);
    ghost var none: set<Fd> := {};
    BalancedTransitive(closes, before, vol.closes, none, none);
    assert none + none == none;
  }

  lemma CreatedApart(
    a: View, v: View, m: seq<View>, from: nat, staged: string, made: set<Inode>, filename: string, content: string,
    r: Result<Inode, Kind>)
    requires NeverTorn(a, m, from, v, staged, made, content) && Leaves(a, v, staged, content, made, r)
    requires filename != staged && !IsStagingName(filename) && Bound(a) && Bound(v)
    requires forall k | 0 <= k < |m| :: Bound(m[k])
    ensures AlwaysOldOrNew(a, m, from, filename, content, made) && OldOrNew(a, v, filename, content, made)
    ensures made <= v.files.Keys && (filename in v.dir ==> v.dir[filename] !in made)
    ensures filename in a.dir ==> a.dir[filename] in a.files
    ensures r.Success? ==>
      staged in v.dir && v.dir[staged] == r.value && r.value in made && v.files[r.value] == content
  {
    StagingIsApart(a, m, from, v, staged, made, filename, content);
  }

  /** The replacement itself and the parent's sync. */
  method ReplaceAck(
    vol: Volume, depth: nat, staged: string, filename: string, content: string, ghost a: View, ghost from: nat, ghost made: set<Inode>)
    returns (r: Option<AckCode>)
    requires Writes(a, vol, from, filename, content, made, false) && staged != filename
    requires staged in vol.v.dir && vol.v.dir[staged] in made && vol.v.files[vol.v.dir[staged]] == content
    requires filename in vol.v.dir ==> vol.v.dir[filename] !in made
    modifies vol
    ensures vol.mine == old(vol.mine) && Balanced(old(vol.closes), vol.closes, {})
    ensures Writes(a, vol, from, filename, content, made, r.None?)
    ensures r.Some? && r.value != UNCERTAIN ==> filename in vol.v.dir ==> vol.v.dir[filename] !in made
  {
    hide Balanced, AlwaysOldOrNew, OldOrNew, New, Quiet, Undisturbed, Replaced;
    ghost var v, m, mine := vol.v, vol.moments, vol.mine;
    BalancedStart(vol.closes);
    var error := vol.Replace(staged, filename);
    ghost var w, n := vol.v, vol.moments;
    if error.Some? {
      StaysOldOrNew(a, v, w, mine, filename, content, made);
      OneMoment(a, m, w, from, filename, content, made);
      error := vol.Unlink(staged);
      UnlinkedStays(a, w, vol.v, mine, staged, filename, content, made);
      OneMoment(a, n, vol.v, from, filename, content, made);
      return Some(WRITE);
    }
    ReplacedIsNew(a, v, w, mine, staged, filename, content, made);
    OneMoment(a, m, w, from, filename, content, made);
    var synced := SyncParent(vol, depth, true);
    QuietOldOrNew(a, w, n, vol.v, vol.moments, mine, from, filename, content, made);
    r := if synced then None else Some(UNCERTAIN);
  }
}

/** What a run has acknowledged, step by step, and what of it the log must still hold. */
module LogTrace {

  /** One command of a run, as far as the log is concerned. */
  datatype Step =
    /** An acknowledged append; `rolled` if it rotated first. */
    | Appended(sequence: int, line: string, rolled: bool)
    /** An acknowledged rotation, or an acknowledged flush that secured the active segment. */
    | Covered
    /** An acknowledged flush that did not. */
    | Flushed(inode: nat)
    | Quiet
    /** Of each sequence, so many lines are left; those in `gone` were being deleted. */
    | Left(kept: int -> nat, gone: set<int>)
    /** A power cut undid a directory change older than the operation it struck; those in `gone` were being deleted. */
    | Undone(gone: set<int>)

  /** The lines of one sequence, as the steps that appended them, and how many of them are sure to last. */
  datatype Account = Account(ids: seq<nat>, sure: nat)

  ghost function AccountOf(t: seq<Step>, n: int): Account {
    if t == [] then Account([], 0) else Next(AccountOf(t[..|t| - 1], n), |t| - 1, t[|t| - 1], n)
  }

  /** The account of sequence `n` after step `k`. */
  ghost function Next(a: Account, k: nat, s: Step, n: int): Account {
    match s
    case Appended(q, _, rolled) => Account(if q == n then a.ids + [k] else a.ids, if rolled then |a.ids| else a.sure)
    case Covered => Account(a.ids, |a.ids|)
    case Flushed(_) => a
    case Quiet => a
    case Left(kept, gone) => Account(FirstOf(a.ids, kept(n)), if n in gone then 0 else a.sure)
    case Undone(gone) => if n in gone then Account([], 0) else Account(FirstOf(a.ids, a.sure), a.sure)
  }

  function FirstOf(ids: seq<nat>, k: nat): (r: seq<nat>)
    ensures r <= ids && forall i <- r :: i in ids
  {
    if k <= |ids| then ids[..k] else ids
  }

  /** The steps that may follow a run. An append goes to the end of the log; a stop takes only the end of the log, and
      nothing that is sure to last; nothing follows an undone change. */
  ghost predicate Allowed(t: seq<Step>, s: Step) {
    && !Ended(t)
    && match s
       case Appended(q, _, _) => forall m | m > q :: AccountOf(t, m).ids == []
       case Left(kept, gone) =>
         && (forall n :: kept(n) <= |AccountOf(t, n).ids| && (n in gone || AccountOf(t, n).sure <= kept(n)))
         && (forall n, m | n < m && n !in gone && m !in gone && kept(n) != |AccountOf(t, n).ids| :: AccountOf(t, m).ids == [])
       case _ => true
  }

  predicate Ended(t: seq<Step>) { t != [] && t[|t| - 1].Undone? }

  ghost predicate Faithful(t: seq<Step>) {
    t == [] || (Faithful(t[..|t| - 1]) && Allowed(t[..|t| - 1], t[|t| - 1]))
  }

  lemma OneStep(t: seq<Step>, s: Step)
    ensures (t + [s])[..|t + [s]| - 1] == t && (t + [s])[|t + [s]| - 1] == s
  {
  }

  lemma FaithfulStep(t: seq<Step>, s: Step)
    requires Faithful(t) && Allowed(t, s)
    ensures Faithful(t + [s])
  {
    OneStep(t, s);
  }

  lemma {:induction false} FaithfulPrefix(t: seq<Step>, k: nat)
    requires Faithful(t) && k <= |t|
    ensures Faithful(t[..k])
  {
    if k < |t| {
      FaithfulPrefix(t[..|t| - 1], k);
      assert t[..|t| - 1][..k] == t[..k];
    } else {
      assert t[..k] == t;
    }
  }

  // ---- the lines of an account ---------------------------------------------------------------------------------------------

  function LineAt(t: seq<Step>, i: nat): string { if i < |t| && t[i].Appended? then t[i].line else "" }

  function LinesOf(t: seq<Step>, ids: seq<nat>): (r: seq<string>)
    ensures |r| == |ids| && forall i | 0 <= i < |r| :: r[i] == LineAt(t, ids[i])
  {
    seq(|ids|, i requires 0 <= i < |ids| => LineAt(t, ids[i]))
  }

  /** What the run says sequence `n` holds. */
  ghost function Held(t: seq<Step>, n: int): seq<string> { LinesOf(t, AccountOf(t, n).ids) }

  /** What is sure to last of it. */
  ghost function Assured(t: seq<Step>, n: int): seq<string> { LinesOf(t, FirstOf(AccountOf(t, n).ids, AccountOf(t, n).sure)) }

  ghost predicate Increasing(ids: seq<nat>) { forall i, j | 0 <= i < j < |ids| :: ids[i] < ids[j] }

  /** A sequence's account lists its own appends, each once, in the order of their acknowledgement. */
  lemma {:induction false} AccountAscends(t: seq<Step>, n: int)
    requires Faithful(t)
    ensures var a := AccountOf(t, n);
      && a.sure <= |a.ids| && Increasing(a.ids)
      && forall i <- a.ids :: i < |t| && t[i].Appended? && t[i].sequence == n
  {
    if t != [] {
      var k := |t| - 1;
      AccountAscends(t[..k], n);
      var a, b := AccountOf(t[..k], n), AccountOf(t, n);
      forall i <- b.ids ensures i < |t| && t[i].Appended? && t[i].sequence == n {
        if i in a.ids { assert t[..k][i] == t[i]; } else { OnlyAppendsAdd(t, n, i); }
      }
      if t[k].Appended? && t[k].sequence == n {
        AscendsPush(a.ids, k);
      } else {
        assert b.ids <= a.ids;
      }
    }
  }

  lemma AscendsPush(ids: seq<nat>, k: nat)
    requires Increasing(ids) && forall i <- ids :: i < k
    ensures Increasing(ids + [k])
  {
    forall i, j | 0 <= i < j < |ids| + 1 ensures (ids + [k])[i] < (ids + [k])[j] {
      if j == |ids| { assert ids[i] in ids; }
    }
  }

  /** A step adds nothing to an account but itself, when it appends to that sequence. */
  lemma OnlyAppendsAdd(t: seq<Step>, n: int, i: nat)
    requires t != []
    ensures i in AccountOf(t, n).ids ==>
      i in AccountOf(t[..|t| - 1], n).ids || (i == |t| - 1 && t[i].Appended? && t[i].sequence == n)
  {
  }

  /** Whatever a later sequence holds was acknowledged after what an earlier one holds. */
  lemma {:induction false} AccountsAreOrdered(t: seq<Step>, n: int, m: int)
    requires Faithful(t) && n < m
    ensures forall i <- AccountOf(t, n).ids, j <- AccountOf(t, m).ids :: i < j
  {
    if t != [] {
      var p := t[..|t| - 1];
      AccountsAreOrdered(p, n, m);
      AccountAscends(p, n);
      forall i <- AccountOf(t, n).ids, j <- AccountOf(t, m).ids ensures i < j {
        OnlyAppendsAdd(t, n, i);
        OnlyAppendsAdd(t, m, j);
        if i == |p| && t[i].Appended? && t[i].sequence == n { assert AccountOf(p, m).ids == []; }
      }
    }
  }

  // ---- one more step ----------------------------------------------------------------------------------------------------------

  lemma LinesKeep(t: seq<Step>, s: Step, ids: seq<nat>)
    requires forall i <- ids :: i < |t|
    ensures LinesOf(t + [s], ids) == LinesOf(t, ids)
  {
    forall k | 0 <= k < |ids| ensures LineAt(t + [s], ids[k]) == LineAt(t, ids[k]) { assert ids[k] in ids; }
  }

  lemma HeldLengths(t: seq<Step>, n: int)
    requires Faithful(t)
    ensures |Held(t, n)| == |AccountOf(t, n).ids| && |Assured(t, n)| == AccountOf(t, n).sure
    ensures Assured(t, n) <= Held(t, n)
  {
    hide AccountOf, Faithful;
    AccountAscends(t, n);
  }

  ghost function HeldNext(t: seq<Step>, s: Step, n: int): seq<string> {
    match s
    case Appended(q, line, _) => if q == n then Held(t, n) + [line] else Held(t, n)
    case Left(kept, _) => if kept(n) <= |Held(t, n)| then Held(t, n)[..kept(n)] else Held(t, n)
    case Undone(gone) => if n in gone then [] else Assured(t, n)
    case _ => Held(t, n)
  }

  ghost function AssuredNext(t: seq<Step>, s: Step, n: int): seq<string> {
    match s
    case Appended(_, _, rolled) => if rolled then Held(t, n) else Assured(t, n)
    case Covered => Held(t, n)
    case Left(_, gone) => if n in gone then [] else Assured(t, n)
    case Undone(gone) => if n in gone then [] else Assured(t, n)
    case _ => Assured(t, n)
  }

  /** How a step changes what a sequence holds, and what of it is sure to last. */
  lemma HeldAfter(t: seq<Step>, s: Step, n: int)
    requires Faithful(t) && Allowed(t, s)
    ensures Held(t + [s], n) == HeldNext(t, s, n) && Assured(t + [s], n) == AssuredNext(t, s, n)
  {
    hide AccountOf, Faithful, Held, Assured, HeldNext, AssuredNext;
    LinesHeldAfter(t, s, n);
    LinesAssuredAfter(t, s, n);
  }

  lemma LinesHeldAfter(t: seq<Step>, s: Step, n: int)
    requires Faithful(t) && Allowed(t, s)
    ensures Held(t + [s], n) == HeldNext(t, s, n)
  {
    hide AccountOf, Faithful, Increasing;
    AccountAscends(t, n);
    LastAccount(t, s, n);
    var a := AccountOf(t, n);
    LinesKeep(t, s, a.ids);
    LinesKeep(t, s, FirstOf(a.ids, a.sure));
    if s.Left? { LinesKeep(t, s, FirstOf(a.ids, s.kept(n))); }
  }

  lemma LinesAssuredAfter(t: seq<Step>, s: Step, n: int)
    requires Faithful(t) && Allowed(t, s)
    ensures Assured(t + [s], n) == AssuredNext(t, s, n)
  {
    hide AccountOf, Faithful, Increasing;
    AccountAscends(t, n);
    LastAccount(t, s, n);
    var a := AccountOf(t, n);
    LinesKeep(t, s, a.ids);
    LinesKeep(t, s, FirstOf(a.ids, a.sure));
  }

  lemma LastAccount(t: seq<Step>, s: Step, n: int)
    ensures AccountOf(t + [s], n) == Next(AccountOf(t, n), |t|, s, n)
  {
    OneStep(t, s);
  }

  // ---- lines and the steps they come from ---------------------------------------------------------------------------------------

  /** Steps of the run that appended to sequence `n`, each once, in their order. */
  ghost predicate AppendsTo(t: seq<Step>, n: int, ids: seq<nat>) {
    Increasing(ids) && forall i <- ids :: i < |t| && t[i].Appended? && t[i].sequence == n
  }

  /** The lines were appended to sequence `n` in this order, each by a step of its own. */
  ghost predicate Sourced(t: seq<Step>, n: int, lines: seq<string>) {
    exists ids :: AppendsTo(t, n, ids) && lines == LinesOf(t, ids)
  }

  lemma NoLinesAreSourced(t: seq<Step>, n: int)
    ensures Sourced(t, n, [])
  {
    assert AppendsTo(t, n, []) && [] == LinesOf(t, []);
  }

  lemma PrefixIsSourced(t: seq<Step>, n: int, lines: seq<string>, fewer: seq<string>)
    requires Sourced(t, n, lines) && fewer <= lines
    ensures Sourced(t, n, fewer)
  {
    var ids :| AppendsTo(t, n, ids) && lines == LinesOf(t, ids);
    FirstAppends(t, n, ids, |fewer|);
  }

  lemma FirstAppends(t: seq<Step>, n: int, ids: seq<nat>, k: nat)
    requires AppendsTo(t, n, ids) && k <= |ids|
    ensures Sourced(t, n, LinesOf(t, ids)[..k])
  {
    var first := ids[..k];
    forall i, j | 0 <= i < j < |first| ensures first[i] < first[j] { assert first[i] == ids[i] && first[j] == ids[j]; }
    assert AppendsTo(t, n, first) by { assert forall i <- first :: i in ids; }
    hide AppendsTo;
    assert LinesOf(t, first) == LinesOf(t, ids)[..k];
  }

  lemma StaysSourced(t: seq<Step>, s: Step, n: int, lines: seq<string>)
    requires Sourced(t, n, lines)
    ensures Sourced(t + [s], n, lines)
  {
    var ids :| AppendsTo(t, n, ids) && lines == LinesOf(t, ids);
    LinesKeep(t, s, ids);
    assert AppendsTo(t + [s], n, ids);
  }

  /** What the run says a sequence holds comes from its own appends. */
  lemma HeldIsSourced(t: seq<Step>, n: int)
    requires Faithful(t)
    ensures Sourced(t, n, Held(t, n))
  {
    hide AccountOf, Faithful;
    AccountAscends(t, n);
    assert AppendsTo(t, n, AccountOf(t, n).ids);
  }

  // ---- the whole log --------------------------------------------------------------------------------------------------------

  /** The event lines of sequences `lo` to `hi`, in order. */
  function Log(slot: int -> seq<string>, lo: int, hi: int): seq<string>
    decreases hi - lo
  {
    if hi <= lo then [] else Log(slot, lo, hi - 1) + slot(hi - 1)
  }

  /** The steps that appended them. */
  ghost function Steps(t: seq<Step>, lo: int, hi: int): seq<nat>
    decreases hi - lo
  {
    if hi <= lo then [] else Steps(t, lo, hi - 1) + AccountOf(t, hi - 1).ids
  }

  lemma {:induction false} StepsAreAccounts(t: seq<Step>, lo: int, hi: int, i: nat)
    ensures i in Steps(t, lo, hi) <==> exists n :: lo <= n < hi && i in AccountOf(t, n).ids
    decreases hi - lo
  {
    hide AccountOf;
    if lo < hi {
      StepsAreAccounts(t, lo, hi - 1, i);
      var m := hi - 1;
      assert i in Steps(t, lo, hi) <==> i in Steps(t, lo, m) || i in AccountOf(t, m).ids;
      if i in Steps(t, lo, m) {
        var n :| lo <= n < m && i in AccountOf(t, n).ids;
        assert lo <= n < hi && i in AccountOf(t, n).ids;
      }
      if i in AccountOf(t, m).ids {
        assert lo <= m < hi && i in AccountOf(t, m).ids;
      }
      if n :| lo <= n < hi && i in AccountOf(t, n).ids {
        assert n < m ==> lo <= n < m && i in AccountOf(t, n).ids;
      }
    }
  }

  lemma {:induction false} StepsAscend(t: seq<Step>, lo: int, hi: int)
    requires Faithful(t)
    ensures Increasing(Steps(t, lo, hi))
    decreases hi - lo
  {
    hide AccountOf, Faithful;
    if lo < hi {
      StepsAscend(t, lo, hi - 1);
      AccountAscends(t, hi - 1);
      var a, b := Steps(t, lo, hi - 1), AccountOf(t, hi - 1).ids;
      forall i <- a, j <- b ensures i < j {
        StepsAreAccounts(t, lo, hi - 1, i);
        var n :| lo <= n < hi - 1 && i in AccountOf(t, n).ids;
        AccountsAreOrdered(t, n, hi - 1);
      }
      AscendsConcat(a, b);
    }
  }

  lemma AscendsConcat(a: seq<nat>, b: seq<nat>)
    requires Increasing(a) && Increasing(b) && forall i <- a, j <- b :: i < j
    ensures Increasing(a + b)
  {
    var c := a + b;
    forall i, j | 0 <= i < j < |c| ensures c[i] < c[j] {
      if i < |a| && |a| <= j { assert a[i] in a && b[j - |a|] in b; }
    }
  }

  /** A log that holds what the run says is the lines of those steps, in the order they were acknowledged. */
  lemma {:induction false} LogIsItsSteps(t: seq<Step>, slot: int -> seq<string>, lo: int, hi: int)
    requires forall n | lo <= n < hi :: slot(n) == Held(t, n)
    ensures Log(slot, lo, hi) == LinesOf(t, Steps(t, lo, hi))
    decreases hi - lo
  {
    hide AccountOf;
    if lo < hi {
      LogIsItsSteps(t, slot, lo, hi - 1);
      LinesConcat(t, Steps(t, lo, hi - 1), AccountOf(t, hi - 1).ids);
    }
  }

  lemma LinesConcat(t: seq<Step>, a: seq<nat>, b: seq<nat>)
    ensures LinesOf(t, a + b) == LinesOf(t, a) + LinesOf(t, b)
  {
  }

  // ---- what lasts ------------------------------------------------------------------------------------------------------------

  /** An acknowledgement after which everything in the log at that moment is sure to last. */
  predicate Secures(s: Step) { s.Covered? || (s.Appended? && s.rolled) }

  /** Between the appending step `p` and step `c` no stop and no deletion took anything of its sequence. */
  ghost predicate Untouched(t: seq<Step>, p: nat, c: nat)
    requires p < c <= |t| && t[p].Appended?
  {
    forall k | p < k < c ::
      !t[k].Undone? && (t[k].Left? ==> t[k].kept(t[p].sequence) == |AccountOf(t[..k], t[p].sequence).ids|)
  }

  /** After step `c` sequence `q` was not deleted. */
  predicate NotDeleted(t: seq<Step>, c: nat, q: int) {
    forall k | c < k < |t| :: (t[k].Left? ==> q !in t[k].gone) && (t[k].Undone? ==> q !in t[k].gone)
  }

  lemma {:induction false} StillHeld(t: seq<Step>, p: nat)
    requires Faithful(t) && p < |t| && t[p].Appended? && Untouched(t, p, |t|)
    ensures p in AccountOf(t, t[p].sequence).ids
  {
    var u := t[..|t| - 1];
    if p < |t| - 1 {
      assert forall k | p < k < |u| :: u[k] == t[k] && u[..k] == t[..k];
      StillHeld(u, p);
    }
  }

  lemma {:induction false} SureStays(t: seq<Step>, c: nat, q: int, p: nat)
    requires Faithful(t) && c < |t| && Secures(t[c]) && p in AccountOf(t[..c], q).ids && NotDeleted(t, c, q)
    ensures var a := AccountOf(t, q); a.sure <= |a.ids| && p in a.ids[..a.sure]
  {
    var u := t[..|t| - 1];
    AccountAscends(t, q);
    if c == |t| - 1 {
      assert t[..c] == u;
      var a := AccountOf(u, q);
      assert AccountOf(t, q).ids[..|a.ids|] == a.ids;
    } else {
      assert u[..c] == t[..c];
      assert NotDeleted(u, c, q) by { assert forall k | c < k < |u| :: u[k] == t[k]; }
      SureStays(u, c, q, p);
      var a, b := AccountOf(u, q), AccountOf(t, q);
      var i :| 0 <= i < a.sure && a.ids[i] == p;
      assert a.sure <= b.sure && b.ids[i] == p;
    }
  }

  /** A line that is in the log at a covering acknowledgement is there for good, unless its own sequence is deleted. */
  lemma CoveredLinesLast(t: seq<Step>, p: nat, c: nat)
    requires Faithful(t) && p < c < |t| && t[p].Appended? && Secures(t[c]) && NotDeleted(t, c, t[p].sequence)
    requires Untouched(t, p, c) || p in AccountOf(t[..c], t[p].sequence).ids
    ensures p in AccountOf(t, t[p].sequence).ids
  {
    var u := t[..c];
    if p !in AccountOf(u, t[p].sequence).ids {
      FaithfulPrefix(t, c);
      assert forall k | p < k < c :: u[k] == t[k] && u[..k] == t[..k];
      StillHeld(u, p);
    }
    SureStays(t, c, t[p].sequence, p);
  }
}

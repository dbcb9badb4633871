/** What the canonical text means: injective up to the normal form, and a fixed point of re-encoding. */
module CanonicalTheorems {
  import opened Common
  import opened JsonText
  import opened JsonRoundTrip
  import opened Utf8Order
  import opened KeySort
  import opened Clock
  import opened Canonical
  import opened CanonicalEncoding

  /** Agreement, kind by kind, and up to the insertion order of dictionaries. */
  ghost predicate Agree(v: Value, w: Value)
    decreases v
  {
    match (v, w)
    case (VList(a), VList(b)) => |a| == |b| && forall i | 0 <= i < |a| :: Agree(a[i], b[i])
    case (VDict(a), VDict(b)) => |a| == |b| && forall i | 0 <= i < |a| :: HasPartner(a[i], b)
    case _ => SameScalar(v, w)
  }

  /** Equal booleans, whole numbers, decimals, instants, or texts up to line ends and NFC; a time agrees with its text. */
  ghost predicate SameScalar(v: Value, w: Value) {
    match (v, w)
    case (VNull, VNull) => true
    case (VBool(a), VBool(b)) => a == b
    case (VFloat(Fractional(d)), VFloat(Fractional(e))) => d == e
    case (VTime(Aware(t)), VTime(Aware(u))) => t == u
    case (VStr(s), VStr(t)) => ScalarsOnly(s) && ScalarsOnly(t) && NormalText(Scalars(s)) == NormalText(Scalars(t))
    case (VStr(s), VTime(Aware(t))) => ScalarsOnly(s) && NormalText(Scalars(s)) == FormatTimestamp(t)
    case (VTime(Aware(t)), VStr(s)) => ScalarsOnly(s) && NormalText(Scalars(s)) == FormatTimestamp(t)
    case _ => WholeNumber(v).Some? && WholeNumber(v) == WholeNumber(w)
  }

  /** An integer, or the integer that an integral float is; negative zero is zero. */
  function WholeNumber(v: Value): Option<int> {
    match v
    case VInt(n) => Some(n)
    case VFloat(Integral(n)) => Some(n)
    case VFloat(NegativeZero) => Some(0)
    case _ => None
  }

  lemma SameScalarIsNormalEquality(v: Value, w: Value, depth: nat, maxDepth: nat)
    requires Sound(v, depth, maxDepth) && Sound(w, depth, maxDepth)
    requires !(v.VList? && w.VList?) && !(v.VDict? && w.VDict?)
    ensures SameScalar(v, w) <==> Normal(v) == Normal(w)
  {
    hide FormatTimestamp, NormalText, Scalars, KeysBreak, Sort;
    SoundScalar(v, depth, maxDepth);
    SoundScalar(w, depth, maxDepth);
    if v.VTime? && w.VTime? && FormatTimestamp(v.t.at) == FormatTimestamp(w.t.at) { FormatInjective(v.t.at, w.t.at); }
  }

  /** A sound scalar is one that has a text. */
  lemma SoundScalar(v: Value, depth: nat, maxDepth: nat)
    requires Sound(v, depth, maxDepth)
    ensures !v.VOther? && !(v.VFloat? && v.f.NonFinite?)
    ensures (v.VStr? ==> ScalarsOnly(v.s)) && (v.VTime? ==> v.t.Aware? && InRange(v.t.at))
  {
    assert !Breaks(v, depth, maxDepth, UnsupportedType) && !Breaks(v, depth, maxDepth, FloatNotFinite);
    assert !Breaks(v, depth, maxDepth, Unicode) && !Breaks(v, depth, maxDepth, Timestamp);
  }

  /** A whole number is refused exactly outside the 64-bit range, as an integer or as a float. */
  lemma WholeNumbersInRange(n: int, depth: nat, maxDepth: nat)
    ensures var fits := -9_223_372_036_854_775_808 <= n <= 9_223_372_036_854_775_807;
      (Sound(VInt(n), depth, maxDepth) <==> fits) && (Sound(VFloat(Integral(n)), depth, maxDepth) <==> fits)
  {
    if !Signed64(n) {
      assert Breaks(VInt(n), depth, maxDepth, IntegerRange);
      assert Breaks(VFloat(Integral(n)), depth, maxDepth, IntegerRange);
    }
  }

  ghost predicate HasPartner(e: Entry, entries: seq<Entry>)
    decreases e
  {
    exists j | 0 <= j < |entries| :: KeyText(e.key) == KeyText(entries[j].key) && Agree(e.value, entries[j].value)
  }

  // ---- agreement is equality of normal forms -----------------------------------------------------

  lemma {:induction false} DistinctAsSet<V>(s: seq<Keyed<V>>)
    requires DistinctKeys(s)
    ensures |set p | p in s| == |s|
    ensures multiset(s) == multiset(set p | p in s)
  {
    if s != [] {
      var tail := s[1..];
      DistinctAsSet(tail);
      assert s == [s[0]] + tail;
      HeadIsNew(s);
    }
  }

  lemma HeadIsNew<V>(s: seq<Keyed<V>>)
    requires s != [] && DistinctKeys(s)
    ensures var rest := set p | p in s[1..]; s[0] !in rest && (set p | p in s) == {s[0]} + rest
  {
    var tail := s[1..];
    forall p <- tail ensures p != s[0] {
      var i :| 0 <= i < |tail| && tail[i] == p;
      assert tail[i] == s[i + 1];
    }
    assert s == [s[0]] + tail;
  }

  lemma SameMembers<V>(s: seq<Keyed<V>>, t: seq<Keyed<V>>)
    requires DistinctKeys(s) && DistinctKeys(t) && |s| == |t| && forall p <- s :: p in t
    ensures multiset(s) == multiset(t)
  {
    DistinctAsSet(s);
    DistinctAsSet(t);
    var a, b := set p | p in s, set p | p in t;
    assert a <= b;
    SubsetOfSameSize(a, b);
  }

  lemma SubsetOfSameSize<T>(a: set<T>, b: set<T>)
    requires a <= b && |a| == |b|
    ensures a == b
  {
    assert |b - a| == |b| - |a|;
  }

  lemma SoundKeysAreDistinct(entries: seq<Entry>, depth: nat, maxDepth: nat)
    requires Sound(VDict(entries), depth, maxDepth)
    ensures DistinctKeys(NormalMembers(entries))
  {
    SoundDict(entries, depth, maxDepth);
    assert !KeysBreak(entries, KeyCollision);
  }

  /** Two sound values have equal normal forms exactly when they agree. */
  lemma {:induction false} AgreeIsNormalEquality(v: Value, w: Value, depth: nat, maxDepth: nat)
    requires Sound(v, depth, maxDepth) && Sound(w, depth, maxDepth)
    ensures Agree(v, w) <==> Normal(v) == Normal(w)
    decreases v
  {
    match (v, w)
    case (VList(a), VList(b)) => ListsAgree(a, b, depth, maxDepth);
    case (VDict(a), VDict(b)) => DictsAgree(a, b, depth, maxDepth);
    case _ => SameScalarIsNormalEquality(v, w, depth, maxDepth);
  }

  lemma {:induction false} ListsAgree(a: seq<Value>, b: seq<Value>, depth: nat, maxDepth: nat)
    requires Sound(VList(a), depth, maxDepth) && Sound(VList(b), depth, maxDepth)
    ensures Agree(VList(a), VList(b)) <==> Normal(VList(a)) == Normal(VList(b))
    decreases a
  {
    hide Sound, Breaks;
    SoundList(a, depth, maxDepth);
    SoundList(b, depth, maxDepth);
    ListStep(a, depth, maxDepth);
    ListStep(b, depth, maxDepth);
    if |a| == |b| {
      forall i | 0 <= i < |a| ensures Agree(a[i], b[i]) <==> Normals(a)[i] == Normals(b)[i] {
        AgreeIsNormalEquality(a[i], b[i], depth + 1, maxDepth);
      }
    }
  }

  lemma {:induction false} DictsAgree(a: seq<Entry>, b: seq<Entry>, depth: nat, maxDepth: nat)
    requires Sound(VDict(a), depth, maxDepth) && Sound(VDict(b), depth, maxDepth)
    ensures Agree(VDict(a), VDict(b)) <==> Normal(VDict(a)) == Normal(VDict(b))
    decreases a
  {
    hide Sound, Breaks, KeysBreak, Sort;
    var ma, mb := NormalMembers(a), NormalMembers(b);
    SoundKeysAreDistinct(a, depth, maxDepth);
    SoundKeysAreDistinct(b, depth, maxDepth);
    SortKeeps(ma); SortKeeps(mb);
    forall i | 0 <= i < |a| ensures HasPartner(a[i], b) <==> ma[i] in mb {
      PartnerIsMember(a, b, i, depth, maxDepth);
    }
    if Agree(VDict(a), VDict(b)) {
      assert forall i | 0 <= i < |a| :: HasPartner(a[i], b);
      SameMembers(ma, mb);
      SortIgnoresOrder(ma, mb);
    }
    if Sort(ma) == Sort(mb) {
      assert multiset(ma) == multiset(mb);
      forall i | 0 <= i < |a| ensures HasPartner(a[i], b) { assert ma[i] in multiset(mb); }
    }
  }

  lemma {:induction false} PartnerIsMember(a: seq<Entry>, b: seq<Entry>, i: nat, depth: nat, maxDepth: nat)
    requires Sound(VDict(a), depth, maxDepth) && Sound(VDict(b), depth, maxDepth) && i < |a|
    ensures HasPartner(a[i], b) <==> NormalMembers(a)[i] in NormalMembers(b)
    decreases a, 0
  {
    hide Sound, Breaks, KeysBreak;
    SoundDict(a, depth, maxDepth);
    SoundDict(b, depth, maxDepth);
    var e := a[i];
    forall j | 0 <= j < |b| ensures Agree(e.value, b[j].value) <==> Normal(e.value) == Normal(b[j].value) {
      AgreeIsNormalEquality(e.value, b[j].value, depth + 1, maxDepth);
    }
    var mb := NormalMembers(b);
    if NormalMember(e) in mb {
      var j :| 0 <= j < |mb| && mb[j] == NormalMember(e);
      assert KeyText(e.key) == KeyText(b[j].key) && Agree(e.value, b[j].value);
    }
  }

  /** Two values share their canonical text exactly when they agree. */
  lemma EqualTextIffAgree(v: Value, w: Value, maxDepth: nat)
    requires Sound(v, 0, maxDepth) && Sound(w, 0, maxDepth)
    ensures Print(Normal(v)) == Print(Normal(w)) <==> Agree(v, w)
  {
    hide Print, Normal, Sound, Agree;
    AgreeIsNormalEquality(v, w, 0, maxDepth);
    if Print(Normal(v)) == Print(Normal(w)) { PrintInjective(Normal(v), Normal(w)); }
  }

  // ---- insertion order --------------------------------------------------------------------------------

  /** The same value up to the insertion order of its dictionaries, at every depth. */
  ghost predicate Reordered(v: Value, w: Value)
    decreases v, 0
  {
    match (v, w)
    case (VList(a), VList(b)) => |a| == |b| && forall i | 0 <= i < |a| :: Reordered(a[i], b[i])
    case (VDict(a), VDict(b)) => exists c: seq<Entry> | multiset(c) == multiset(b) :: EntryByEntry(a, c)
    case (VList(_), _) => false
    case (VDict(_), _) => false
    case _ => v == w
  }

  ghost predicate EntryByEntry(a: seq<Entry>, c: seq<Entry>)
    decreases a, 0
  {
    |a| == |c| && forall i | 0 <= i < |a| :: SameEntry(a[i], c[i])
  }

  ghost predicate SameEntry(e: Entry, f: Entry)
    decreases e, 0
  {
    e.key == f.key && Reordered(e.value, f.value)
  }

  lemma {:induction false} ReorderedIsReflexive(v: Value)
    ensures Reordered(v, v)
    decreases v
  {
    match v
    case VList(items) =>
      forall i | 0 <= i < |items| ensures Reordered(items[i], items[i]) { ReorderedIsReflexive(items[i]); }
    case VDict(entries) =>
      forall i | 0 <= i < |entries| ensures SameEntry(entries[i], entries[i]) { ReorderedIsReflexive(entries[i].value); }
      assert EntryByEntry(entries, entries);
    case _ =>
  }

  /** In particular, shuffling one dictionary reorders it. */
  lemma ShuffledIsReordered(a: seq<Entry>, b: seq<Entry>)
    requires multiset(a) == multiset(b)
    ensures Reordered(VDict(a), VDict(b))
  {
    forall i | 0 <= i < |a| ensures SameEntry(a[i], a[i]) { ReorderedIsReflexive(a[i].value); }
    assert EntryByEntry(a, a);
  }

  /** Reordering insertions, however deep, changes nothing the encoder reports. */
  lemma InsertionOrderIsInvisible(v: Value, w: Value, maxDepth: nat, maxNodes: nat, maxBytes: nat)
    requires Reordered(v, w)
    ensures Encodable(v, maxDepth, maxNodes, maxBytes) <==> Encodable(w, maxDepth, maxNodes, maxBytes)
    ensures Encodable(v, maxDepth, maxNodes, maxBytes) ==> Print(Normal(v)) == Print(Normal(w))
  {
    hide Print, Normal, Sound, Reordered;
    ReorderedAlike(v, w, 0, maxDepth);
  }

  lemma {:induction false} ReorderedAlike(v: Value, w: Value, depth: nat, maxDepth: nat)
    requires Reordered(v, w)
    ensures Sound(v, depth, maxDepth) <==> Sound(w, depth, maxDepth)
    ensures Sound(v, depth, maxDepth) ==> Normal(v) == Normal(w)
    decreases v, 1
  {
    hide Sound, Breaks, Normal;
    match (v, w)
    case (VList(a), VList(b)) =>
      SoundList(a, depth, maxDepth);
      SoundList(b, depth, maxDepth);
      ListStep(a, depth, maxDepth);
      ListStep(b, depth, maxDepth);
      forall i | 0 <= i < |a|
        ensures Sound(a[i], depth + 1, maxDepth) <==> Sound(b[i], depth + 1, maxDepth)
        ensures Sound(a[i], depth + 1, maxDepth) ==> Normals(a)[i] == Normals(b)[i]
      {
        ReorderedAlike(a[i], b[i], depth + 1, maxDepth);
      }
    case (VDict(a), VDict(b)) =>
      var c: seq<Entry> :| multiset(c) == multiset(b) && EntryByEntry(a, c);
      EntriesAlike(a, c, depth, maxDepth);
      if Sound(VDict(c), depth, maxDepth) { ReorderedDict(c, b, depth, maxDepth); }
      if Sound(VDict(b), depth, maxDepth) { ReorderedDict(b, c, depth, maxDepth); }
    case _ =>
  }

  lemma {:induction false} EntriesAlike(a: seq<Entry>, c: seq<Entry>, depth: nat, maxDepth: nat)
    requires EntryByEntry(a, c)
    ensures Sound(VDict(a), depth, maxDepth) <==> Sound(VDict(c), depth, maxDepth)
    ensures Sound(VDict(a), depth, maxDepth) ==> Normal(VDict(a)) == Normal(VDict(c))
    decreases a, 0
  {
    hide Sound, Breaks, Sort, KeyText, Reordered;
    SoundDict(a, depth, maxDepth);
    SoundDict(c, depth, maxDepth);
    forall i | 0 <= i < |a|
      ensures a[i].key == c[i].key
      ensures Sound(a[i].value, depth + 1, maxDepth) <==> Sound(c[i].value, depth + 1, maxDepth)
      ensures Sound(a[i].value, depth + 1, maxDepth) ==> NormalMembers(a)[i] == NormalMembers(c)[i]
    {
      assert SameEntry(a[i], c[i]);
      ReorderedAlike(a[i].value, c[i].value, depth + 1, maxDepth);
    }
    SameKeysBreakAlike(a, c);
    if Sound(VDict(a), depth, maxDepth) {
      assert NormalMembers(a) == NormalMembers(c);
      DictStep(a, depth, maxDepth);
      DictStep(c, depth, maxDepth);
    }
  }

  lemma SameKeysBreakAlike(a: seq<Entry>, c: seq<Entry>)
    requires |a| == |c| && forall i | 0 <= i < |a| :: a[i].key == c[i].key
    ensures forall e :: KeysBreak(a, e) <==> KeysBreak(c, e)
  {
    hide KeyText;
  }

  lemma ReorderedDict(a: seq<Entry>, b: seq<Entry>, depth: nat, maxDepth: nat)
    requires multiset(a) == multiset(b) && Sound(VDict(a), depth, maxDepth)
    ensures Sound(VDict(b), depth, maxDepth) && Normal(VDict(a)) == Normal(VDict(b))
  {
    hide Sound, Breaks, Sort, KeysBreak, KeyText;
    SoundDict(a, depth, maxDepth);
    SoundKeysAreDistinct(a, depth, maxDepth);
    ReorderedMembers(a, b);
    SortIgnoresOrder(NormalMembers(a), NormalMembers(b));
    DistinctTransfers(NormalMembers(a), NormalMembers(b));
    forall i | 0 <= i < |b| ensures b[i] in a { assert b[i] in multiset(a); }
    ReorderedKeys(a, b);
    SoundDict(b, depth, maxDepth);
  }

  lemma ReorderedKeys(a: seq<Entry>, b: seq<Entry>)
    requires (forall i | 0 <= i < |b| :: b[i] in a) && DistinctKeys(NormalMembers(b)) && forall e :: !KeysBreak(a, e)
    ensures forall e :: !KeysBreak(b, e)
  {
    hide KeyText, Normal;
    assert !KeysBreak(a, KeyType) && !KeysBreak(a, Unicode);
    forall e ensures !KeysBreak(b, e) {
      assert forall i, j | 0 <= i < j < |b| :: NormalMembers(b)[i].key != NormalMembers(b)[j].key;
    }
  }

  lemma {:induction false} ReorderedMembers(a: seq<Entry>, b: seq<Entry>)
    requires multiset(a) == multiset(b)
    ensures multiset(NormalMembers(a)) == multiset(NormalMembers(b))
  {
    hide NormalMembers, NormalMember;
    if a == [] {
      assert |multiset(b)| == 0;
    } else {
      assert a[0] in multiset(b);
      var k :| 0 <= k < |b| && b[k] == a[0];
      RemoveHead(a);
      RemoveAt(b, k);
      ReorderedMembers(a[1..], b[..k] + b[k + 1..]);
    }
  }

  lemma RemoveHead(s: seq<Entry>)
    requires s != []
    ensures multiset(s[1..]) == multiset(s) - multiset{s[0]}
    ensures multiset(NormalMembers(s)) == multiset(NormalMembers(s[1..])) + multiset{NormalMember(s[0])}
  {
    hide NormalMember, NormalMembers;
    RemoveAt(s, 0);
    assert s[..0] + s[1..] == s[1..];
  }

  lemma RemoveAt(s: seq<Entry>, k: nat)
    requires k < |s|
    ensures var rest := s[..k] + s[k + 1..];
      && multiset(rest) == multiset(s) - multiset{s[k]}
      && multiset(NormalMembers(s)) == multiset(NormalMembers(rest)) + multiset{NormalMember(s[k])}
  {
    hide NormalMember;
    var rest := s[..k] + s[k + 1..];
    assert s == s[..k] + [s[k]] + s[k + 1..];
    var m := NormalMembers(s);
    assert m == m[..k] + [m[k]] + m[k + 1..];
    assert NormalMembers(rest) == m[..k] + m[k + 1..];
  }

  // ---- reading a canonical text and encoding it again ----------------------------------------------

  /** The Python value `json.loads` builds. */
  function ToValue(j: Json): Value
    decreases j
  {
    match j
    case JNull => VNull
    case JBool(b) => VBool(b)
    case JInt(n) => VInt(n)
    case JDec(d) => VFloat(Fractional(d))
    case JStr(s) => VStr(FromScalars(s))
    case JArr(items) => VList(seq(|items|, i requires 0 <= i < |items| => ToValue(items[i])))
    case JObj(ms) => VDict(seq(|ms|, i requires 0 <= i < |ms| => ToEntry(ms[i])))
  }

  function ToEntry(m: Member): Entry
    decreases m
  {
    Entry(Text(FromScalars(m.key)), ToValue(m.value))
  }

  /** The JSON values canonical texts hold. */
  ghost predicate IsCanonical(j: Json, depth: nat, maxDepth: nat)
    decreases j
  {
    match j
    case JInt(n) => Signed64(n)
    case JStr(s) => NormalText(s) == s
    case JArr(items) => depth + 1 <= maxDepth && forall i | 0 <= i < |items| :: IsCanonical(items[i], depth + 1, maxDepth)
    case JObj(ms) =>
      depth + 1 <= maxDepth && Sorted(ms) && forall i | 0 <= i < |ms| :: IsCanonicalMember(ms[i], depth + 1, maxDepth)
    case _ => true
  }

  ghost predicate IsCanonicalMember(m: Member, depth: nat, maxDepth: nat)
    decreases m
  {
    NormalText(m.key) == m.key && IsCanonical(m.value, depth, maxDepth)
  }

  lemma {:induction false} NormalIsCanonical(v: Value, depth: nat, maxDepth: nat)
    requires Sound(v, depth, maxDepth)
    ensures IsCanonical(Normal(v), depth, maxDepth)
    decreases v
  {
    match v
    case VInt(n) => assert !Breaks(v, depth, maxDepth, IntegerRange);
    case VFloat(f) => assert !Breaks(v, depth, maxDepth, IntegerRange);
    case VStr(s) =>
      if ScalarsOnly(s) { NormalTextIdempotent(Scalars(s)); }
    case VTime(t) => if t.Aware? { TimestampIsNormal(t.at); }
    case VList(items) => NormalListIsCanonical(items, depth, maxDepth);
    case VDict(entries) => NormalDictIsCanonical(entries, depth, maxDepth);
    case _ =>
  }

  lemma {:induction false} NormalListIsCanonical(items: seq<Value>, depth: nat, maxDepth: nat)
    requires Sound(VList(items), depth, maxDepth)
    ensures IsCanonical(Normal(VList(items)), depth, maxDepth)
    decreases items
  {
    hide Sound, Breaks;
    SoundList(items, depth, maxDepth);
    ListStep(items, depth, maxDepth);
    forall i | 0 <= i < |items| ensures IsCanonical(Normals(items)[i], depth + 1, maxDepth) {
      NormalIsCanonical(items[i], depth + 1, maxDepth);
    }
  }

  lemma {:induction false} NormalDictIsCanonical(entries: seq<Entry>, depth: nat, maxDepth: nat)
    requires Sound(VDict(entries), depth, maxDepth)
    ensures IsCanonical(Normal(VDict(entries)), depth, maxDepth)
    decreases entries
  {
    hide Sound, Breaks, Sort, NormalText;
    SoundDict(entries, depth, maxDepth);
    SoundKeysAreDistinct(entries, depth, maxDepth);
    var ms := NormalMembers(entries);
    SortSorts(ms);
    SortKeeps(ms);
    var sorted := Sort(ms);
    forall i | 0 <= i < |sorted| ensures IsCanonicalMember(sorted[i], depth + 1, maxDepth) {
      assert sorted[i] in multiset(ms);
      var k :| 0 <= k < |ms| && ms[k] == sorted[i];
      var e := entries[k];
      NormalIsCanonical(e.value, depth + 1, maxDepth);
      KeyTextIsNormal(e.key);
    }
  }

  lemma KeyTextIsNormal(k: Key)
    ensures NormalText(KeyText(k)) == KeyText(k)
  {
    if k.Text? && ScalarsOnly(k.s) { NormalTextIdempotent(Scalars(k.s)); } else { NormalTextOfAscii(""); }
  }

  /** A canonical JSON value is the normal form of the Python value it is read as. */
  lemma {:induction false} CanonicalIsNormal(j: Json, depth: nat, maxDepth: nat)
    requires IsCanonical(j, depth, maxDepth)
    ensures Sound(ToValue(j), depth, maxDepth) && Normal(ToValue(j)) == j
    decreases j
  {
    match j
    case JArr(items) =>
      var values := seq(|items|, i requires 0 <= i < |items| => ToValue(items[i]));
      forall i | 0 <= i < |items| ensures Sound(values[i], depth + 1, maxDepth) && Normal(values[i]) == items[i] {
        CanonicalIsNormal(items[i], depth + 1, maxDepth);
      }
      SoundList(values, depth, maxDepth);
      ListStep(values, depth, maxDepth);
      assert Normals(values) == items;
    case JObj(ms) => CanonicalObjectIsNormal(ms, depth, maxDepth);
    case _ => assert Sound(ToValue(j), depth, maxDepth);
  }

  lemma {:induction false} CanonicalObjectIsNormal(ms: seq<Member>, depth: nat, maxDepth: nat)
    requires IsCanonical(JObj(ms), depth, maxDepth)
    ensures Sound(ToValue(JObj(ms)), depth, maxDepth) && Normal(ToValue(JObj(ms))) == JObj(ms)
    decreases ms
  {
    hide Sound, Breaks, Sort, NormalText, Before;
    var entries := seq(|ms|, i requires 0 <= i < |ms| => ToEntry(ms[i]));
    forall i | 0 <= i < |ms|
      ensures NormalMember(entries[i]) == ms[i] && Sound(entries[i].value, depth + 1, maxDepth)
    {
      var m := ms[i];
      assert IsCanonicalMember(m, depth + 1, maxDepth);
      CanonicalIsNormal(m.value, depth + 1, maxDepth);
    }
    assert NormalMembers(entries) == ms;
    SortedIsDistinct(ms);
    assert forall i | 0 <= i < |ms| :: KeyText(entries[i].key) == ms[i].key;
    assert forall e :: !KeysBreak(entries, e);
    SoundDict(entries, depth, maxDepth);
    SortSorts(ms);
    SortKeeps(ms);
    SortedUnique(Sort(ms), ms);
  }

  lemma SortedIsDistinct<V>(s: seq<Keyed<V>>)
    requires Sorted(s)
    ensures DistinctKeys(s)
  {
    hide Before;
    forall i, j | 0 <= i < j < |s| ensures s[i].key != s[j].key { BeforeTotal(s[i].key, s[j].key); }
  }

  /** Re-encoding a parsed canonical text is the identity, within the same limits. */
  lemma ReencodingIsIdentity(v: Value, maxDepth: nat, maxNodes: nat, maxBytes: nat)
    requires Encodable(v, maxDepth, maxNodes, maxBytes)
    ensures var text := Print(Normal(v));
      && Loads(text).Some?
      && var w := ToValue(Loads(text).value);
         Encodable(w, maxDepth, maxNodes, maxBytes) && Print(Normal(w)) == text
  {
    hide Print, Normal, Sound, IsCanonical, Loads;
    LoadsPrinted(Normal(v));
    NormalIsCanonical(v, 0, maxDepth);
    CanonicalIsNormal(Normal(v), 0, maxDepth);
  }
}

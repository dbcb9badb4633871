/** Generic facts about projecting a dictionary of plain ASCII text into one canonical JSON line. */
module LineProjection {
  import opened Common
  import opened Decimals
  import opened JsonText
  import opened JsonRoundTrip
  import opened Utf8Order
  import opened KeySort
  import opened Canonical
  import opened CanonicalEncoding
  import opened CanonicalTheorems

  /** Printable ASCII that JSON prints unescaped. */
  predicate Plain(s: string) { forall i | 0 <= i < |s| :: ' ' <= s[i] <= '~' && s[i] != '"' && s[i] != '\\' }

  lemma {:induction false} PlainIsUnescaped(s: string)
    requires Plain(s)
    ensures EscapeAll(s) == s
  {
    if s != "" {
      PlainIsUnescaped(s[1..]);
      assert s == [s[0]] + s[1..];
    }
  }

  lemma PlainIsNormal(s: string)
    requires Plain(s)
    ensures NormalText(s) == s && KeyText(Text(FromScalars(s))) == s && Normal(VStr(FromScalars(s))) == JStr(s)
    ensures Quote(s) == "\"" + s + "\""
  {
    NormalTextOfAscii(s);
    PlainIsUnescaped(s);
  }

  function TextEntry(key: string, value: Value): Entry { Entry(Text(FromScalars(key)), value) }

  lemma KeysDecided(a: string, b: string, k: nat)
    requires k < |a| && k < |b| && a[..k] == b[..k] && a[k] < b[k]
    ensures Before(a, b)
  {
    ByteOrderIsCodePointOrder(a, b);
    var x, y := Codes(a), Codes(b);
    assert x == x[..k] + [x[k]] + x[k + 1..] && y == y[..k] + [y[k]] + y[k + 1..];
    assert forall i | 0 <= i < k :: a[..k][i] == b[..k][i];
    assert x[..k] == y[..k];
    LexAtDifference(x[..k], x[k], x[k + 1..], y[k], y[k + 1..]);
  }

  lemma {:induction false} SortedByNeighbours<V>(s: seq<Keyed<V>>)
    requires forall i | 0 < i < |s| :: Before(s[i - 1].key, s[i].key)
    ensures Sorted(s)
  {
    hide Before;
    if s != [] {
      var t := s[..|s| - 1];
      SortedByNeighbours(t);
      if t != [] {
        forall i | 0 <= i < |t| ensures Before(s[i].key, s[|t|].key) {
          if i < |t| - 1 { BeforeTransitive(t[i].key, t[|t| - 1].key, s[|t|].key); }
        }
      }
    }
  }

  lemma CoveredIsReordered(s: seq<Member>, t: seq<Member>)
    requires DistinctKeys(s) && |s| == |t| && forall i | 0 <= i < |s| :: s[i] in t
    ensures multiset(s) == multiset(t)
  {
    DistinctAsSet(s);
    var a, b := multiset(set p | p in s), multiset(t);
    assert a <= b;
    assert |b - a| == |b| - |a|;
  }

  /** Whether `ms`, read in order, picks one dictionary entry each. */
  ghost predicate Picks(entries: seq<Entry>, ms: seq<Member>, from: seq<nat>) {
    && |from| == |ms| == |entries|
    && forall i | 0 <= i < |ms| :: from[i] < |entries| && NormalMember(entries[from[i]]) == ms[i]
  }

  /** A dictionary holding exactly the members of a sorted list encodes as that list. */
  lemma SortedProjection(entries: seq<Entry>, ms: seq<Member>, from: seq<nat>)
    requires Picks(entries, ms, from)
    requires forall i | 0 < i < |ms| :: Before(ms[i - 1].key, ms[i].key)
    ensures Normal(VDict(entries)) == JObj(ms) && DistinctKeys(NormalMembers(entries))
  {
    hide Before, Sort;
    var members := NormalMembers(entries);
    SortedByNeighbours(ms);
    SortedIsDistinct(ms);
    forall i | 0 <= i < |ms| ensures ms[i] in members { assert members[from[i]] == ms[i]; }
    CoveredIsReordered(ms, members);
    DistinctTransfers(ms, members);
    SortSorts(members);
    SortKeeps(members);
    SortedUnique(Sort(members), ms);
    DictStep(entries, 0, 0);
  }

  /** A dictionary with text keys that stay distinct is sound as far as its values are. */
  lemma TextDictSound(entries: seq<Entry>, depth: nat, maxDepth: nat)
    requires DistinctKeys(NormalMembers(entries)) && depth < maxDepth
    requires forall i | 0 <= i < |entries| :: entries[i].key.Text? && ScalarsOnly(entries[i].key.s)
    requires forall i | 0 <= i < |entries| :: Sound(entries[i].value, depth + 1, maxDepth)
    ensures Sound(VDict(entries), depth, maxDepth)
  {
    hide Sound, ScalarsOnly, KeyText, Normal, NormalMembers, KeysBreak;
    TextKeysNeverBreak(entries);
    SoundDict(entries, depth, maxDepth);
  }

  lemma TextKeysNeverBreak(entries: seq<Entry>)
    requires DistinctKeys(NormalMembers(entries))
    requires forall i | 0 <= i < |entries| :: entries[i].key.Text? && ScalarsOnly(entries[i].key.s)
    ensures forall e :: !KeysBreak(entries, e)
  {
    hide ScalarsOnly, KeyText, Collide, DistinctKeys, NormalMembers;
    DistinctNeverCollide(entries);
  }

  lemma DistinctNeverCollide(entries: seq<Entry>)
    requires DistinctKeys(NormalMembers(entries))
    ensures !Collide(entries)
  {
    hide KeyText, Normal;
    var ms := NormalMembers(entries);
    assert forall i | 0 <= i < |entries| :: ms[i].key == KeyText(entries[i].key);
  }

  function Sum(w: seq<nat>): nat { if w == [] then 0 else w[0] + Sum(w[1..]) }

  lemma {:induction false} MembersLength(ms: seq<Member>, w: seq<nat>)
    requires |ms| == |w| && forall i | 0 <= i < |ms| :: |PrintMember(ms[i])| <= w[i]
    ensures |PrintMoreMembers(ms)| <= Sum(w) + |ms|
    ensures ms != [] ==> |PrintMembers(ms)| < Sum(w) + |ms|
  {
    hide PrintMember;
    if ms != [] { MembersLength(ms[1..], w[1..]); }
  }

  lemma ObjectLength(ms: seq<Member>, w: seq<nat>)
    requires ms != [] && |ms| == |w| && forall i | 0 <= i < |ms| :: |PrintMember(ms[i])| <= w[i]
    ensures |Print(JObj(ms))| <= Sum(w) + |ms| + 1
  {
    hide PrintMember;
    MembersLength(ms, w);
  }

  function Repeat(n: nat, w: nat): (r: seq<nat>)
    ensures |r| == n && forall i | 0 <= i < n :: r[i] == w
  {
    seq(n, _ => w)
  }

  lemma {:induction false} SumOfRepeat(n: nat, w: nat)
    ensures Sum(Repeat(n, w)) == n * w
  {
    if n > 0 {
      assert Repeat(n, w)[1..] == Repeat(n - 1, w);
      SumOfRepeat(n - 1, w);
    }
  }

  lemma UniformObjectLength(ms: seq<Member>, w: nat)
    requires ms != [] && forall i | 0 <= i < |ms| :: |PrintMember(ms[i])| <= w
    ensures |Print(JObj(ms))| <= |ms| * w + |ms| + 1
  {
    hide PrintMember, Print;
    SumOfRepeat(|ms|, w);
    ObjectLength(ms, Repeat(|ms|, w));
  }

  lemma MemberLength(key: string, value: Json)
    requires Plain(key)
    ensures |PrintMember(Keyed(key, value))| == |key| + 3 + |Print(value)|
  {
    hide Print;
    PlainIsUnescaped(key);
  }

  lemma TextLength(s: string)
    requires Plain(s)
    ensures |Print(JStr(s))| == |s| + 2
  {
    PlainIsUnescaped(s);
  }

  lemma IntLength(n: int)
    requires Signed64(n)
    ensures |Print(JInt(n))| <= 20
  {
    assert Pow10(10) == 10_000_000_000;
    assert Pow10(19) == 10_000_000_000_000_000_000;
    if n < 0 { DecLength(-n, 19); } else { DecLength(n, 19); }
  }

  /** Every character of the printed value is ASCII when its strings are plain. */
  ghost predicate PlainJson(j: Json)
    decreases j
  {
    match j
    case JStr(s) => Plain(s)
    case JArr(items) => forall i | 0 <= i < |items| :: PlainJson(items[i])
    case JObj(ms) => forall i | 0 <= i < |ms| :: PlainMember(ms[i])
    case _ => true
  }

  ghost predicate PlainMember(m: Member)
    decreases m
  {
    Plain(m.key) && PlainJson(m.value)
  }

  lemma SignedIsAscii(n: int)
    ensures IsAscii(Signed(n))
  {
    hide Signed;
    assert forall i | 0 <= i < |Signed(n)| :: Signed(n)[i] == '-' || IsDigit(Signed(n)[i]);
  }

  lemma LayoutIsAscii(d: Fraction)
    ensures IsAscii(Layout(d))
  {
    hide Layout;
    LayoutIsNumeric(d);
    assert forall i | 0 <= i < |Layout(d)| :: IsNumberChar(Layout(d)[i]);
  }

  lemma {:induction false} PlainJsonIsAscii(j: Json)
    requires PlainJson(j)
    ensures IsAscii(Print(j))
    decreases j, 1
  {
    hide Layout, Signed;
    match j
    case JInt(n) => SignedIsAscii(n);
    case JDec(d) => LayoutIsAscii(d);
    case JStr(s) => PlainIsUnescaped(s);
    case JArr(items) => PlainItemsAreAscii(items);
    case JObj(ms) => PlainMembersAreAscii(ms);
    case _ =>
  }

  lemma {:induction false} PlainItemsAreAscii(items: seq<Json>)
    requires forall i | 0 <= i < |items| :: PlainJson(items[i])
    ensures IsAscii(PrintItems(items)) && IsAscii(PrintMoreItems(items))
    decreases items, 0
  {
    hide Print;
    if items != [] {
      PlainJsonIsAscii(items[0]);
      PlainItemsAreAscii(items[1..]);
    }
  }

  lemma {:induction false} PlainMembersAreAscii(ms: seq<Member>)
    requires forall i | 0 <= i < |ms| :: PlainMember(ms[i])
    ensures IsAscii(PrintMembers(ms)) && IsAscii(PrintMoreMembers(ms))
    decreases ms, 0
  {
    hide Print, PrintMember;
    if ms != [] {
      var m := ms[0];
      assert PlainMember(m);
      PlainJsonIsAscii(m.value);
      PlainMemberIsAscii(m);
      PlainMembersAreAscii(ms[1..]);
    }
  }

  lemma PlainMemberIsAscii(m: Member)
    requires PlainMember(m) && IsAscii(Print(m.value))
    ensures IsAscii(PrintMember(m))
  {
    hide Print, PlainJson, EscapeAll;
    PlainIsUnescaped(m.key);
  }

  /** The last value `json.loads` keeps for a key. */
  function Lookup(ms: seq<Member>, key: string): Option<Json> {
    if ms == [] then None
    else if ms[|ms| - 1].key == key then Some(ms[|ms| - 1].value)
    else Lookup(ms[..|ms| - 1], key)
  }

  function KeySet(ms: seq<Member>): set<string> { set m <- ms :: m.key }

  function Names(keys: seq<string>): set<string> { set k <- keys :: k }

  lemma KeySetInOrder(ms: seq<Member>, keys: seq<string>)
    requires |ms| == |keys| && forall i | 0 <= i < |ms| :: ms[i].key == keys[i]
    ensures KeySet(ms) == Names(keys)
  {
    forall k | k in Names(keys) ensures k in KeySet(ms) {
      var i :| 0 <= i < |keys| && keys[i] == k;
      assert ms[i] in ms && ms[i].key == k;
    }
    forall k | k in KeySet(ms) ensures k in Names(keys) {
      var i :| 0 <= i < |ms| && ms[i].key == k;
      assert keys[i] in keys;
    }
  }

  lemma {:induction false} LookupDistinct(ms: seq<Member>, i: nat)
    requires i < |ms| && DistinctKeys(ms)
    ensures Lookup(ms, ms[i].key) == Some(ms[i].value)
  {
    if i < |ms| - 1 { LookupDistinct(ms[..|ms| - 1], i); }
  }
}

/** The stateful encoder refines the specification in `Canonical`. */
module CanonicalEncoding {
  import opened Common
  import opened Decimals
  import opened JsonText
  import opened Utf8Order
  import opened KeySort
  import opened Clock
  import opened Canonical

  // ---- specification helpers -------------------------------------------------------------------

  function Normals(items: seq<Value>): (r: seq<Json>)
    ensures |r| == |items| && forall i | 0 <= i < |r| :: r[i] == Normal(items[i])
  {
    seq(|items|, i requires 0 <= i < |items| => Normal(items[i]))
  }

  lemma {:induction false} NodesOfItemsSnoc(items: seq<Json>, j: Json)
    ensures NodesOfItems(items + [j]) == NodesOfItems(items) + NodeCount(j)
  {
    hide NodeCount;
    if items != [] {
      assert (items + [j])[1..] == items[1..] + [j];
      NodesOfItemsSnoc(items[1..], j);
    } else {
      assert (items + [j])[1..] == [];
    }
  }

  lemma {:induction false} NodesOfItemsPrefix(items: seq<Json>, k: nat)
    requires k <= |items|
    ensures NodesOfItems(items[..k]) <= NodesOfItems(items)
  {
    hide NodeCount;
    if k > 0 {
      assert items[..k][1..] == items[1..][..k - 1];
      NodesOfItemsPrefix(items[1..], k - 1);
    }
  }

  function Values(ms: seq<Member>): seq<Json> { seq(|ms|, i requires 0 <= i < |ms| => ms[i].value) }

  lemma {:induction false} NodesOfMembersAsItems(ms: seq<Member>)
    ensures NodesOfMembers(ms) == NodesOfItems(Values(ms))
  {
    hide NodeCount;
    if ms != [] {
      assert Values(ms)[1..] == Values(ms[1..]);
      NodesOfMembersAsItems(ms[1..]);
    }
  }

  /** `",".join(parts)`. */
  function Join(parts: seq<string>): string {
    if parts == [] then "" else if |parts| == 1 then parts[0] else parts[0] + "," + Join(parts[1..])
  }

  lemma {:induction false} JoinItems(parts: seq<string>, items: seq<Json>)
    requires |parts| == |items| && forall i | 0 <= i < |parts| :: parts[i] == Print(items[i])
    ensures Join(parts) == PrintItems(items)
  {
    hide Print;
    if |parts| > 1 {
      JoinItems(parts[1..], items[1..]);
      assert PrintMoreItems(items[1..]) == "," + PrintItems(items[1..]);
    }
  }

  lemma {:induction false} JoinMembers(parts: seq<string>, ms: seq<Member>)
    requires |parts| == |ms| && forall i | 0 <= i < |parts| :: parts[i] == PrintMember(ms[i])
    ensures Join(parts) == PrintMembers(ms)
  {
    hide PrintMember;
    if |parts| > 1 {
      JoinMembers(parts[1..], ms[1..]);
      assert PrintMoreMembers(ms[1..]) == "," + PrintMembers(ms[1..]);
    }
  }

  lemma BreaksAt(entries: seq<Entry>, k: nat)
    requires k < |entries|
    ensures entries[k].key.NotText? ==> KeysBreak(entries, KeyType)
    ensures entries[k].key.Text? && !ScalarsOnly(entries[k].key.s) ==> KeysBreak(entries, Unicode)
  {
    hide ScalarsOnly;
  }

  lemma BreaksTogether(entries: seq<Entry>, i: nat, k: nat)
    requires i < k < |entries| && KeyText(entries[i].key) == KeyText(entries[k].key)
    ensures KeysBreak(entries, KeyCollision)
  {
    hide ScalarsOnly, KeyText;
  }

  lemma NoneBreaks(entries: seq<Entry>)
    requires forall i | 0 <= i < |entries| :: entries[i].key.Text? && ScalarsOnly(entries[i].key.s)
    requires forall i, j | 0 <= i < j < |entries| :: KeyText(entries[i].key) != KeyText(entries[j].key)
    ensures forall e :: !KeysBreak(entries, e)
  {
    hide ScalarsOnly, KeyText;
  }

  function Pairs(entries: seq<Entry>): (r: seq<Keyed<Value>>)
    ensures |r| == |entries|
    ensures forall i | 0 <= i < |r| :: r[i] == Keyed(KeyText(entries[i].key), entries[i].value)
  {
    seq(|entries|, i requires 0 <= i < |entries| => Keyed(KeyText(entries[i].key), entries[i].value))
  }

  function NormalPairs(pairs: seq<Keyed<Value>>): (r: seq<Member>)
    ensures |r| == |pairs| && forall i | 0 <= i < |r| :: r[i] == Keyed(pairs[i].key, Normal(pairs[i].value))
  {
    MapValues(pairs, v => Normal(v))
  }

  /** The members the encoder prints are its sorted pairs, each value in normal form. */
  lemma NormalOfSortedPairs(entries: seq<Entry>)
    ensures var sorted := Sort(Pairs(entries));
      Sort(NormalMembers(entries)) == NormalPairs(sorted)
  {
    var f := v => Normal(v);
    SortCommutesWithMap(Pairs(entries), f);
    assert MapValues(Pairs(entries), f) == NormalMembers(entries);
  }

  ghost predicate ComesFrom(p: Keyed<Value>, e: Entry) {
    e.key.Text? && ScalarsOnly(e.key.s) && p.key == KeyText(e.key) && p.value == e.value
  }

  ghost predicate FromEntry(p: Keyed<Value>, entries: seq<Entry>) {
    exists i | 0 <= i < |entries| :: ComesFrom(p, entries[i])
  }

  /** Sorting loses no pair and invents none. */
  lemma SortedPairOrigin(entries: seq<Entry>, p: Keyed<Value>) returns (i: nat)
    requires p in Sort(Pairs(entries))
    ensures i < |entries| && p.value == entries[i].value && p.key == KeyText(entries[i].key)
  {
    SortKeeps(Pairs(entries));
    assert p in multiset(Pairs(entries));
    i :| 0 <= i < |Pairs(entries)| && Pairs(entries)[i] == p;
  }

  lemma PairSurvivesSort(entries: seq<Entry>, i: nat)
    requires i < |entries|
    ensures Keyed(KeyText(entries[i].key), entries[i].value) in Sort(Pairs(entries))
  {
    SortKeeps(Pairs(entries));
    assert Pairs(entries)[i] in multiset(Sort(Pairs(entries)));
  }

  // ---- scalars ---------------------------------------------------------------------------------

  function SerializeInteger(n: int): Result<string, Error> {
    if n < MIN_CANONICAL_INT || n > MAX_CANONICAL_INT then Failure(IntegerRange) else Success(Signed(n))
  }

  function SerializeFloat(f: PyFloat): Result<string, Error> {
    match f
    case NonFinite => Failure(FloatNotFinite)
    case NegativeZero => Success("0")
    case Integral(n) => SerializeInteger(n)
    case Fractional(d) => Success(Layout(d))
  }

  function NormalizeString(s: PyStr): Result<string, Error> {
    if exists i | 0 <= i < |s| :: s[i].Surrogate? then Failure(Unicode) else Success(NormalText(Scalars(s)))
  }

  function QuoteString(s: PyStr): Result<string, Error> {
    var text :- NormalizeString(s);
    Success(Quote(text))
  }

  /** Every branch of the source's dispatch that does not recurse. */
  function SerializeScalar(v: Value): Result<string, Error>
    requires !v.VList? && !v.VDict?
  {
    match v
    case VNull => Success("null")
    case VBool(b) => Success(if b then "true" else "false")
    case VInt(n) => SerializeInteger(n)
    case VFloat(f) => SerializeFloat(f)
    case VStr(s) => QuoteString(s)
    case VTime(t) =>
      if t.Aware? && InRange(t.at) then QuoteString(FromScalars(FormatTimestamp(t.at))) else Failure(Timestamp)
    case VOther => Failure(UnsupportedType)
  }

  lemma ScalarStep(v: Value, depth: nat, maxDepth: nat)
    requires !v.VList? && !v.VDict?
    ensures var r := SerializeScalar(v);
      && NodeCount(Normal(v)) == 1
      && (r.Success? <==> Sound(v, depth, maxDepth))
      && (r.Success? ==> r.value == Print(Normal(v)))
      && (r.Failure? ==> Breaks(v, depth, maxDepth, r.error))
  {
    hide NormalText, FormatTimestamp, Layout, EscapeAll;
    if v.VTime? && v.t.Aware? { TimestampIsNormal(v.t.at); }
    var r := SerializeScalar(v);
    if r.Failure? {
      assert Breaks(v, depth, maxDepth, r.error);
    } else {
      assert Sound(v, depth, maxDepth);
    }
  }

  lemma ListStep(items: seq<Value>, depth: nat, maxDepth: nat)
    ensures Normal(VList(items)) == JArr(Normals(items))
    ensures NodeCount(Normal(VList(items))) == 1 + NodesOfItems(Normals(items))
    ensures forall e :: Breaks(VList(items), depth, maxDepth, e) <==>
      (e == Depth && depth + 1 > maxDepth) || exists i | 0 <= i < |items| :: Breaks(items[i], depth + 1, maxDepth, e)
  {
    assert Normal(VList(items)) == JArr(Normals(items));
  }

  lemma DictStep(entries: seq<Entry>, depth: nat, maxDepth: nat)
    ensures Normal(VDict(entries)) == JObj(Sort(NormalMembers(entries)))
    ensures NodeCount(Normal(VDict(entries))) == 1 + NodesOfMembers(Sort(NormalMembers(entries)))
    ensures forall e :: Breaks(VDict(entries), depth, maxDepth, e) <==>
      || (e == Depth && depth + 1 > maxDepth) || KeysBreak(entries, e)
      || exists i | 0 <= i < |entries| :: Breaks(entries[i].value, depth + 1, maxDepth, e)
  {
    hide KeysBreak, Sort;
    forall e | exists i | 0 <= i < |entries| :: Breaks(entries[i].value, depth + 1, maxDepth, e)
      ensures Breaks(VDict(entries), depth, maxDepth, e)
    {
      var i :| 0 <= i < |entries| && Breaks(entries[i].value, depth + 1, maxDepth, e);
      assert EntryBreaks(entries[i], depth + 1, maxDepth, e);
    }
  }

  lemma TimestampIsNormal(t: Instant)
    ensures NormalText(FormatTimestamp(t)) == FormatTimestamp(t)
  {
    hide FormatTimestamp;
    FormatLength(t);
    var s := FormatTimestamp(t);
    assert forall i | 0 <= i < |s| :: s[i] < '\U{80}' && s[i] != '\r';
    NormalTextOfAscii(s);
  }

  // ---- the encoder -----------------------------------------------------------------------------

  class CanonicalEncoder {
    const maxDepth: nat
    const maxNodes: nat
    var nodes: nat

    constructor (maxDepth: nat, maxNodes: nat)
      ensures this.maxDepth == maxDepth && this.maxNodes == maxNodes && nodes == 0
    {
      this.maxDepth, this.maxNodes, nodes := maxDepth, maxNodes, 0;
    }

    method EncodeValue(v: Value, depth: nat) returns (r: Result<string, Error>)
      modifies this
      ensures r.Success? <==> Sound(v, depth, maxDepth) && old(nodes) + NodeCount(Normal(v)) <= maxNodes
      ensures r.Success? ==> r.value == Print(Normal(v)) && nodes == old(nodes) + NodeCount(Normal(v))
      ensures r.Failure? ==>
        Breaks(v, depth, maxDepth, r.error) || (r.error == Nodes && old(nodes) + NodeCount(Normal(v)) > maxNodes)
      decreases v, 1
    {
      hide Print, Normal, Breaks, NodeCount, SerializeScalar, NormalMembers, Normals;
      nodes := nodes + 1;
      if nodes > maxNodes {
        return Failure(Nodes);
      }
      match v
      case VList(items) =>
        r := EncodeArray(items, depth + 1);
        SoundList(items, depth, maxDepth);
        ListStep(items, depth, maxDepth);
      case VDict(entries) =>
        r := EncodeObject(entries, depth + 1);
        SoundDict(entries, depth, maxDepth);
        DictStep(entries, depth, maxDepth);
      case _ =>
        r := SerializeScalar(v);
        ScalarStep(v, depth, maxDepth);
    }

    method EncodeArray(items: seq<Value>, depth: nat) returns (r: Result<string, Error>)
      requires nodes <= maxNodes
      modifies this
      ensures r.Success? <==>
        && depth <= maxDepth && (forall i | 0 <= i < |items| :: Sound(items[i], depth, maxDepth))
        && old(nodes) + NodesOfItems(Normals(items)) <= maxNodes
      ensures r.Success? ==>
        r.value == Print(JArr(Normals(items))) && nodes == old(nodes) + NodesOfItems(Normals(items))
      ensures r.Failure? ==>
        || (r.error == Depth && depth > maxDepth)
        || (exists i | 0 <= i < |items| :: Breaks(items[i], depth, maxDepth, r.error))
        || (r.error == Nodes && old(nodes) + NodesOfItems(Normals(items)) > maxNodes)
      decreases items, 0
    {
      hide Print, PrintItems, Normal, Breaks, NodeCount, NodesOfItems;
      if depth > maxDepth {
        return Failure(Depth);
      }
      ghost var all := Normals(items);
      EmptyPrefix(all);
      var members := [];
      for k := 0 to |items|
        invariant |members| == k && forall i | 0 <= i < k :: members[i] == Print(all[i])
        invariant forall i | 0 <= i < k :: Sound(items[i], depth, maxDepth)
        invariant nodes == old(nodes) + NodesOfItems(all[..k]) <= maxNodes
      {
        PrefixStep(all, k);
        var member := EncodeValue(items[k], depth);
        if member.Failure? {
          return member;
        }
        members := members + [member.value];
      }
      assert all[..|items|] == all;
      JoinItems(members, all);
      UnfoldArray(all);
      r := Success("[" + Join(members) + "]");
    }

    method EncodeObject(entries: seq<Entry>, depth: nat) returns (r: Result<string, Error>)
      requires nodes <= maxNodes
      modifies this
      ensures var ms := Sort(NormalMembers(entries));
        r.Success? <==>
          && depth <= maxDepth && (forall e :: !KeysBreak(entries, e))
          && (forall i | 0 <= i < |entries| :: Sound(entries[i].value, depth, maxDepth))
          && old(nodes) + NodesOfMembers(ms) <= maxNodes
      ensures var ms := Sort(NormalMembers(entries));
        r.Success? ==> r.value == Print(JObj(ms)) && nodes == old(nodes) + NodesOfMembers(ms)
      ensures r.Failure? ==>
        || (r.error == Depth && depth > maxDepth)
        || KeysBreak(entries, r.error)
        || (exists i | 0 <= i < |entries| :: Breaks(entries[i].value, depth, maxDepth, r.error))
        || (r.error == Nodes && old(nodes) + NodesOfMembers(Sort(NormalMembers(entries))) > maxNodes)
      decreases entries, 1
    {
      hide Print, PrintMembers, PrintMember, Normal, Breaks, NodeCount, NodesOfItems, NodesOfMembers, Sort;
      if depth > maxDepth {
        return Failure(Depth);
      }
      var normalized := NormalizeKeys(entries);
      if normalized.Failure? {
        return Failure(normalized.error);
      }
      assert !KeysBreak(entries, KeyType) && !KeysBreak(entries, Unicode);
      var sorted := Sort(normalized.value);
      NormalOfSortedPairs(entries);
      forall k | 0 <= k < |sorted| ensures FromEntry(sorted[k], entries) {
        var i := SortedPairOrigin(entries, sorted[k]);
      }
      var items := EncodeMembers(sorted, depth, entries);
      forall i | 0 <= i < |entries| ensures exists k | 0 <= k < |sorted| :: sorted[k].value == entries[i].value {
        PairSurvivesSort(entries, i);
      }
      if items.Failure? {
        return Failure(items.error);
      }
      UnfoldObject(Sort(NormalMembers(entries)));
      r := Success("{" + Join(items.value) + "}");
    }

    /** The second loop of the source: encode the members in key order. */
    method EncodeMembers(sorted: seq<Keyed<Value>>, depth: nat, ghost entries: seq<Entry>)
      returns (r: Result<seq<string>, Error>)
      requires nodes <= maxNodes
      requires forall k | 0 <= k < |sorted| :: FromEntry(sorted[k], entries)
      modifies this
      ensures var ms := NormalPairs(sorted);
        r.Success? <==>
          && (forall k | 0 <= k < |sorted| :: Sound(sorted[k].value, depth, maxDepth))
          && old(nodes) + NodesOfMembers(ms) <= maxNodes
      ensures var ms := NormalPairs(sorted);
        r.Success? ==> Join(r.value) == PrintMembers(ms) && nodes == old(nodes) + NodesOfMembers(ms)
      ensures r.Failure? ==>
        || (exists k | 0 <= k < |sorted| :: Breaks(sorted[k].value, depth, maxDepth, r.error))
        || (r.error == Nodes && old(nodes) + NodesOfMembers(NormalPairs(sorted)) > maxNodes)
      decreases entries, 0
    {
      hide Print, PrintMembers, PrintMember, Normal, Breaks, NodeCount, NodesOfItems, NodesOfMembers, NormalPairs;
      hide QuoteString, KeyText, Join, Sound, FromScalars;
      ghost var ms := NormalPairs(sorted);
      ghost var all := Values(ms);
      NodesOfMembersAsItems(ms);
      EmptyPrefix(all);
      var items := [];
      for k := 0 to |sorted|
        invariant |items| == k && forall i | 0 <= i < k :: items[i] == PrintMember(ms[i])
        invariant forall i | 0 <= i < k :: Sound(sorted[i].value, depth, maxDepth)
        invariant nodes == old(nodes) + NodesOfItems(all[..k]) <= maxNodes
      {
        PrefixStep(all, k);
        assert FromEntry(sorted[k], entries);
        ghost var origin :| 0 <= origin < |entries| && ComesFrom(sorted[k], entries[origin]);
        assert sorted[k].value < entries[origin];
        var value := EncodeValue(sorted[k].value, depth);
        if value.Failure? {
          UnsoundMember(sorted, k, depth, maxDepth);
          return Failure(value.error);
        }
        var quoted := QuoteString(FromScalars(sorted[k].key));
        KeyIsNormal(entries[origin].key);
        UnfoldMember(ms[k]);
        items := items + [quoted.value + ":" + value.value];
      }
      assert all[..|sorted|] == all;
      JoinMembers(items, ms);
      r := Success(items);
    }

    /** The first loop of the source: normalise every key and refuse a collision. */
    method NormalizeKeys(entries: seq<Entry>) returns (r: Result<seq<Keyed<Value>>, Error>)
      ensures r.Success? <==> forall e :: !KeysBreak(entries, e)
      ensures r.Success? ==> r.value == Pairs(entries)
      ensures r.Failure? ==> KeysBreak(entries, r.error)
    {
      hide NormalText, Normal, KeysBreak;
      var normalized: seq<Keyed<Value>> := [];
      for k := 0 to |entries|
        invariant normalized == Pairs(entries[..k])
        invariant forall i | 0 <= i < k :: entries[i].key.Text? && ScalarsOnly(entries[i].key.s)
        invariant forall i, j | 0 <= i < j < k :: KeyText(entries[i].key) != KeyText(entries[j].key)
      {
        var key := entries[k].key;
        if key.NotText? {
          BreaksAt(entries, k);
          return Failure(KeyType);
        }
        var text := NormalizeString(key.s);
        if text.Failure? {
          BreaksAt(entries, k);
          return Failure(text.error);
        }
        if exists i | 0 <= i < |normalized| :: normalized[i].key == text.value {
          ghost var i :| 0 <= i < |normalized| && normalized[i].key == text.value;
          BreaksTogether(entries, i, k);
          return Failure(KeyCollision);
        }
        normalized := normalized + [Keyed(text.value, entries[k].value)];
        assert forall i | 0 <= i < k :: Pairs(entries[..k])[i].key == KeyText(entries[i].key);
      }
      assert entries[..|entries|] == entries;
      NoneBreaks(entries);
      r := Success(normalized);
    }
  }

  lemma SoundList(items: seq<Value>, depth: nat, maxDepth: nat)
    ensures Sound(VList(items), depth, maxDepth) <==>
      depth + 1 <= maxDepth && forall i | 0 <= i < |items| :: Sound(items[i], depth + 1, maxDepth)
  {
    var v, d := VList(items), depth + 1;
    if Sound(v, depth, maxDepth) {
      assert !Breaks(v, depth, maxDepth, Depth);
      forall i | 0 <= i < |items| ensures Sound(items[i], d, maxDepth) {
        forall e ensures !Breaks(items[i], d, maxDepth, e) { assert !Breaks(v, depth, maxDepth, e); }
      }
    } else {
      var e :| Breaks(v, depth, maxDepth, e);
      if i :| 0 <= i < |items| && Breaks(items[i], d, maxDepth, e) {
        assert !Sound(items[i], d, maxDepth);
      }
    }
  }

  lemma SoundDict(entries: seq<Entry>, depth: nat, maxDepth: nat)
    ensures Sound(VDict(entries), depth, maxDepth) <==>
      && depth + 1 <= maxDepth && (forall e :: !KeysBreak(entries, e))
      && forall i | 0 <= i < |entries| :: Sound(entries[i].value, depth + 1, maxDepth)
  {
    hide KeysBreak;
    var v, d := VDict(entries), depth + 1;
    if Sound(v, depth, maxDepth) {
      assert !Breaks(v, depth, maxDepth, Depth);
      forall e ensures !KeysBreak(entries, e) { assert !Breaks(v, depth, maxDepth, e); }
      forall i | 0 <= i < |entries| ensures Sound(entries[i].value, d, maxDepth) {
        var member := entries[i].value;
        forall e ensures !Breaks(member, d, maxDepth, e) {
          assert !Breaks(v, depth, maxDepth, e);
          assert !EntryBreaks(entries[i], d, maxDepth, e);
        }
      }
    } else {
      var e :| Breaks(v, depth, maxDepth, e);
      if i :| 0 <= i < |entries| && EntryBreaks(entries[i], d, maxDepth, e) {
        assert Breaks(entries[i].value, d, maxDepth, e);
      }
    }
  }

  lemma UnsoundMember(sorted: seq<Keyed<Value>>, k: nat, depth: nat, maxDepth: nat)
    requires k < |sorted|
    ensures (exists e :: Breaks(sorted[k].value, depth, maxDepth, e)) ==> !Sound(sorted[k].value, depth, maxDepth)
  {
    hide Breaks;
  }

  lemma EmptyPrefix(all: seq<Json>)
    ensures NodesOfItems(all[..0]) == 0
  {
  }

  lemma PrefixStep(all: seq<Json>, k: nat)
    requires k < |all|
    ensures NodesOfItems(all[..k + 1]) == NodesOfItems(all[..k]) + NodeCount(all[k]) <= NodesOfItems(all)
  {
    hide NodesOfItems, NodeCount;
    assert all[..k + 1] == all[..k] + [all[k]];
    NodesOfItemsSnoc(all[..k], all[k]);
    NodesOfItemsPrefix(all, k + 1);
  }

  lemma UnfoldArray(items: seq<Json>)
    ensures Print(JArr(items)) == "[" + PrintItems(items) + "]"
  {
  }

  lemma UnfoldObject(ms: seq<Member>)
    ensures Print(JObj(ms)) == "{" + PrintMembers(ms) + "}"
  {
  }

  lemma UnfoldMember(m: Member)
    ensures PrintMember(m) == Quote(m.key) + ":" + Print(m.value)
  {
  }

  lemma KeyIsNormal(k: Key)
    requires k.Text? && ScalarsOnly(k.s)
    ensures QuoteString(FromScalars(KeyText(k))) == Success(Quote(KeyText(k)))
  {
    NormalTextIdempotent(ReplaceCr(ReplaceCrLf(Scalars(k.s))));
    NormalTextIdempotent(Scalars(k.s));
  }

  /** `canonical_json_bytes`: exactly the encodable values succeed, with the normal form's UTF-8 bytes. */
  method CanonicalJsonBytes(v: Value, maxDepth: int, maxNodes: int, maxBytes: int)
    returns (r: Result<seq<nat>, Error>)
    ensures r.Success? <==>
      maxDepth >= 1 && maxNodes >= 1 && maxBytes >= 1 && Encodable(v, maxDepth, maxNodes, maxBytes)
    ensures r.Success? ==> r.value == Utf8(Print(Normal(v)))
    ensures r.Failure? ==>
      match r.error
      case BadLimit => maxDepth < 1 || maxNodes < 1 || maxBytes < 1
      case Size => |Utf8(Print(Normal(v)))| > maxBytes
      case Nodes => maxNodes >= 0 && NodeCount(Normal(v)) > maxNodes
      case e => maxDepth >= 0 && Breaks(v, 0, maxDepth, e)
  {
    if maxDepth < 1 || maxNodes < 1 || maxBytes < 1 {
      return Failure(BadLimit);
    }
    var encoder := new CanonicalEncoder(maxDepth, maxNodes);
    var text := encoder.EncodeValue(v, 0);
    if text.Failure? {
      if text.error in {Nodes, Size, BadLimit} { NoBudgetFaults(v, 0, maxDepth, text.error); }
      return Failure(text.error);
    }
    var encoded := Utf8(text.value);
    r := if |encoded| > maxBytes then Failure(Size) else Success(encoded);
  }

  /** Node, byte and argument limits are never a fault of the value itself. */
  lemma {:induction false} NoBudgetFaults(v: Value, depth: nat, maxDepth: nat, e: Error)
    requires e in {Nodes, Size, BadLimit}
    ensures !Breaks(v, depth, maxDepth, e)
    decreases v
  {
    match v
    case VList(items) =>
      forall i | 0 <= i < |items| ensures !Breaks(items[i], depth + 1, maxDepth, e) {
        NoBudgetFaults(items[i], depth + 1, maxDepth, e);
      }
    case VDict(entries) =>
      forall i | 0 <= i < |entries| ensures !EntryBreaks(entries[i], depth + 1, maxDepth, e) {
        var entry := entries[i];
        NoBudgetFaults(entry.value, depth + 1, maxDepth, e);
      }
    case _ =>
  }
}

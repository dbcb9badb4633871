/** UTF-8 and the byte order the encoder sorts object keys by. */
module Utf8Order {
  /** RFC 3629: the bytes of one scalar value. */
  function Bytes(c: char): (b: seq<nat>)
    ensures 1 <= |b| <= 4
  {
    var n := c as int;
    if n < 0x80 then [n]
    else if n < 0x800 then [0xC0 + n / 64, 0x80 + n % 64]
    else if n < 0x1_0000 then [0xE0 + n / 4096, 0x80 + n / 64 % 64, 0x80 + n % 64]
    else [0xF0 + n / 262144, 0x80 + n / 4096 % 64, 0x80 + n / 64 % 64, 0x80 + n % 64]
  }

  /** Section 3 of RFC 3629: the shortest form, whose lead byte tells its length and whose other bytes carry six bits each. */
  lemma BytesAreUtf8(c: char)
    ensures var b, n := Bytes(c), c as int;
      && |b| == (if n < 0x80 then 1 else if n < 0x800 then 2 else if n < 0x1_0000 then 3 else 4)
      && (forall i | 1 <= i < |b| :: 0x80 <= b[i] <= 0xBF)
      && (|b| == 1 ==> b[0] == n)
      && (|b| == 2 ==> 0xC2 <= b[0] <= 0xDF && n == 64 * (b[0] - 0xC0) + (b[1] - 0x80))
      && (|b| == 3 ==> 0xE0 <= b[0] <= 0xEF && n == 4096 * (b[0] - 0xE0) + 64 * (b[1] - 0x80) + (b[2] - 0x80))
      && (|b| == 4 ==>
            && 0xF0 <= b[0] <= 0xF4
            && n == 262144 * (b[0] - 0xF0) + 4096 * (b[1] - 0x80) + 64 * (b[2] - 0x80) + (b[3] - 0x80))
  {
    var n := c as int;
    NestedDivision(n);
    assert n == 64 * (n / 64) + n % 64 && n / 64 == 64 * (n / 64 / 64) + n / 64 % 64;
    assert n / 4096 == 64 * (n / 4096 / 64) + n / 4096 % 64;
  }

  /** `str.encode("utf-8")`. */
  function Utf8(s: string): seq<nat> {
    if s == "" then [] else Bytes(s[0]) + Utf8(s[1..])
  }

  /** Strict lexicographic order. */
  predicate Lex(a: seq<nat>, b: seq<nat>) {
    b != [] && (a == [] || a[0] < b[0] || (a[0] == b[0] && Lex(a[1..], b[1..])))
  }

  /** `sorted(..., key=lambda k: k.encode("utf-8"))`. */
  predicate Before(a: string, b: string) { Lex(Utf8(a), Utf8(b)) }

  function Codes(s: string): seq<nat> { seq(|s|, i requires 0 <= i < |s| => s[i] as int) }

  lemma {:induction false} LexCommonPrefix(p: seq<nat>, a: seq<nat>, b: seq<nat>)
    ensures Lex(p + a, p + b) == Lex(a, b)
  {
    if p == [] {
      assert p + a == a && p + b == b;
    } else {
      assert (p + a)[1..] == p[1..] + a && (p + b)[1..] == p[1..] + b;
      LexCommonPrefix(p[1..], a, b);
    }
  }

  lemma LexAtDifference(p: seq<nat>, x: nat, a: seq<nat>, y: nat, b: seq<nat>)
    requires x < y
    ensures Lex(p + [x] + a, p + [y] + b) && !Lex(p + [y] + b, p + [x] + a)
  {
    assert p + [x] + a == p + ([x] + a) && p + [y] + b == p + ([y] + b);
    LexCommonPrefix(p, [x] + a, [y] + b);
    LexCommonPrefix(p, [y] + b, [x] + a);
  }

  lemma SextetOrder(m: nat, n: nat)
    requires m < n
    ensures m / 64 < n / 64 || (m / 64 == n / 64 && m % 64 < n % 64)
  {
  }

  lemma NestedDivision(n: nat)
    ensures n / 64 / 64 == n / 4096 && n / 4096 / 64 == n / 262144
  {
  }

  /** Two scalars differ first at a byte that orders them as their code points do. */
  lemma FirstDifference(c: char, d: char) returns (k: nat)
    requires c < d
    ensures k < |Bytes(c)| && k < |Bytes(d)| && Bytes(c)[..k] == Bytes(d)[..k] && Bytes(c)[k] < Bytes(d)[k]
  {
    var m, n := c as int, d as int;
    if |Bytes(c)| < |Bytes(d)| || m < 0x80 {
      k := 0;
      return;
    }
    if n < 0x800 {
      k := TwoBytes(c, d);
    } else if n < 0x1_0000 {
      k := ThreeBytes(c, d);
    } else {
      k := FourBytes(c, d);
    }
  }

  lemma TwoBytes(c: char, d: char) returns (k: nat)
    requires 0x80 <= c as int < d as int < 0x800
    ensures k < 2 && |Bytes(c)| == |Bytes(d)| == 2 && Bytes(c)[..k] == Bytes(d)[..k] && Bytes(c)[k] < Bytes(d)[k]
  {
    var m, n := c as int, d as int;
    SextetOrder(m, n);
    k := if m / 64 == n / 64 then 1 else 0;
  }

  lemma ThreeBytes(c: char, d: char) returns (k: nat)
    requires 0x800 <= c as int < d as int < 0x1_0000
    ensures k < 3 && |Bytes(c)| == |Bytes(d)| == 3 && Bytes(c)[..k] == Bytes(d)[..k] && Bytes(c)[k] < Bytes(d)[k]
  {
    var m, n := c as int, d as int;
    SextetOrder(m, n);
    NestedDivision(m); NestedDivision(n);
    if m / 64 == n / 64 {
      k := 2;
    } else {
      SextetOrder(m / 64, n / 64);
      k := if m / 4096 == n / 4096 then 1 else 0;
    }
  }

  lemma FourBytes(c: char, d: char) returns (k: nat)
    requires 0x1_0000 <= c as int < d as int
    ensures k < 4 && |Bytes(c)| == |Bytes(d)| == 4 && Bytes(c)[..k] == Bytes(d)[..k] && Bytes(c)[k] < Bytes(d)[k]
  {
    var m, n := c as int, d as int;
    SextetOrder(m, n);
    NestedDivision(m); NestedDivision(n);
    if m / 64 == n / 64 {
      k := 3;
    } else {
      SextetOrder(m / 64, n / 64);
      if m / 4096 == n / 4096 {
        k := 2;
      } else {
        SextetOrder(m / 4096, n / 4096);
        k := if m / 262144 == n / 262144 then 1 else 0;
      }
    }
  }

  lemma ScalarsDecide(c: char, a: string, d: char, b: string)
    requires c < d
    ensures Lex(Bytes(c) + Utf8(a), Bytes(d) + Utf8(b)) && !Lex(Bytes(d) + Utf8(b), Bytes(c) + Utf8(a))
  {
    hide Bytes;
    var k := FirstDifference(c, d);
    var p := Bytes(c)[..k];
    var x, y := Bytes(c)[k], Bytes(d)[k];
    var u, v := Bytes(c)[k + 1..] + Utf8(a), Bytes(d)[k + 1..] + Utf8(b);
    assert Bytes(c) + Utf8(a) == p + [x] + u;
    assert Bytes(d) + Utf8(b) == p + [y] + v;
    LexAtDifference(p, x, u, y, v);
  }

  /** UTF-8 byte order is code point order. */
  lemma {:induction false} ByteOrderIsCodePointOrder(a: string, b: string)
    ensures Before(a, b) == Lex(Codes(a), Codes(b))
  {
    hide Bytes;
    if a != "" && b != "" {
      assert Codes(a)[1..] == Codes(a[1..]) && Codes(b)[1..] == Codes(b[1..]);
      if a[0] < b[0] {
        ScalarsDecide(a[0], a[1..], b[0], b[1..]);
      } else if b[0] < a[0] {
        ScalarsDecide(b[0], b[1..], a[0], a[1..]);
      } else {
        LexCommonPrefix(Bytes(a[0]), Utf8(a[1..]), Utf8(b[1..]));
        ByteOrderIsCodePointOrder(a[1..], b[1..]);
      }
    }
  }

  lemma {:induction false} LexTotal(a: seq<nat>, b: seq<nat>)
    ensures a == b || Lex(a, b) || Lex(b, a)
    ensures !(Lex(a, b) && Lex(b, a)) && !Lex(a, a)
  {
    if a != [] {
      LexTotal(a[1..], a[1..]);
      if b != [] && a[0] == b[0] {
        LexTotal(a[1..], b[1..]);
        assert a == [a[0]] + a[1..] && b == [b[0]] + b[1..];
      }
    }
  }

  lemma {:induction false} LexTransitive(a: seq<nat>, b: seq<nat>, c: seq<nat>)
    requires Lex(a, b) && Lex(b, c)
    ensures Lex(a, c)
  {
    if a != [] && a[0] == b[0] == c[0] { LexTransitive(a[1..], b[1..], c[1..]); }
  }

  /** `Before` is a strict total order on strings. */
  lemma BeforeTotal(a: string, b: string)
    ensures a == b || Before(a, b) || Before(b, a)
    ensures !(Before(a, b) && Before(b, a)) && !Before(a, a)
  {
    ByteOrderIsCodePointOrder(a, b);
    ByteOrderIsCodePointOrder(b, a);
    ByteOrderIsCodePointOrder(a, a);
    LexTotal(Codes(a), Codes(b));
    if Codes(a) == Codes(b) {
      assert |a| == |b|;
      assert forall i | 0 <= i < |a| :: Codes(a)[i] == a[i] as int && Codes(b)[i] == b[i] as int;
      assert a == b;
    }
  }

  lemma BeforeTransitive(a: string, b: string, c: string)
    requires Before(a, b) && Before(b, c)
    ensures Before(a, c)
  {
    LexTransitive(Utf8(a), Utf8(b), Utf8(c));
  }

  /** A text of ASCII characters takes one byte each. */
  lemma {:induction false} AsciiLength(s: string)
    requires forall i | 0 <= i < |s| :: s[i] < '\U{80}'
    ensures |Utf8(s)| == |s|
  {
    if s != "" { AsciiLength(s[1..]); }
  }
}

/** `sorted` on key-value pairs by key. */
module KeySort {
  import opened Utf8Order
  import opened JsonText

  ghost predicate Sorted<V>(s: seq<Keyed<V>>) {
    forall i, j | 0 <= i < j < |s| :: Before(s[i].key, s[j].key)
  }

  ghost predicate DistinctKeys<V>(s: seq<Keyed<V>>) {
    forall i, j | 0 <= i < j < |s| :: s[i].key != s[j].key
  }

  function Insert<V>(p: Keyed<V>, s: seq<Keyed<V>>): seq<Keyed<V>> {
    if s == [] || Before(p.key, s[0].key) then [p] + s else [s[0]] + Insert(p, s[1..])
  }

  function Sort<V>(s: seq<Keyed<V>>): seq<Keyed<V>> {
    if s == [] then [] else Insert(s[0], Sort(s[1..]))
  }

  lemma {:induction false} InsertKeeps<V>(p: Keyed<V>, s: seq<Keyed<V>>)
    ensures multiset(Insert(p, s)) == multiset(s) + multiset{p}
    ensures |Insert(p, s)| == |s| + 1
  {
    if s != [] && !Before(p.key, s[0].key) {
      InsertKeeps(p, s[1..]);
      assert s == [s[0]] + s[1..];
    }
  }

  lemma {:induction false} SortKeeps<V>(s: seq<Keyed<V>>)
    ensures multiset(Sort(s)) == multiset(s) && |Sort(s)| == |s|
  {
    if s != [] {
      SortKeeps(s[1..]);
      InsertKeeps(s[0], Sort(s[1..]));
      assert s == [s[0]] + s[1..];
    }
  }

  lemma {:induction false} InsertSorts<V>(p: Keyed<V>, s: seq<Keyed<V>>)
    requires Sorted(s) && forall q <- s :: q.key != p.key
    ensures Sorted(Insert(p, s))
  {
    hide Before;
    if s == [] {
    } else if Before(p.key, s[0].key) {
      forall j | 0 < j < |s| ensures Before(p.key, s[j].key) { BeforeTransitive(p.key, s[0].key, s[j].key); }
    } else {
      BeforeTotal(p.key, s[0].key);
      InsertSorts(p, s[1..]);
      InsertKeeps(p, s[1..]);
      var r := Insert(p, s[1..]);
      forall j | 0 <= j < |r| ensures Before(s[0].key, r[j].key) {
        assert r[j] in multiset(r);
      }
    }
  }

  lemma {:induction false} SortSorts<V>(s: seq<Keyed<V>>)
    requires DistinctKeys(s)
    ensures Sorted(Sort(s))
  {
    hide Insert, Before;
    if s != [] {
      SortSorts(s[1..]);
      SortKeeps(s[1..]);
      forall q <- Sort(s[1..]) ensures q.key != s[0].key {
        assert q in multiset(s[1..]);
      }
      InsertSorts(s[0], Sort(s[1..]));
    }
  }

  /** A sorted list is determined by its elements. */
  lemma {:induction false} SortedUnique<V>(s: seq<Keyed<V>>, t: seq<Keyed<V>>)
    requires Sorted(s) && Sorted(t) && multiset(s) == multiset(t)
    ensures s == t
  {
    hide Before;
    if s == [] {
      assert |multiset(t)| == 0;
    } else {
      HeadsAgree(s, t);
      TailElements(s); TailElements(t);
      SortedUnique(s[1..], t[1..]);
      assert s == [s[0]] + s[1..] && t == [t[0]] + t[1..];
    }
  }

  lemma TailElements<V>(s: seq<V>)
    requires s != []
    ensures multiset(s[1..]) == multiset(s) - multiset{s[0]}
  {
    assert s == [s[0]] + s[1..];
  }

  lemma HeadsAgree<V>(s: seq<Keyed<V>>, t: seq<Keyed<V>>)
    requires s != [] && Sorted(s) && Sorted(t) && multiset(s) == multiset(t)
    ensures t != [] && s[0] == t[0]
  {
    hide Before, Sorted;
    assert s[0] in multiset(t);
    assert t[0] in multiset(s);
    HeadIsLeast(s, t[0]);
    HeadIsLeast(t, s[0]);
    BeforeTotal(s[0].key, t[0].key);
  }

  lemma HeadIsLeast<V>(s: seq<Keyed<V>>, p: Keyed<V>)
    requires Sorted(s) && p in s
    ensures p == s[0] || Before(s[0].key, p.key)
  {
    hide Before;
  }

  /** Sorting ignores insertion order. */
  lemma SortIgnoresOrder<V>(s: seq<Keyed<V>>, t: seq<Keyed<V>>)
    requires DistinctKeys(s) && multiset(s) == multiset(t)
    ensures Sort(s) == Sort(t)
  {
    hide Sort;
    DistinctTransfers(s, t);
    SortSorts(s); SortSorts(t);
    SortKeeps(s); SortKeeps(t);
    SortedUnique(Sort(s), Sort(t));
  }

  lemma DistinctTransfers<V>(s: seq<Keyed<V>>, t: seq<Keyed<V>>)
    requires DistinctKeys(s) && multiset(s) == multiset(t)
    ensures DistinctKeys(t)
  {
    forall i, j | 0 <= i < j < |t| ensures t[i].key != t[j].key {
      if t[i].key == t[j].key {
        assert t[i] in multiset(s) && t[j] in multiset(s);
        assert t[i] == t[j];
        var p := t[i];
        CountTwice(t, i, j);
        CountOnce(s, p);
      }
    }
  }

  lemma CountTwice<V>(t: seq<V>, i: nat, j: nat)
    requires i < j < |t| && t[i] == t[j]
    ensures multiset(t)[t[i]] >= 2
  {
    assert t == t[..j] + [t[j]] + t[j + 1..];
    assert t[i] in t[..j];
  }

  lemma {:induction false} CountOnce<V>(s: seq<Keyed<V>>, p: Keyed<V>)
    requires DistinctKeys(s)
    ensures multiset(s)[p] <= 1
  {
    if s != [] {
      assert s == [s[0]] + s[1..];
      CountOnce(s[1..], p);
    }
  }

  function MapValues<V, W>(s: seq<Keyed<V>>, f: V -> W): (r: seq<Keyed<W>>)
    ensures |r| == |s| && forall i | 0 <= i < |s| :: r[i] == Keyed(s[i].key, f(s[i].value))
  {
    seq(|s|, i requires 0 <= i < |s| => Keyed(s[i].key, f(s[i].value)))
  }

  lemma {:induction false} SortCommutesWithMap<V, W>(s: seq<Keyed<V>>, f: V -> W)
    ensures Sort(MapValues(s, f)) == MapValues(Sort(s), f)
  {
    if s != [] {
      assert MapValues(s, f)[1..] == MapValues(s[1..], f);
      SortCommutesWithMap(s[1..], f);
      InsertCommutesWithMap(s[0], Sort(s[1..]), f);
    }
  }

  lemma {:induction false} InsertCommutesWithMap<V, W>(p: Keyed<V>, s: seq<Keyed<V>>, f: V -> W)
    ensures Insert(Keyed(p.key, f(p.value)), MapValues(s, f)) == MapValues(Insert(p, s), f)
  {
    hide Before;
    if s != [] && !Before(p.key, s[0].key) {
      assert MapValues(s, f)[1..] == MapValues(s[1..], f);
      InsertCommutesWithMap(p, s[1..], f);
      assert MapValues(Insert(p, s), f) == [MapValues(s, f)[0]] + MapValues(Insert(p, s[1..]), f);
    } else {
      assert MapValues([p] + s, f) == [Keyed(p.key, f(p.value))] + MapValues(s, f);
    }
  }
}

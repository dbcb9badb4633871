/** CanonicalJSONV1: the values it accepts, their normal form, and the budgeted encoder. */
module Canonical {
  import opened JsonText
  import opened Utf8Order
  import opened KeySort
  import opened Clock

  const MIN_CANONICAL_INT: int := -0x8000_0000_0000_0000
  const MAX_CANONICAL_INT: int := 0x7fff_ffff_ffff_ffff
  const DEFAULT_MAX_DEPTH: nat := 32
  const DEFAULT_MAX_NODES: nat := 10_000

  // ---- values --------------------------------------------------------------------------------

  /** One character of a Python `str`, which may hold lone surrogates. */
  datatype PyChar = Scalar(c: char) | Surrogate(code: nat)
  type PyStr = seq<PyChar>

  /** A `float`; a non-integral one is its `Decimal(repr(value))`. */
  datatype PyFloat = NonFinite | NegativeZero | Integral(n: int) | Fractional(d: Fraction)

  datatype PyTime = Aware(at: Instant) | Unusable

  datatype Key = Text(s: PyStr) | NotText

  datatype Entry = Entry(key: Key, value: Value)

  /** A dictionary is its entries in insertion order. */
  datatype Value =
    | VNull
    | VBool(b: bool)
    | VInt(n: int)
    | VFloat(f: PyFloat)
    | VStr(s: PyStr)
    | VTime(t: PyTime)
    | VList(items: seq<Value>)
    | VDict(entries: seq<Entry>)
    | VOther

  /** The error kinds, named after the source's codes. */
  datatype Error =
    | Unicode | IntegerRange | FloatNotFinite | Timestamp | UnsupportedType | Depth | KeyType | KeyCollision
    | Nodes | Size | BadLimit

  // ---- strings -------------------------------------------------------------------------------

  /** What is used of NFC: idempotent, the identity on ASCII, and never introducing a carriage return. */
  ghost predicate NormalizerLaws(f: string -> string) {
    && (forall s :: f(f(s)) == f(s))
    && (forall s :: IsAscii(s) ==> f(s) == s)
    && (forall s :: '\r' !in s ==> '\r' !in f(s))
  }

  type Normalizer = f: string -> string | NormalizerLaws(f) witness (s: string) => s

  /** `unicodedata.normalize("NFC", _)`, uninterpreted beyond those laws. */
  const NFC: Normalizer

  predicate IsAscii(s: string) { forall i | 0 <= i < |s| :: s[i] < '\U{80}' }

  predicate ScalarsOnly(s: PyStr) { forall i | 0 <= i < |s| :: s[i].Scalar? }

  function Scalars(s: PyStr): string
    requires ScalarsOnly(s)
  {
    seq(|s|, i requires 0 <= i < |s| => s[i].c)
  }

  function FromScalars(s: string): (r: PyStr)
    ensures ScalarsOnly(r) && Scalars(r) == s
  {
    seq(|s|, i requires 0 <= i < |s| => Scalar(s[i]))
  }

  /** `value.replace("\r\n", "\n")`. */
  function ReplaceCrLf(s: string): string {
    if |s| >= 2 && s[0] == '\r' && s[1] == '\n' then "\n" + ReplaceCrLf(s[2..])
    else if s == "" then "" else [s[0]] + ReplaceCrLf(s[1..])
  }

  /** `value.replace("\r", "\n")`. */
  function ReplaceCr(s: string): (r: string)
    ensures '\r' !in r && ('\r' !in s ==> r == s)
  {
    seq(|s|, i requires 0 <= i < |s| => if s[i] == '\r' then '\n' else s[i])
  }

  function NormalText(s: string): string { NFC(ReplaceCr(ReplaceCrLf(s))) }

  lemma {:induction false} NoCrLf(s: string)
    requires '\r' !in s
    ensures ReplaceCrLf(s) == s
  {
    if s != "" { NoCrLf(s[1..]); }
  }

  lemma NormalTextIdempotent(s: string)
    ensures NormalText(NormalText(s)) == NormalText(s) && '\r' !in NormalText(s)
  {
    var t := NormalText(s);
    NoCrLf(t);
  }

  lemma NormalTextOfAscii(s: string)
    requires IsAscii(s) && '\r' !in s
    ensures NormalText(s) == s
  {
    NoCrLf(s);
  }

  // ---- what folding a text does ----------------------------------------------------------------------------

  /** A text without carriage returns is only NFC-normalised. */
  lemma WithoutCrIsNfc(s: string)
    requires '\r' !in s
    ensures NormalText(s) == NFC(s)
  {
    NoCrLf(s);
  }

  /** CR LF folds to a line feed, and so does a CR that no line feed follows. With `WithoutCrIsNfc` that determines the
      folding of every text, from its first carriage return on. */
  lemma LineEndsFold(a: string, b: string)
    requires a == "" || a[|a| - 1] != '\r'
    ensures NormalText(a + "\r\n" + b) == NormalText(a + "\n" + b)
    ensures b == "" || b[0] != '\n' ==> NormalText(a + "\r" + b) == NormalText(a + "\n" + b)
  {
    hide ReplaceCrLf;
    CrLfSplits(a, "\r\n" + b);
    CrLfSplits(a, "\n" + b);
    CrLfSplits(a, "\r" + b);
    assert a + "\r\n" + b == a + ("\r\n" + b) && a + "\n" + b == a + ("\n" + b) && a + "\r" + b == a + ("\r" + b);
    LeadingLineEnd(b);
    if b == "" || b[0] != '\n' {
      assert ReplaceCr(ReplaceCrLf(a) + ("\r" + ReplaceCrLf(b))) == ReplaceCr(ReplaceCrLf(a) + ("\n" + ReplaceCrLf(b)));
    }
  }

  lemma LeadingLineEnd(b: string)
    ensures ReplaceCrLf("\r\n" + b) == "\n" + ReplaceCrLf(b) == ReplaceCrLf("\n" + b)
    ensures b == "" || b[0] != '\n' ==> ReplaceCrLf("\r" + b) == "\r" + ReplaceCrLf(b)
  {
    assert ("\r\n" + b)[2..] == b && ("\n" + b)[1..] == b && ("\r" + b)[1..] == b;
  }

  lemma {:induction false} CrLfSplits(a: string, b: string)
    requires a == "" || a[|a| - 1] != '\r'
    ensures ReplaceCrLf(a + b) == ReplaceCrLf(a) + ReplaceCrLf(b)
  {
    hide ReplaceCrLf;
    if a == "" {
      assert a + b == b && ReplaceCrLf(a) == "" by { UnfoldReplace(a); }
    } else if |a| >= 2 && a[0] == '\r' && a[1] == '\n' {
      CrLfSplits(a[2..], b);
      FoldsFirst(a, b, 2);
    } else {
      CrLfSplits(a[1..], b);
      FoldsFirst(a, b, 1);
    }
  }

  /** The first line end or character folds alike in a text and in a longer one. */
  lemma FoldsFirst(a: string, b: string, k: nat)
    requires a != "" && k == (if |a| >= 2 && a[0] == '\r' && a[1] == '\n' then 2 else 1)
    requires a[|a| - 1] != '\r' && ReplaceCrLf(a[k..] + b) == ReplaceCrLf(a[k..]) + ReplaceCrLf(b)
    ensures ReplaceCrLf(a + b) == ReplaceCrLf(a) + ReplaceCrLf(b)
  {
    hide ReplaceCrLf;
    UnfoldReplace(a);
    UnfoldReplace(a + b);
    assert (a + b)[k..] == a[k..] + b && (a + b)[0] == a[0];
    var first := if k == 2 then "\n" else [a[0]];
    assert ReplaceCrLf(a) == first + ReplaceCrLf(a[k..]);
    assert ReplaceCrLf(a + b) == first + (ReplaceCrLf(a[k..]) + ReplaceCrLf(b));
  }

  lemma UnfoldReplace(s: string)
    ensures ReplaceCrLf(s) ==
      if s == "" then ""
      else if |s| >= 2 && s[0] == '\r' && s[1] == '\n' then "\n" + ReplaceCrLf(s[2..])
      else [s[0]] + ReplaceCrLf(s[1..])
  {
  }

  // ---- the normal form and the reasons there may be none ---------------------------------------

  predicate Signed64(n: int) { MIN_CANONICAL_INT <= n <= MAX_CANONICAL_INT }

  function KeyText(k: Key): string {
    if k.Text? && ScalarsOnly(k.s) then NormalText(Scalars(k.s)) else ""
  }

  /** The JSON value the encoder prints for `v`, when it prints one. */
  function Normal(v: Value): Json
    decreases v
  {
    match v
    case VBool(b) => JBool(b)
    case VInt(n) => JInt(n)
    case VFloat(Integral(n)) => JInt(n)
    case VFloat(NegativeZero) => JInt(0)
    case VFloat(Fractional(d)) => JDec(d)
    case VStr(s) => if ScalarsOnly(s) then JStr(NormalText(Scalars(s))) else JNull
    case VTime(Aware(t)) => JStr(FormatTimestamp(t))
    case VList(items) => JArr(seq(|items|, i requires 0 <= i < |items| => Normal(items[i])))
    case VDict(entries) => JObj(Sort(NormalMembers(entries)))
    case _ => JNull
  }

  function NormalMember(e: Entry): Member
    decreases e
  {
    Keyed(KeyText(e.key), Normal(e.value))
  }

  function NormalMembers(entries: seq<Entry>): (r: seq<Member>)
    ensures |r| == |entries| && forall i | 0 <= i < |r| :: r[i] == NormalMember(entries[i])
    decreases entries
  {
    seq(|entries|, i requires 0 <= i < |entries| => NormalMember(entries[i]))
  }

  ghost predicate Collide(entries: seq<Entry>) {
    exists i, j | 0 <= i < j < |entries| :: KeyText(entries[i].key) == KeyText(entries[j].key)
  }

  ghost predicate KeysBreak(entries: seq<Entry>, e: Error) {
    match e
    case KeyType => exists i | 0 <= i < |entries| :: entries[i].key.NotText?
    case Unicode => exists i | 0 <= i < |entries| :: entries[i].key.Text? && !ScalarsOnly(entries[i].key.s)
    case KeyCollision => Collide(entries)
    case _ => false
  }

  /** Whether `v`, met inside `depth` containers, breaks rule `e`; node and byte budgets aside. */
  ghost predicate Breaks(v: Value, depth: nat, maxDepth: nat, e: Error)
    decreases v
  {
    match v
    case VInt(n) => e == IntegerRange && !Signed64(n)
    case VFloat(NonFinite) => e == FloatNotFinite
    case VFloat(Integral(n)) => e == IntegerRange && !Signed64(n)
    case VStr(s) => e == Unicode && !ScalarsOnly(s)
    case VTime(t) => e == Timestamp && !(t.Aware? && InRange(t.at))
    case VList(items) =>
      || (e == Depth && depth + 1 > maxDepth)
      || exists i | 0 <= i < |items| :: Breaks(items[i], depth + 1, maxDepth, e)
    case VDict(entries) =>
      || (e == Depth && depth + 1 > maxDepth)
      || KeysBreak(entries, e)
      || exists i | 0 <= i < |entries| :: EntryBreaks(entries[i], depth + 1, maxDepth, e)
    case VOther => e == UnsupportedType
    case _ => false
  }

  ghost predicate EntryBreaks(entry: Entry, depth: nat, maxDepth: nat, e: Error)
    decreases entry
  {
    Breaks(entry.value, depth, maxDepth, e)
  }

  ghost predicate Sound(v: Value, depth: nat, maxDepth: nat) { forall e :: !Breaks(v, depth, maxDepth, e) }

  /** How many values the encoder visits: one per scalar, list or dictionary; keys are free. */
  function NodeCount(j: Json): (n: nat)
    ensures n >= 1
    decreases j, 1
  {
    match j
    case JArr(items) => 1 + NodesOfItems(items)
    case JObj(ms) => 1 + NodesOfMembers(ms)
    case _ => 1
  }

  function NodesOfItems(items: seq<Json>): nat
    decreases items, 0
  {
    if items == [] then 0 else NodeCount(items[0]) + NodesOfItems(items[1..])
  }

  function NodesOfMembers(ms: seq<Member>): nat
    decreases ms, 0
  {
    if ms == [] then 0 else NodeCount(ms[0].value) + NodesOfMembers(ms[1..])
  }

  /** The specification of `canonical_json_bytes`: the text exists exactly when every limit holds. */
  ghost predicate Encodable(v: Value, maxDepth: nat, maxNodes: nat, maxBytes: nat) {
    && Sound(v, 0, maxDepth)
    && NodeCount(Normal(v)) <= maxNodes
    && |Utf8(Print(Normal(v)))| <= maxBytes
  }
}

/** The header and trailer lines of a stored log segment. */
module LogWire {
  import opened Common
  import opened Decimals
  import opened JsonText
  import opened JsonRoundTrip
  import opened Utf8Order
  import opened KeySort
  import opened Clock
  import opened Canonical
  import opened CanonicalTheorems
  import opened LineProjection

  const MAX_HEADER_LINE_BYTES: nat := 1_024
  const MAX_TRAILER_LINE_BYTES: nat := 1_024
  const MAX_LOG_RETENTION_DAYS: nat := 3_650

  predicate IsHex64(s: string) { |s| == 64 && forall i | 0 <= i < 64 :: IsDigit(s[i]) || 'a' <= s[i] <= 'f' }

  type Hex64 = s: string | IsHex64(s) witness seq(64, _ => '0')

  /** SHA-256 in lower-case hexadecimal, uninterpreted: some fixed function to 64 hex digits. */
  const SHA256: string -> Hex64

  datatype Header = Header(sequence: int, openedAt: Instant, retentionDays: int) {
    predicate Valid() {
      0 < sequence <= MAX_CANONICAL_INT && InRange(openedAt) && 1 <= retentionDays <= MAX_LOG_RETENTION_DAYS
    }
  }

  datatype Trailer = Trailer(
    sequence: int, closedAt: Instant, lastEventAt: Option<Instant>, eventCount: int, contentSha256: string,
    expiresAt: Instant)
  {
    predicate Valid() {
      && 0 < sequence <= MAX_CANONICAL_INT && InRange(closedAt) && InRange(expiresAt)
      && 0 <= eventCount <= MAX_CANONICAL_INT && IsHex64(contentSha256)
      && (eventCount == 0 <==> lastEventAt.None?) && (lastEventAt.Some? ==> InRange(lastEventAt.value))
    }
  }

  // ---- projections -----------------------------------------------------------------------------

  /** The dictionary `structured_log_header_line` builds, in its own order. */
  function HeaderEntries(h: Header): seq<Entry> {
    [ TextEntry("schema", VInt(1)),
      TextEntry("line", VStr(FromScalars("header"))),
      TextEntry("scope", VStr(FromScalars("installation"))),
      TextEntry("sequence", VInt(h.sequence)),
      TextEntry("opened_at", VTime(Aware(h.openedAt))),
      TextEntry("retention_days", VInt(h.retentionDays)) ]
  }

  function HeaderMembers(h: Header): seq<Member> {
    [ Keyed("line", JStr("header")),
      Keyed("opened_at", JStr(FormatTimestamp(h.openedAt))),
      Keyed("retention_days", JInt(h.retentionDays)),
      Keyed("schema", JInt(1)),
      Keyed("scope", JStr("installation")),
      Keyed("sequence", JInt(h.sequence)) ]
  }

  function HeaderLine(h: Header): string { Print(JObj(HeaderMembers(h))) + "\n" }

  function OptionalTime(t: Option<Instant>): Value { if t.Some? then VTime(Aware(t.value)) else VNull }

  function TrailerEntries(t: Trailer): seq<Entry> {
    [ TextEntry("schema", VInt(1)),
      TextEntry("line", VStr(FromScalars("trailer"))),
      TextEntry("sequence", VInt(t.sequence)),
      TextEntry("closed_at", VTime(Aware(t.closedAt))),
      TextEntry("last_event_at", OptionalTime(t.lastEventAt)),
      TextEntry("event_count", VInt(t.eventCount)),
      TextEntry("content_sha256", VStr(FromScalars(t.contentSha256))),
      TextEntry("expires_at", VTime(Aware(t.expiresAt))) ]
  }

  function TrailerMembers(t: Trailer): seq<Member> {
    [ Keyed("closed_at", JStr(FormatTimestamp(t.closedAt))),
      Keyed("content_sha256", JStr(t.contentSha256)),
      Keyed("event_count", JInt(t.eventCount)),
      Keyed("expires_at", JStr(FormatTimestamp(t.expiresAt))),
      Keyed("last_event_at", if t.lastEventAt.Some? then JStr(FormatTimestamp(t.lastEventAt.value)) else JNull),
      Keyed("line", JStr("trailer")),
      Keyed("schema", JInt(1)),
      Keyed("sequence", JInt(t.sequence)) ]
  }

  function TrailerLine(t: Trailer): string { Print(JObj(TrailerMembers(t))) + "\n" }

  // ---- what the projections emit -----------------------------------------------------------------

  lemma EntryNormal(key: string, value: Value)
    requires Plain(key)
    ensures NormalMember(TextEntry(key, value)) == Keyed(key, Normal(value))
  {
    PlainIsNormal(key);
  }

  lemma TextNormal(key: string, text: string)
    requires Plain(key) && Plain(text)
    ensures NormalMember(TextEntry(key, VStr(FromScalars(text)))) == Keyed(key, JStr(text))
  {
    EntryNormal(key, VStr(FromScalars(text)));
    PlainIsNormal(text);
  }

  lemma IntNormal(key: string, n: int)
    requires Plain(key)
    ensures NormalMember(TextEntry(key, VInt(n))) == Keyed(key, JInt(n))
  {
    EntryNormal(key, VInt(n));
  }

  lemma TimeNormal(key: string, t: Instant)
    requires Plain(key)
    ensures NormalMember(TextEntry(key, VTime(Aware(t)))) == Keyed(key, JStr(FormatTimestamp(t)))
  {
    hide FormatTimestamp;
    EntryNormal(key, VTime(Aware(t)));
  }

  lemma TimestampIsPlain(t: Instant)
    ensures Plain(FormatTimestamp(t)) && |FormatTimestamp(t)| == 24
  {
    FormatLength(t);
  }

  lemma SharedNamesArePlain()
    ensures Plain("schema") && Plain("line") && Plain("scope") && Plain("sequence")
    ensures Plain("header") && Plain("installation") && Plain("opened_at") && Plain("retention_days")
  {
  }

  lemma TrailerNamesArePlain()
    ensures Plain("trailer") && Plain("closed_at") && Plain("content_sha256")
    ensures Plain("event_count") && Plain("expires_at") && Plain("last_event_at")
  {
  }

  /** The header line is the canonical encoding of the header dictionary. */
  lemma HeaderIsCanonical(h: Header)
    ensures Normal(VDict(HeaderEntries(h))) == JObj(HeaderMembers(h))
  {
    hide Before, Picks, Normal;
    HeaderEntriesNormal(h);
    HeaderKeysSorted(h);
    hide HeaderEntries, HeaderMembers;
    SortedProjection(HeaderEntries(h), HeaderMembers(h), [1, 4, 5, 0, 2, 3]);
  }

  lemma HeaderKeysSorted(h: Header)
    ensures var ms := HeaderMembers(h); forall i | 0 < i < |ms| :: Before(ms[i - 1].key, ms[i].key)
  {
    hide Before, FormatTimestamp;
    KeysDecided("line", "opened_at", 0);
    KeysDecided("opened_at", "retention_days", 0);
    KeysDecided("retention_days", "schema", 0);
    KeysDecided("schema", "scope", 2);
    KeysDecided("scope", "sequence", 1);
  }

  lemma HeaderEntriesNormal(h: Header)
    ensures Picks(HeaderEntries(h), HeaderMembers(h), [1, 4, 5, 0, 2, 3])
  {
    hide NormalMember, FormatTimestamp, Plain, FromScalars, TextEntry;
    SharedNamesArePlain();
    IntNormal("schema", 1);
    TextNormal("line", "header");
    TextNormal("scope", "installation");
    IntNormal("sequence", h.sequence);
    TimeNormal("opened_at", h.openedAt);
    IntNormal("retention_days", h.retentionDays);
  }

  /** The trailer line is the canonical encoding of the trailer dictionary. */
  lemma TrailerIsCanonical(t: Trailer)
    requires t.Valid()
    ensures Normal(VDict(TrailerEntries(t))) == JObj(TrailerMembers(t))
  {
    hide Before, Picks, Normal;
    HexIsPlain(t.contentSha256);
    TrailerEntriesNormal(t);
    TrailerKeysSorted(t);
    hide TrailerEntries, TrailerMembers;
    SortedProjection(TrailerEntries(t), TrailerMembers(t), [3, 6, 5, 7, 4, 1, 0, 2]);
  }

  lemma TrailerKeysSorted(t: Trailer)
    ensures var ms := TrailerMembers(t); forall i | 0 < i < |ms| :: Before(ms[i - 1].key, ms[i].key)
  {
    hide Before, FormatTimestamp;
    KeysDecided("closed_at", "content_sha256", 1);
    KeysDecided("content_sha256", "event_count", 0);
    KeysDecided("event_count", "expires_at", 1);
    KeysDecided("expires_at", "last_event_at", 0);
    KeysDecided("last_event_at", "line", 1);
    KeysDecided("line", "schema", 0);
    KeysDecided("schema", "sequence", 1);
  }

  lemma TrailerEntriesNormal(t: Trailer)
    requires Plain(t.contentSha256)
    ensures Picks(TrailerEntries(t), TrailerMembers(t), [3, 6, 5, 7, 4, 1, 0, 2])
  {
    hide NormalMember, FormatTimestamp, Plain, FromScalars, TextEntry;
    TrailerTextNormal(t);
    TrailerNumbersNormal(t);
    hide TrailerEntries, TrailerMembers;
    var es, ms := TrailerEntries(t), TrailerMembers(t);
    assert |es| == |ms| == 8;
  }

  lemma TrailerTextNormal(t: Trailer)
    requires Plain(t.contentSha256)
    ensures var es, ms := TrailerEntries(t), TrailerMembers(t);
      && |es| == 8 && |ms| == 8
      && NormalMember(es[3]) == ms[0] && NormalMember(es[6]) == ms[1] && NormalMember(es[7]) == ms[3]
      && NormalMember(es[1]) == ms[5]
  {
    hide NormalMember, FormatTimestamp, Plain, FromScalars, TextEntry;
    SharedNamesArePlain();
    TrailerNamesArePlain();
    TextNormal("line", "trailer");
    TimeNormal("closed_at", t.closedAt);
    TextNormal("content_sha256", t.contentSha256);
    TimeNormal("expires_at", t.expiresAt);
  }

  lemma TrailerNumbersNormal(t: Trailer)
    requires Plain(t.contentSha256)
    ensures var es, ms := TrailerEntries(t), TrailerMembers(t);
      && |es| == 8 && |ms| == 8
      && NormalMember(es[5]) == ms[2] && NormalMember(es[4]) == ms[4] && NormalMember(es[0]) == ms[6]
      && NormalMember(es[2]) == ms[7]
  {
    hide NormalMember, FormatTimestamp, Plain, FromScalars, TextEntry;
    SharedNamesArePlain();
    TrailerNamesArePlain();
    IntNormal("schema", 1);
    IntNormal("sequence", t.sequence);
    EntryNormal("last_event_at", OptionalTime(t.lastEventAt));
    IntNormal("event_count", t.eventCount);
  }

  lemma HexIsPlain(s: string)
    requires IsHex64(s)
    ensures Plain(s) && |s| == 64
  {
  }

  // ---- readers -------------------------------------------------------------------------------

  const HEADER_KEYS_IN_ORDER: seq<string> := ["line", "opened_at", "retention_days", "schema", "scope", "sequence"]
  const HEADER_KEYS: set<string> := Names(HEADER_KEYS_IN_ORDER)
  const TRAILER_KEYS_IN_ORDER: seq<string> := [
    "closed_at", "content_sha256", "event_count", "expires_at", "last_event_at", "line", "schema", "sequence"
  ]
  const TRAILER_KEYS: set<string> := Names(TRAILER_KEYS_IN_ORDER)

  function AsTime(j: Option<Json>): Option<Instant> {
    match j
    case Some(JStr(s)) => ParseTimestamp(s)
    case _ => None
  }

  /** Python's `value != 1` lets `True` pass. */
  predicate EqualsOne(j: Option<Json>) { j == Some(JInt(1)) || j == Some(JBool(true)) }

  function HeaderOf(ms: seq<Member>): Option<Header> {
    if Lookup(ms, "line") != Some(JStr("header")) || !EqualsOne(Lookup(ms, "schema"))
       || Lookup(ms, "scope") != Some(JStr("installation"))
    then None
    else HeaderFrom(Lookup(ms, "sequence"), AsTime(Lookup(ms, "opened_at")), Lookup(ms, "retention_days"))
  }

  function HeaderFrom(sequence: Option<Json>, openedAt: Option<Instant>, days: Option<Json>): Option<Header> {
    match (sequence, openedAt, days)
    case (Some(JInt(q)), Some(at), Some(JInt(n))) => Some(Header(q, at, n))
    case _ => None
  }

  /** `_parse_header_line`: read the fields, validate them, and require the exact canonical bytes. */
  function ParseHeader(line: string): Option<Header> {
    if |line| > MAX_HEADER_LINE_BYTES then None
    else match Loads(line)
      case Some(JObj(ms)) =>
        var read := if KeySet(ms) == HEADER_KEYS then HeaderOf(ms) else None;
        if read.Some? && read.value.Valid() && HeaderLine(read.value) == line then read else None
      case _ => None
  }

  function TrailerOf(ms: seq<Member>): Option<Trailer> {
    if Lookup(ms, "line") != Some(JStr("trailer")) || !EqualsOne(Lookup(ms, "schema")) then None
    else TrailerFrom(
      Lookup(ms, "sequence"), AsTime(Lookup(ms, "closed_at")), Lookup(ms, "last_event_at"), Lookup(ms, "event_count"),
      Lookup(ms, "content_sha256"), AsTime(Lookup(ms, "expires_at")))
  }

  function TrailerFrom(
    sequence: Option<Json>, closedAt: Option<Instant>, last: Option<Json>, count: Option<Json>, digest: Option<Json>,
    expiresAt: Option<Instant>): Option<Trailer>
  {
    if last != Some(JNull) && AsTime(last).None? then None
    else match (sequence, count, digest)
      case (Some(JInt(q)), Some(JInt(n)), Some(JStr(sha))) =>
        if closedAt.Some? && expiresAt.Some? then Some(Trailer(q, closedAt.value, AsTime(last), n, sha, expiresAt.value)) else None
      case _ => None
  }

  /** The header-independent part of `_parse_trailer_line`. */
  function ParseTrailer(line: string): Option<Trailer> {
    if |line| > MAX_TRAILER_LINE_BYTES then None
    else match Loads(line)
      case Some(JObj(ms)) =>
        var read := if KeySet(ms) == TRAILER_KEYS then TrailerOf(ms) else None;
        if read.Some? && read.value.Valid() && TrailerLine(read.value) == line then read else None
      case _ => None
  }

  /** `_is_trailer_line`: any bounded JSON object whose `line` field is `trailer`. */
  predicate IsTrailerLine(line: string) {
    && |line| <= MAX_TRAILER_LINE_BYTES
    && var j := Loads(line); j.Some? && j.value.JObj? && Lookup(j.value.members, "line") == Some(JStr("trailer"))
  }

  // ---- what the readers accept ---------------------------------------------------------------

  lemma HeaderFields(h: Header)
    ensures var ms := HeaderMembers(h);
      && |ms| == 6 && DistinctKeys(ms)
      && Lookup(ms, "line") == Some(JStr("header")) && Lookup(ms, "schema") == Some(JInt(1))
      && Lookup(ms, "scope") == Some(JStr("installation")) && Lookup(ms, "sequence") == Some(JInt(h.sequence))
      && Lookup(ms, "opened_at") == Some(JStr(FormatTimestamp(h.openedAt)))
      && Lookup(ms, "retention_days") == Some(JInt(h.retentionDays))
  {
    hide Before, Lookup, FormatTimestamp;
    var ms := HeaderMembers(h);
    HeaderKeysSorted(h);
    SortedByNeighbours(ms);
    SortedIsDistinct(ms);
    LookupDistinct(ms, 0); LookupDistinct(ms, 1); LookupDistinct(ms, 2);
    LookupDistinct(ms, 3); LookupDistinct(ms, 4); LookupDistinct(ms, 5);
  }

  lemma HeaderKeySet(h: Header)
    ensures KeySet(HeaderMembers(h)) == HEADER_KEYS
  {
    hide FormatTimestamp;
    KeySetInOrder(HeaderMembers(h), HEADER_KEYS_IN_ORDER);
  }

  lemma HeaderLineLength(h: Header)
    requires h.Valid()
    ensures |HeaderLine(h)| <= 400
  {
    hide Print, PrintMember, FormatTimestamp, Plain;
    var ms := HeaderMembers(h);
    SharedNamesArePlain();
    TimestampIsPlain(h.openedAt);
    IntLength(h.sequence); IntLength(h.retentionDays); IntLength(1);
    TextLength("header"); TextLength("installation"); TextLength(FormatTimestamp(h.openedAt));
    forall i | 0 <= i < |ms| ensures |PrintMember(ms[i])| <= 45 { MemberLength(ms[i].key, ms[i].value); }
    UniformObjectLength(ms, 45);
  }

  lemma TrailerFields(t: Trailer)
    ensures var ms := TrailerMembers(t);
      && |ms| == 8 && DistinctKeys(ms) && (forall i | 0 <= i < 8 :: Lookup(ms, ms[i].key) == Some(ms[i].value))
      && ms[5].key == "line" && ms[6].key == "schema"
  {
    hide Before, Lookup, FormatTimestamp;
    var ms := TrailerMembers(t);
    TrailerKeysSorted(t);
    SortedByNeighbours(ms);
    SortedIsDistinct(ms);
    forall i | 0 <= i < 8 ensures Lookup(ms, ms[i].key) == Some(ms[i].value) { LookupDistinct(ms, i); }
  }

  lemma TrailerKeySet(t: Trailer)
    ensures KeySet(TrailerMembers(t)) == TRAILER_KEYS
  {
    hide FormatTimestamp;
    KeySetInOrder(TrailerMembers(t), TRAILER_KEYS_IN_ORDER);
  }

  lemma TrailerLineLength(t: Trailer)
    requires t.Valid()
    ensures |TrailerLine(t)| <= 800
  {
    hide Print, PrintMember, FormatTimestamp, Plain, IsHex64, InRange;
    HexIsPlain(t.contentSha256);
    TextLength(t.contentSha256);
    var ms := TrailerMembers(t);
    SharedNamesArePlain();
    TrailerNamesArePlain();
    TimestampIsPlain(t.closedAt); TimestampIsPlain(t.expiresAt);
    TextLength(FormatTimestamp(t.closedAt)); TextLength(FormatTimestamp(t.expiresAt)); TextLength("trailer");
    if t.lastEventAt.Some? {
      TimestampIsPlain(t.lastEventAt.value);
      TextLength(FormatTimestamp(t.lastEventAt.value));
    }
    NullLength();
    IntLength(t.sequence); IntLength(t.eventCount); IntLength(1);
    forall i | 0 <= i < |ms| ensures |PrintMember(ms[i])| <= 85 { MemberLength(ms[i].key, ms[i].value); }
    UniformObjectLength(ms, 85);
  }

  lemma NullLength()
    ensures |Print(JNull)| == 4
  {
  }

  /** `_parse_header_line` accepts exactly the lines of valid headers, and reads them back. */
  lemma ParseHeaderExact(line: string, h: Header)
    ensures ParseHeader(line) == Some(h) <==> h.Valid() && line == HeaderLine(h)
  {
    hide Loads, Print, FormatTimestamp, ParseTimestamp, HeaderMembers, KeySet, Lookup;
    if h.Valid() && line == HeaderLine(h) {
      LoadsPrinted(JObj(HeaderMembers(h)));
      HeaderLineLength(h);
      HeaderKeySet(h);
      HeaderFields(h);
      ParseFormat(h.openedAt);
    }
  }

  lemma TrailerOfMembers(t: Trailer)
    requires t.Valid()
    ensures TrailerOf(TrailerMembers(t)) == Some(t)
  {
    hide Lookup, FormatTimestamp, ParseTimestamp, IsHex64;
    TrailerFields(t);
    ParseFormat(t.closedAt);
    ParseFormat(t.expiresAt);
    if t.lastEventAt.Some? { ParseFormat(t.lastEventAt.value); }
    var ms := TrailerMembers(t);
    assert Lookup(ms, ms[0].key) == Some(ms[0].value) && Lookup(ms, ms[1].key) == Some(ms[1].value);
    assert Lookup(ms, ms[2].key) == Some(ms[2].value) && Lookup(ms, ms[3].key) == Some(ms[3].value);
    assert Lookup(ms, ms[4].key) == Some(ms[4].value) && Lookup(ms, ms[5].key) == Some(ms[5].value);
    assert Lookup(ms, ms[6].key) == Some(ms[6].value) && Lookup(ms, ms[7].key) == Some(ms[7].value);
  }

  /** The trailer reader accepts exactly the lines of valid trailers, and reads them back. */
  lemma ParseTrailerExact(line: string, t: Trailer)
    ensures ParseTrailer(line) == Some(t) <==> t.Valid() && line == TrailerLine(t)
  {
    hide Loads, Print, TrailerMembers, KeySet, TrailerOf, IsHex64;
    if t.Valid() && line == TrailerLine(t) {
      LoadsPrinted(JObj(TrailerMembers(t)));
      TrailerLineLength(t);
      TrailerKeySet(t);
      TrailerOfMembers(t);
    }
  }

  lemma TrailerIsTrailerLine(t: Trailer)
    requires t.Valid()
    ensures IsTrailerLine(TrailerLine(t))
  {
    hide Loads, Print, Lookup, FormatTimestamp;
    LoadsPrinted(JObj(TrailerMembers(t)));
    TrailerLineLength(t);
    TrailerFields(t);
    var ms := TrailerMembers(t);
    assert Lookup(ms, ms[5].key) == Some(ms[5].value);
  }

  // ---- framing: one line feed, at the end --------------------------------------------------------

  /** A complete line: no line feed but the last character. */
  predicate IsLine(s: string) { s != "" && s[|s| - 1] == '\n' && forall i | 0 <= i < |s| - 1 :: s[i] != '\n' }

  lemma PrintedIsLine(j: Json)
    ensures IsLine(Print(j) + "\n")
  {
    hide Print;
    NoRawLineFeed(j);
  }

  lemma HeaderIsLine(h: Header)
    ensures IsLine(HeaderLine(h))
  {
    hide Print, HeaderMembers;
    PrintedIsLine(JObj(HeaderMembers(h)));
  }

  lemma TrailerIsLine(t: Trailer)
    ensures IsLine(TrailerLine(t))
  {
    hide Print, TrailerMembers;
    PrintedIsLine(JObj(TrailerMembers(t)));
  }

  // ---- the invariant start of every header line ---------------------------------------------------

  function MemberStart(key: string): string { "\"" + key + "\"" + ":" + "\"" }

  function Preamble(first: string, text: string, second: string): string {
    "{" + MemberStart(first) + text + "\"" + "," + MemberStart(second)
  }

  /** `{"line":"header","opened_at":"`: thirty bytes. */
  const HEADER_PREAMBLE: string := Preamble("line", "header", "opened_at")

  lemma HeaderStartsWithPreamble(h: Header)
    ensures |HEADER_PREAMBLE| == 30 && HEADER_PREAMBLE <= HeaderLine(h) && |HeaderLine(h)| > 31
  {
    hide Print, FormatTimestamp, Plain, PrintMoreMembers;
    SharedNamesArePlain();
    TimestampIsPlain(h.openedAt);
    PreambleOfObject(HeaderMembers(h), "line", "header", "opened_at", FormatTimestamp(h.openedAt));
  }

  lemma PreambleOfObject(ms: seq<Member>, first: string, text: string, second: string, value: string)
    requires |ms| >= 2 && ms[0] == Keyed(first, JStr(text)) && ms[1] == Keyed(second, JStr(value))
    requires Plain(first) && Plain(text) && Plain(second) && Plain(value)
    ensures Preamble(first, text, second) <= Print(JObj(ms))
    ensures |Print(JObj(ms))| > |Preamble(first, text, second)| + |value|
  {
    hide Print, PrintMember, PrintMoreMembers, Plain, MemberStart;
    PlainTextMember(first, text);
    PlainTextMember(second, value);
    FirstTwoMembers(ms);
    Regroup(MemberStart(first), text, MemberStart(second), value, PrintMoreMembers(ms[2..]) + "}");
  }

  lemma Regroup(a: string, text: string, b: string, value: string, rest: string)
    ensures "{" + ((a + (text + "\"")) + ("," + (b + (value + "\"")))) + rest
         == ("{" + a + text + "\"" + "," + b) + (value + "\"" + rest)
  {
    var head := a + (text + "\"");
    assert "{" + (head + ("," + (b + (value + "\"")))) + rest == ("{" + head + "," + b) + (value + "\"" + rest);
    assert "{" + head + "," + b == "{" + a + text + "\"" + "," + b;
  }

  lemma PlainTextMember(key: string, text: string)
    requires Plain(key) && Plain(text)
    ensures PrintMember(Keyed(key, JStr(text))) == MemberStart(key) + (text + "\"")
  {
    PlainIsUnescaped(key);
    PlainIsUnescaped(text);
  }

  lemma FirstTwoMembers(ms: seq<Member>)
    requires |ms| >= 2
    ensures Print(JObj(ms)) == "{" + (PrintMember(ms[0]) + ("," + PrintMember(ms[1]))) + (PrintMoreMembers(ms[2..]) + "}")
  {
    hide PrintMember;
    assert ms[1..][0] == ms[1] && ms[1..][1..] == ms[2..];
    assert PrintMoreMembers(ms[1..]) == "," + PrintMember(ms[1]) + PrintMoreMembers(ms[2..]);
  }
}

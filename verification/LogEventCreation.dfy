/** `StructuredLogEventV1._create`: what it admits always fits, and reads back from, one stored line. */
module LogEventCreation {
  import opened Common
  import opened Decimals
  import opened JsonText
  import opened Utf8Order
  import opened KeySort
  import opened Clock
  import opened Canonical
  import opened LineProjection
  import opened LogWire
  import opened LogEvents
  import opened LogEventTheorems

  const UNEXPECTED_ERROR_CODE: string := "MH_INTERNAL_UNEXPECTED"

  /** `len(repr(value))`, uninterpreted: the size bound below does not depend on it. */
  const REPR_LENGTH: MetricValue -> nat

  datatype MetricSpec = MetricSpec(name: string, kind: Kind)

  datatype EventSpec = EventSpec(
    name: string, level: Level, metrics: seq<MetricSpec>, errorCodes: seq<string>, allowUnexpectedError: bool,
    fingerprintKind: Option<string>)
  {
    /** What `LogEventSpec.__post_init__` has already established. */
    predicate Valid() {
      && IsMachineName(name, MAX_LOG_EVENT_NAME_BYTES)
      && (forall i | 0 <= i < |metrics| :: IsMachineName(metrics[i].name, MAX_LOG_METRIC_NAME_BYTES))
      && (forall i | 0 <= i < |errorCodes| :: IsErrorCode(errorCodes[i]))
    }
  }

  /** A normalised exception: its stable code and whether it was an expected one. */
  datatype Raised = Raised(code: string, expected: bool)

  datatype Refusal = BadTimestamp | BadMetrics | BadError | BadFingerprint | TooLarge

  // ---- the steps of `_create` ------------------------------------------------------------------------

  function Tagged(metrics: seq<Metric>): (r: seq<Keyed<Metric>>)
    ensures |r| == |metrics| && forall i | 0 <= i < |r| :: r[i] == Keyed(metrics[i].name, metrics[i])
  {
    seq(|metrics|, i requires 0 <= i < |metrics| => Keyed(metrics[i].name, metrics[i]))
  }

  function Untagged(tagged: seq<Keyed<Metric>>): (r: seq<Metric>)
    ensures |r| == |tagged| && forall i | 0 <= i < |r| :: r[i] == tagged[i].value
  {
    seq(|tagged|, i requires 0 <= i < |tagged| => tagged[i].value)
  }

  predicate UniqueNames(metrics: seq<Metric>) {
    forall i, j | 0 <= i < j < |metrics| :: metrics[i].name != metrics[j].name
  }

  /** `_prepare_metrics`: bounded, allowed by the specification, sorted by name, names unique. */
  function PrepareMetrics(spec: EventSpec, metrics: seq<Metric>): Result<seq<Metric>, Refusal> {
    if |metrics| > MAX_LOG_METRICS then Failure(BadMetrics)
    else if exists i | 0 <= i < |metrics| :: MetricSpec(metrics[i].name, metrics[i].kind) !in spec.metrics then
      Failure(BadMetrics)
    else
      var ordered := Untagged(Sort(Tagged(metrics)));
      if UniqueNames(ordered) then Success(ordered) else Failure(BadMetrics)
  }

  function PrepareError(spec: EventSpec, error: Option<Raised>): Result<Option<string>, Refusal> {
    if error.None? then Success(None)
    else if error.value.expected && error.value.code in spec.errorCodes then Success(Some(error.value.code))
    else if spec.allowUnexpectedError then Success(Some(UNEXPECTED_ERROR_CODE))
    else Failure(BadError)
  }

  function PrepareFingerprint(spec: EventSpec, token: Option<string>): Result<Option<string>, Refusal> {
    if token.None? then Success(None)
    else if spec.fingerprintKind.None? || FingerprintKind(token.value) != spec.fingerprintKind then
      Failure(BadFingerprint)
    else Success(token)
  }

  function MetricsSize(metrics: seq<Metric>): nat {
    if metrics == [] then 0
    else |metrics[0].name| + |KindName(metrics[0].kind)| + REPR_LENGTH(metrics[0].value) + MetricsSize(metrics[1..])
  }

  function ErrorSize(e: Event): nat { if e.error.Some? then |e.error.value| + 1 else 0 }
  function FingerprintSize(e: Event): nat { if e.fingerprint.Some? then |e.fingerprint.value| else 0 }

  /** `_metadata_size`. */
  function MetadataSize(e: Event): nat {
    |FormatTimestamp(e.ts)| + |e.name| + |LevelName(e.level)| + MetricsSize(e.metrics) + ErrorSize(e) + FingerprintSize(e)
  }

  /** The characters of a metric's name, of its kind's name, and of its value's notation. */
  ghost function Characters(m: Metric): nat { |m.name| + |KindName(m.kind)| + REPR_LENGTH(m.value) }

  ghost function EachMetric(metrics: seq<Metric>): seq<nat> {
    seq(|metrics|, i requires 0 <= i < |metrics| => Characters(metrics[i]))
  }

  /** The metadata are the characters of the timestamp, the names, the metrics and the two tokens, and one more if there is
      an error code. */
  lemma MetadataCounted(e: Event)
    ensures MetadataSize(e) ==
      24 + |e.name| + |LevelName(e.level)| + Sum(EachMetric(e.metrics))
      + (match e.error case Some(code) => |code| + 1 case None => 0)
      + (match e.fingerprint case Some(token) => |token| case None => 0)
  {
    hide FormatTimestamp, LevelName, KindName;
    FormatLength(e.ts);
    MetricsCounted(e.metrics);
  }

  lemma {:induction false} MetricsCounted(metrics: seq<Metric>)
    ensures MetricsSize(metrics) == Sum(EachMetric(metrics))
  {
    hide KindName;
    if metrics != [] {
      MetricsCounted(metrics[1..]);
      assert EachMetric(metrics)[1..] == EachMetric(metrics[1..]);
    }
  }

  /** `_create`, on metrics that `LogMetric` itself admitted. */
  function Create(
    spec: EventSpec, ts: Instant, metrics: seq<Metric>, error: Option<Raised>, fingerprint: Option<string>)
    : Result<Event, Refusal>
  {
    if !InRange(ts) then Failure(BadTimestamp)
    else
      var prepared :- PrepareMetrics(spec, metrics);
      var code :- PrepareError(spec, error);
      var token :- PrepareFingerprint(spec, fingerprint);
      var e := Event(ts, spec.name, spec.level, prepared, code, token);
      if MetadataSize(e) > MAX_LOG_EVENT_METADATA_BYTES then Failure(TooLarge) else Success(e)
  }

  // ---- what creation admits, and what it makes of it ------------------------------------------------------

  /** What the specification and the bounds ask of the caller's arguments. */
  ghost predicate Admits(
    spec: EventSpec, ts: Instant, metrics: seq<Metric>, error: Option<Raised>, fingerprint: Option<string>) {
    && InRange(ts) && |metrics| <= 32
    && (forall m <- metrics :: exists s <- spec.metrics :: s.name == m.name && s.kind == m.kind)
    && UniqueNames(metrics)
    && (error.Some? ==> (error.value.expected && error.value.code in spec.errorCodes) || spec.allowUnexpectedError)
    && (fingerprint.Some? ==>
          spec.fingerprintKind.Some? && FingerprintKind(fingerprint.value) == Some(spec.fingerprintKind.value))
  }

  /** The code an event carries: none if nothing was raised, the raised one if it is expected and declared, and the fixed
      one otherwise. */
  ghost predicate Carries(spec: EventSpec, error: Option<Raised>, code: Option<string>) {
    match error
    case None => code.None?
    case Some(raised) =>
      code == Some(if raised.expected && raised.code in spec.errorCodes then raised.code else "MH_INTERNAL_UNEXPECTED")
  }

  /** The event says what the specification and the caller said, its metrics in the order of their names. */
  ghost predicate Says(
    e: Event, spec: EventSpec, ts: Instant, metrics: seq<Metric>, error: Option<Raised>, fingerprint: Option<string>) {
    && e.ts == ts && e.name == spec.name && e.level == spec.level && e.fingerprint == fingerprint
    && Carries(spec, error, e.error) && NamesRise(e.metrics) && multiset(e.metrics) == multiset(metrics)
  }

  predicate NamesRise(metrics: seq<Metric>) { forall i | 0 < i < |metrics| :: Before(metrics[i - 1].name, metrics[i].name) }

  /** Creation yields an event exactly when the arguments are admitted and the event they describe is within the metadata
      bound; and it yields that event. */
  lemma CreatesExactly(
    spec: EventSpec, ts: Instant, metrics: seq<Metric>, error: Option<Raised>, fingerprint: Option<string>, e: Event)
    ensures Create(spec, ts, metrics, error, fingerprint) == Success(e) <==>
      && Admits(spec, ts, metrics, error, fingerprint) && Says(e, spec, ts, metrics, error, fingerprint)
      && MetadataSize(e) <= 2_048
  {
    hide MetadataSize, InRange, FingerprintKind, PrepareMetrics, UniqueNames, NamesRise;
    PreparesExactly(spec, metrics, e.metrics);
    if PrepareMetrics(spec, metrics).Success? { PreparesExactly(spec, metrics, PrepareMetrics(spec, metrics).value); }
  }

  lemma PreparesExactly(spec: EventSpec, metrics: seq<Metric>, r: seq<Metric>)
    ensures PrepareMetrics(spec, metrics) == Success(r) <==>
      && |metrics| <= 32 && (forall m <- metrics :: exists s <- spec.metrics :: s.name == m.name && s.kind == m.kind)
      && UniqueNames(metrics) && NamesRise(r) && multiset(r) == multiset(metrics)
  {
    hide Before, Sort, UniqueNames, NamesRise;
    AllowedByName(spec, metrics);
    SortedByName(metrics);
    var ordered := Untagged(Sort(Tagged(metrics)));
    if UniqueNames(metrics) && NamesRise(r) && multiset(r) == multiset(metrics) { OnlyOneOrder(metrics, r); }
  }

  lemma AllowedByName(spec: EventSpec, metrics: seq<Metric>)
    ensures (exists i | 0 <= i < |metrics| :: MetricSpec(metrics[i].name, metrics[i].kind) !in spec.metrics) <==>
      !(forall m <- metrics :: exists s <- spec.metrics :: s.name == m.name && s.kind == m.kind)
  {
    forall m <- metrics
      ensures (exists s <- spec.metrics :: s.name == m.name && s.kind == m.kind) <==> MetricSpec(m.name, m.kind) in spec.metrics
    {
      if s :| s in spec.metrics && s.name == m.name && s.kind == m.kind { assert s == MetricSpec(m.name, m.kind); }
    }
  }

  /** Sorting by name keeps the metrics, and orders them strictly when no name comes twice. */
  lemma SortedByName(metrics: seq<Metric>)
    ensures var r := Untagged(Sort(Tagged(metrics)));
      && multiset(r) == multiset(metrics) && (UniqueNames(r) <==> UniqueNames(metrics)) && (UniqueNames(r) ==> NamesRise(r))
  {
    hide Before, Sort;
    var tagged := Tagged(metrics);
    var sorted := Sort(tagged);
    SortKeeps(tagged);
    SortKeepsValues(tagged);
    assert Untagged(tagged) == metrics;
    forall k | 0 <= k < |sorted| ensures sorted[k].key == sorted[k].value.name { assert sorted[k] in multiset(tagged); }
    if DistinctKeys(sorted) { DistinctTransfers(sorted, tagged); }
    if DistinctKeys(tagged) {
      SortSorts(tagged);
      DistinctTransfers(tagged, sorted);
    }
    DistinctNames(tagged, metrics);
    DistinctNames(sorted, Untagged(sorted));
  }

  lemma DistinctNames(tagged: seq<Keyed<Metric>>, metrics: seq<Metric>)
    requires |tagged| == |metrics| && forall i | 0 <= i < |metrics| :: tagged[i].key == metrics[i].name
    ensures DistinctKeys(tagged) <==> UniqueNames(metrics)
  {
    forall i, j | 0 <= i < j < |metrics| ensures tagged[i].key == tagged[j].key <==> metrics[i].name == metrics[j].name {}
  }

  lemma HeadCounts<T>(s: seq<T>, x: T)
    requires s != []
    ensures multiset(s)[x] == multiset(s[1..])[x] + if x == s[0] then 1 else 0
  {
    assert s == [s[0]] + s[1..];
  }

  lemma {:induction false} CountTagged(metrics: seq<Metric>, p: Keyed<Metric>)
    ensures multiset(Tagged(metrics))[p] == if p.key == p.value.name then multiset(metrics)[p.value] else 0
  {
    if metrics != [] {
      var m, rest := metrics[0], metrics[1..];
      CountTagged(rest, p);
      HeadCounts(metrics, p.value);
      assert Tagged(metrics)[0] == Keyed(m.name, m) && Tagged(metrics)[1..] == Tagged(rest);
      HeadCounts(Tagged(metrics), p);
    }
  }

  lemma {:induction false} RisesThroughout(r: seq<Metric>, j: nat)
    requires NamesRise(r) && j < |r|
    ensures forall i | 0 <= i < j :: Before(r[i].name, r[j].name)
  {
    hide Before;
    if j > 0 {
      RisesThroughout(r, j - 1);
      forall i | 0 <= i < j - 1 ensures Before(r[i].name, r[j].name) {
        BeforeTransitive(r[i].name, r[j - 1].name, r[j].name);
      }
    }
  }

  lemma OnlyOneOrder(metrics: seq<Metric>, r: seq<Metric>)
    requires UniqueNames(metrics) && NamesRise(r) && multiset(r) == multiset(metrics)
    ensures r == Untagged(Sort(Tagged(metrics)))
  {
    hide Before, Sort;
    forall p ensures multiset(Tagged(r))[p] == multiset(Tagged(metrics))[p] {
      CountTagged(r, p);
      CountTagged(metrics, p);
    }
    assert multiset(Tagged(r)) == multiset(Tagged(metrics));
    DistinctNames(Tagged(metrics), metrics);
    SortSorts(Tagged(metrics));
    SortKeeps(Tagged(metrics));
    forall j | 0 <= j < |r| ensures forall i | 0 <= i < j :: Before(r[i].name, r[j].name) { RisesThroughout(r, j); }
    SortedUnique(Tagged(r), Sort(Tagged(metrics)));
    assert Untagged(Tagged(r)) == r;
  }

  // ---- an admitted event is valid ----------------------------------------------------------------------

  lemma PreparedMetricsAreValid(spec: EventSpec, metrics: seq<Metric>)
    requires spec.Valid() && forall i | 0 <= i < |metrics| :: ValueAllowed(metrics[i].kind, metrics[i].value)
    requires PrepareMetrics(spec, metrics).Success?
    ensures var r := PrepareMetrics(spec, metrics).value;
      && |r| <= MAX_LOG_METRICS && (forall i | 0 <= i < |r| :: MetricValid(r[i]))
      && (forall i | 0 < i < |r| :: Before(r[i - 1].name, r[i].name))
      && multiset(r) == multiset(metrics)
  {
    hide Before, Sort, ValueAllowed, IsMachineName;
    var tagged := Tagged(metrics);
    SortKeeps(tagged);
    var sorted := Sort(tagged);
    forall k | 0 <= k < |sorted| ensures sorted[k].key == sorted[k].value.name && sorted[k].value in metrics {
      assert sorted[k] in multiset(tagged);
    }
    assert DistinctKeys(sorted);
    DistinctTransfers(sorted, tagged);
    SortSorts(tagged);
    SortKeepsValues(tagged);
    assert Untagged(tagged) == metrics;
    var r := Untagged(sorted);
    forall i | 0 <= i < |r| ensures MetricValid(r[i]) {
      var k :| 0 <= k < |metrics| && metrics[k] == r[i];
      assert MetricSpec(metrics[k].name, metrics[k].kind) in spec.metrics;
    }
  }

  lemma {:induction false} InsertKeepsValues(p: Keyed<Metric>, s: seq<Keyed<Metric>>)
    ensures multiset(Untagged(Insert(p, s))) == multiset(Untagged(s)) + multiset{p.value}
  {
    hide Before;
    if s == [] || Before(p.key, s[0].key) {
      assert Untagged([p] + s) == [p.value] + Untagged(s);
    } else {
      InsertKeepsValues(p, s[1..]);
      assert Untagged([s[0]] + Insert(p, s[1..])) == [s[0].value] + Untagged(Insert(p, s[1..]));
      assert Untagged(s) == [s[0].value] + Untagged(s[1..]);
    }
  }

  lemma {:induction false} SortKeepsValues(s: seq<Keyed<Metric>>)
    ensures multiset(Untagged(Sort(s))) == multiset(Untagged(s))
  {
    hide Insert;
    if s != [] {
      SortKeepsValues(s[1..]);
      InsertKeepsValues(s[0], Sort(s[1..]));
      assert Untagged(s) == [s[0].value] + Untagged(s[1..]);
    }
  }

  lemma UnexpectedCodeIsValid()
    ensures IsErrorCode(UNEXPECTED_ERROR_CODE)
  {
    hide IsDottedCode;
    var s := UNEXPECTED_ERROR_CODE;
    assert s[..3] == "MH_" && s[11] == '_';
    assert forall i | 3 <= i < 11 || 12 <= i < 22 :: 'A' <= s[i] <= 'Z';
    assert IsUpperCode(s);
  }

  lemma CreatedIsValid(
    spec: EventSpec, ts: Instant, metrics: seq<Metric>, error: Option<Raised>, fingerprint: Option<string>)
    requires spec.Valid() && forall i | 0 <= i < |metrics| :: ValueAllowed(metrics[i].kind, metrics[i].value)
    requires Create(spec, ts, metrics, error, fingerprint).Success?
    ensures var e := Create(spec, ts, metrics, error, fingerprint).value;
      e.Valid() && MetadataSize(e) <= MAX_LOG_EVENT_METADATA_BYTES && multiset(e.metrics) == multiset(metrics)
  {
    hide Before, PrepareMetrics, ValueAllowed, IsMachineName, IsErrorCode, FingerprintKind, MetadataSize, InRange;
    PreparedMetricsAreValid(spec, metrics);
    UnexpectedCodeIsValid();
  }

  // ---- its line fits -----------------------------------------------------------------------------------

  lemma LayoutLength(d: Fraction)
    ensures |Print(JDec(d))| <= 25
  {
    var position := |d.digits| + d.exp;
    if !(0 < position) && !(-6 < position) {
      DecLength(-(position - 1), 3);
    }
  }

  lemma ScalarLength(v: MetricValue, kind: Kind)
    requires ValueAllowed(kind, v)
    ensures |Print(Normal(MetricScalar(v)))| <= 25
  {
    match v
    case IntValue(n) => IntLength(n);
    case FloatValue(Integral(n)) => IntLength(n);
    case FloatValue(NegativeZero) => IntLength(0);
    case FloatValue(Fractional(d)) => LayoutLength(d);
    case _ =>
  }

  lemma MetricLength(m: Metric)
    requires MetricValid(m)
    ensures |Print(MetricJson(m))| <= |m.name| + |KindName(m.kind)| + 55
  {
    hide Print, PrintMember, Plain, KindName, IsMachineName, ValueAllowed, Normal, Sum;
    MachineNameIsPlain(m.name, MAX_LOG_METRIC_NAME_BYTES);
    KindRoundTrip(m.kind);
    ScalarLength(m.value, m.kind);
    MetricNamesArePlain();
    TextLength(KindName(m.kind));
    TextLength(m.name);
    var ms := MetricMembers(m);
    MemberLength("kind", ms[0].value);
    MemberLength("name", ms[1].value);
    MemberLength("value", ms[2].value);
    var w := [|KindName(m.kind)| + 9, |m.name| + 9, 33];
    SumThree(w);
    ObjectLength(ms, w);
  }

  lemma SumThree(w: seq<nat>)
    requires |w| == 3
    ensures Sum(w) == w[0] + w[1] + w[2]
  {
    assert w[1..][0] == w[1] && w[1..][1..] == w[2..] && w[2..][0] == w[2];
    assert Sum(w[2..]) == w[2] + Sum(w[2..][1..]);
    assert w[2..][1..] == [];
  }

  lemma {:induction false} SumConcat(a: seq<nat>, b: seq<nat>)
    ensures Sum(a + b) == Sum(a) + Sum(b)
  {
    if a == [] {
      assert a + b == b;
    } else {
      assert (a + b)[1..] == a[1..] + b;
      SumConcat(a[1..], b);
    }
  }

  lemma SumNine(w: seq<nat>)
    requires |w| == 9
    ensures Sum(w) == w[0] + w[1] + w[2] + w[3] + w[4] + w[5] + w[6] + w[7] + w[8]
  {
    hide Sum;
    assert w == w[..3] + w[3..6] + w[6..];
    SumConcat(w[..3] + w[3..6], w[6..]);
    SumConcat(w[..3], w[3..6]);
    SumThree(w[..3]); SumThree(w[3..6]); SumThree(w[6..]);
  }

  lemma {:induction false} MetricsLength(metrics: seq<Metric>)
    requires forall i | 0 <= i < |metrics| :: MetricValid(metrics[i])
    ensures |PrintMoreItems(MetricJsons(metrics))| <= MetricsSize(metrics) + 56 * |metrics|
    ensures |PrintItems(MetricJsons(metrics))| <= MetricsSize(metrics) + 56 * |metrics|
  {
    hide Print, MetricJson, KindName, MetricValid;
    if metrics != [] {
      assert MetricJsons(metrics)[1..] == MetricJsons(metrics[1..]);
      MetricsLength(metrics[1..]);
      MetricLength(metrics[0]);
    }
  }

  lemma ArrayLength(metrics: seq<Metric>)
    requires |metrics| <= MAX_LOG_METRICS && forall i | 0 <= i < |metrics| :: MetricValid(metrics[i])
    ensures |Print(JArr(MetricJsons(metrics)))| <= MetricsSize(metrics) + 1794
  {
    hide PrintItems, MetricValid, MetricJsons, MetricsSize;
    MetricsLength(metrics);
  }

  lemma OptionalLength(t: Option<string>)
    requires t.Some? ==> Plain(t.value)
    ensures |Print(OptionalJson(t))| <= if t.Some? then |t.value| + 2 else 4
  {
    if t.Some? { TextLength(t.value); }
  }

  /** The weight of each member of the event line. */
  function EventWeights(e: Event): seq<nat> {
    [ 12 + ErrorSize(e), 18 + FingerprintSize(e), 10 + |LevelName(e.level)|, 14, 1804 + MetricsSize(e.metrics),
      9 + |e.name|, 20, 29, 31 ]
  }

  lemma EventMemberLengths(e: Event)
    requires e.Valid()
    ensures var ms, w := EventMembers(e), EventWeights(e);
      |ms| == |w| == 9 && forall i | 0 <= i < 9 :: |PrintMember(ms[i])| <= w[i]
  {
    EventTextsArePlain(e);
    ArrayLength(e.metrics) by { hide Print, MetricValid; }
    hide *;
    EventTextLengths(e);
    EventOtherLengths(e);
    NineBounds(EventMembers(e), EventWeights(e));
  }

  lemma NineBounds(ms: seq<Member>, w: seq<nat>)
    requires |ms| == |w| == 9
    requires |PrintMember(ms[0])| <= w[0] && |PrintMember(ms[1])| <= w[1] && |PrintMember(ms[2])| <= w[2]
    requires |PrintMember(ms[3])| <= w[3] && |PrintMember(ms[4])| <= w[4] && |PrintMember(ms[5])| <= w[5]
    requires |PrintMember(ms[6])| <= w[6] && |PrintMember(ms[7])| <= w[7] && |PrintMember(ms[8])| <= w[8]
    ensures forall i | 0 <= i < 9 :: |PrintMember(ms[i])| <= w[i]
  {
    hide PrintMember;
  }

  lemma EventTextLengths(e: Event)
    requires Plain(e.name) && Plain(LevelName(e.level))
    requires (e.error.Some? ==> Plain(e.error.value)) && (e.fingerprint.Some? ==> Plain(e.fingerprint.value))
    ensures var ms, w := EventMembers(e), EventWeights(e);
      && |ms| == |w| == 9
      && |PrintMember(ms[0])| <= w[0] && |PrintMember(ms[1])| <= w[1] && |PrintMember(ms[2])| <= w[2]
      && |PrintMember(ms[5])| <= w[5]
  {
    hide Print, PrintMember, Plain, LevelName, MetricJsons, FormatTimestamp, MetricsSize;
    EventNamesArePlain();
    var ms := EventMembers(e);
    OptionalLength(e.error); OptionalLength(e.fingerprint);
    TextLength(LevelName(e.level)); TextLength(e.name);
    MemberLength("error", ms[0].value); MemberLength("fingerprint", ms[1].value);
    MemberLength("level", ms[2].value); MemberLength("name", ms[5].value);
  }

  lemma EventOtherLengths(e: Event)
    requires |Print(JArr(MetricJsons(e.metrics)))| <= MetricsSize(e.metrics) + 1794
    ensures var ms, w := EventMembers(e), EventWeights(e);
      && |ms| == |w| == 9
      && |PrintMember(ms[3])| <= w[3] && |PrintMember(ms[4])| <= w[4] && |PrintMember(ms[6])| <= w[6]
      && |PrintMember(ms[7])| <= w[7] && |PrintMember(ms[8])| <= w[8]
  {
    hide Print, PrintMember, Plain, LevelName, MetricJsons, FormatTimestamp, MetricsSize;
    TimestampIsPlain(e.ts);
    EventNamesArePlain();
    var ms := EventMembers(e);
    TextLength("event"); TextLength("internal"); TextLength(FormatTimestamp(e.ts));
    IntLength(1);
    MemberLength("line", ms[3].value); MemberLength("metrics", ms[4].value); MemberLength("privacy", ms[6].value);
    MemberLength("schema", ms[7].value); MemberLength("ts", ms[8].value);
  }

  lemma EventLineLength(e: Event)
    requires e.Valid()
    ensures |EventLine(e)| <= MetadataSize(e) + 1_980
  {
    hide Print, PrintMember, EventMembers, FormatTimestamp, MetricsSize, Event.Valid;
    FormatLength(e.ts);
    EventMemberLengths(e);
    SumNine(EventWeights(e));
    ObjectLength(EventMembers(e), EventWeights(e));
  }

  lemma {:induction false} MembersNodes(ms: seq<Member>, bound: nat)
    requires forall i | 0 <= i < |ms| :: NodeCount(ms[i].value) <= bound
    ensures NodesOfMembers(ms) <= |ms| * bound
  {
    hide NodeCount;
    if ms != [] { MembersNodes(ms[1..], bound); }
  }

  lemma {:induction false} ItemsNodes(items: seq<Json>, bound: nat)
    requires forall i | 0 <= i < |items| :: NodeCount(items[i]) <= bound
    ensures NodesOfItems(items) <= |items| * bound
  {
    hide NodeCount;
    if items != [] { ItemsNodes(items[1..], bound); }
  }

  lemma MetricNodes(m: Metric)
    ensures NodeCount(MetricJson(m)) <= 4
  {
    hide KindName;
    var ms := MetricMembers(m);
    forall i | 0 <= i < |ms| ensures NodeCount(ms[i].value) <= 1 {}
    MembersNodes(ms, 1);
  }

  lemma EventNodes(e: Event)
    requires e.Valid()
    ensures NodeCount(JObj(EventMembers(e))) <= DEFAULT_MAX_NODES
  {
    var items := MetricJsons(e.metrics);
    forall i | 0 <= i < |items| ensures NodeCount(items[i]) <= 4 { MetricNodes(e.metrics[i]); }
    ItemsNodes(items, 4);
    EventNodesOf(e);
  }

  lemma EventNodesOf(e: Event)
    requires NodeCount(JArr(MetricJsons(e.metrics))) <= 129
    ensures NodeCount(JObj(EventMembers(e))) <= DEFAULT_MAX_NODES
  {
    hide FormatTimestamp, LevelName, MetricJsons, NodesOfMembers;
    var ms := EventMembers(e);
    forall i | 0 <= i < |ms| ensures NodeCount(ms[i].value) <= 129 {}
    MembersNodes(ms, 129);
  }

  lemma MetricIsPlain(m: Metric)
    requires MetricValid(m)
    ensures PlainJson(MetricJson(m))
  {
    hide KindName, Plain, IsMachineName;
    MachineNameIsPlain(m.name, MAX_LOG_METRIC_NAME_BYTES);
    KindRoundTrip(m.kind);
    MetricNamesArePlain();
    assert PlainJson(Normal(MetricScalar(m.value)));
    var ms := MetricMembers(m);
    forall i | 0 <= i < |ms| ensures PlainMember(ms[i]) {}
  }

  lemma EventIsAscii(e: Event)
    requires e.Valid()
    ensures |Utf8(Print(JObj(EventMembers(e))))| == |Print(JObj(EventMembers(e)))|
  {
    hide Print, EventMembers;
    EventJsonIsPlain(e);
    PlainJsonIsAscii(JObj(EventMembers(e)));
    AsciiLength(Print(JObj(EventMembers(e))));
  }

  lemma EventJsonIsPlain(e: Event)
    requires e.Valid()
    ensures PlainJson(JObj(EventMembers(e)))
  {
    hide Plain, FormatTimestamp, LevelName, IsMachineName, IsErrorCode, FingerprintKind, Before, MetricJson, MetricValid;
    EventTextsArePlain(e);
    EventNamesArePlain();
    TimestampIsPlain(e.ts);
    var items := MetricJsons(e.metrics);
    forall i | 0 <= i < |items| ensures PlainJson(items[i]) { MetricIsPlain(e.metrics[i]); }
    assert PlainJson(JArr(items));
    var ms := EventMembers(e);
    forall i | 0 <= i < |ms| ensures PlainMember(ms[i]) {}
  }

  /** Admission by the 2,048-byte metadata rule guarantees the 4,096-byte line bound and acceptance on read. */
  lemma CreatedEventFitsItsLine(
    spec: EventSpec, ts: Instant, metrics: seq<Metric>, error: Option<Raised>, fingerprint: Option<string>)
    requires spec.Valid() && forall i | 0 <= i < |metrics| :: ValueAllowed(metrics[i].kind, metrics[i].value)
    requires Create(spec, ts, metrics, error, fingerprint).Success?
    ensures var e := Create(spec, ts, metrics, error, fingerprint).value;
      && Encodable(VDict(EventEntries(e)), DEFAULT_MAX_DEPTH, DEFAULT_MAX_NODES, MAX_EVENT_LINE_BYTES - 1)
      && Print(Normal(VDict(EventEntries(e)))) + "\n" == EventLine(e)
      && |EventLine(e)| <= 4_096
      && ValidateEventLine(EventLine(e)) == Some(ts)
  {
    hide Create, MetadataSize, Print, Normal, Sound, EventEntries, EventMembers, ValidateEventLine, ValueAllowed;
    CreatedIsValid(spec, ts, metrics, error, fingerprint);
    var e := Create(spec, ts, metrics, error, fingerprint).value;
    CreatesExactly(spec, ts, metrics, error, fingerprint, e);
    EventLineLength(e);
    EventIsCanonical(e);
    EventNodes(e);
    EventIsAscii(e);
    ProjectedLineIsAccepted(e);
  }
}

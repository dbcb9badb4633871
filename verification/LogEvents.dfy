/** Catalog-built log events, their stored line, and the reader that validates a stored line. */
module LogEvents {
  import opened Common
  import opened Decimals
  import opened JsonText
  import opened Utf8Order
  import opened Clock
  import opened Canonical
  import opened LineProjection
  import opened LogWire

  const MAX_EVENT_LINE_BYTES: nat := 4_096
  const MAX_LOG_EVENT_NAME_BYTES: nat := 128
  const MAX_LOG_METRIC_NAME_BYTES: nat := 64
  const MAX_LOG_METRICS: nat := 32
  const MAX_LOG_EVENT_METADATA_BYTES: nat := 2_048
  const MAX_ERROR_CODE_BYTES: nat := 128

  datatype Level = DEBUG | INFO | WARNING | ERROR | CRITICAL
  datatype Kind = FLAG | COUNT | BYTES | DURATION_MILLISECONDS | GAUGE
  datatype MetricValue = FlagValue(b: bool) | IntValue(n: int) | FloatValue(f: PyFloat)
  datatype Metric = Metric(name: string, kind: Kind, value: MetricValue)

  datatype Event = Event(
    ts: Instant, name: string, level: Level, metrics: seq<Metric>, error: Option<string>, fingerprint: Option<string>)
  {
    predicate Valid() {
      && InRange(ts) && IsMachineName(name, MAX_LOG_EVENT_NAME_BYTES)
      && MetricsValid(metrics)
      && (error.Some? ==> IsErrorCode(error.value))
      && (fingerprint.Some? ==> FingerprintKind(fingerprint.value).Some?)
    }
  }

  // ---- the wire grammar's names ------------------------------------------------------------------

  predicate IsLower(c: char) { 'a' <= c <= 'z' }
  predicate IsUpper(c: char) { 'A' <= c <= 'Z' }
  predicate IsAlnum(c: char) { IsLower(c) || IsDigit(c) }

  /** `[a-z][a-z0-9]*(?:[._-][a-z0-9]+)*` within a byte bound. */
  predicate IsMachineName(s: string, maximum: nat) {
    && s != "" && |s| <= maximum && IsLower(s[0])
    && forall i | 0 <= i < |s| :: IsAlnum(s[i]) || (s[i] in "._-" && i + 1 < |s| && IsAlnum(s[i + 1]))
  }

  /** `MH_[A-Z][A-Z0-9]*(?:_[A-Z0-9]+)*` or `[a-z][a-z0-9_]*(?:\.[a-z][a-z0-9_]*)+`. */
  predicate IsErrorCode(s: string) {
    && s != "" && |s| <= MAX_ERROR_CODE_BYTES
    && (IsUpperCode(s) || IsDottedCode(s))
  }

  predicate IsUpperCode(s: string) {
    && |s| > 3 && "MH_" <= s && IsUpper(s[3])
    && forall i | 3 <= i < |s| ::
      || IsUpper(s[i]) || IsDigit(s[i])
      || (s[i] == '_' && i + 1 < |s| && (IsUpper(s[i + 1]) || IsDigit(s[i + 1])))
  }

  predicate IsDottedCode(s: string) {
    && s != "" && IsLower(s[0]) && '.' in s
    && forall i | 0 <= i < |s| :: IsAlnum(s[i]) || s[i] == '_' || (s[i] == '.' && i + 1 < |s| && IsLower(s[i + 1]))
  }

  /** The kind inside `mh_fp1_e<epoch>_<kind>_<52 base32 characters>`. */
  function FingerprintKind(s: string): Option<string> {
    if |s| < 8 || s[..8] != "mh_fp1_e" then None
    else
      var epoch := IndexOf(s[8..], '_');
      var start := 8 + epoch + 1;
      var end := |s| - 53;
      if !(1 <= epoch <= 10 && AllDigits(s[8..8 + epoch]) && s[8] != '0') || !(start < end <= start + 32)
         || !IsLower(s[start]) || s[end] != '_'
         || !(forall i | start <= i < end :: IsAlnum(s[i]) || s[i] in "_-")
         || !(forall i | end < i < |s| :: IsLower(s[i]) || '2' <= s[i] <= '7')
      then None
      else Some(s[start..end])
  }

  lemma MachineNameIsPlain(s: string, maximum: nat)
    requires IsMachineName(s, maximum)
    ensures Plain(s)
  {
  }

  lemma ErrorCodeIsPlain(s: string)
    requires IsErrorCode(s)
    ensures Plain(s)
  {
    if IsUpperCode(s) {
      assert forall i | 0 <= i < 3 :: s[i] == "MH_"[i];
    }
  }

  lemma FingerprintIsPlain(s: string)
    requires FingerprintKind(s).Some?
    ensures Plain(s) && |s| <= 8 + 10 + 1 + 32 + 53
  {
    hide IndexOf;
    var epoch := IndexOf(s[8..], '_');
    assert s[8..][epoch] == '_' by { IndexOfLands(s[8..], '_'); }
    forall i | 0 <= i < |s| ensures ' ' <= s[i] <= '~' && s[i] != '"' && s[i] != '\\' {
      if i < 8 {
        assert s[i] == s[..8][i] == "mh_fp1_e"[i];
      } else if i < 8 + epoch {
        assert s[i] == s[8..8 + epoch][i - 8];
      }
    }
  }

  lemma IndexOfLands(s: string, c: char)
    requires IndexOf(s, c) < |s|
    ensures s[IndexOf(s, c)] == c
  {
  }

  function LevelName(l: Level): string {
    match l
    case DEBUG => "DEBUG"
    case INFO => "INFO"
    case WARNING => "WARNING"
    case ERROR => "ERROR"
    case CRITICAL => "CRITICAL"
  }

  function LevelOf(s: string): (r: Option<Level>)
    ensures r.Some? ==> LevelName(r.value) == s
  {
    if s == "DEBUG" then Some(DEBUG) else if s == "INFO" then Some(INFO) else if s == "WARNING" then Some(WARNING)
    else if s == "ERROR" then Some(ERROR) else if s == "CRITICAL" then Some(CRITICAL) else None
  }

  function KindName(k: Kind): string {
    match k
    case FLAG => "flag"
    case COUNT => "count"
    case BYTES => "bytes"
    case DURATION_MILLISECONDS => "duration_milliseconds"
    case GAUGE => "gauge"
  }

  function KindOf(s: string): (r: Option<Kind>)
    ensures r.Some? ==> KindName(r.value) == s
  {
    if s == "flag" then Some(FLAG) else if s == "count" then Some(COUNT) else if s == "bytes" then Some(BYTES)
    else if s == "duration_milliseconds" then Some(DURATION_MILLISECONDS)
    else if s == "gauge" then Some(GAUGE) else None
  }

  lemma LevelRoundTrip(l: Level)
    ensures LevelOf(LevelName(l)) == Some(l) && Plain(LevelName(l))
  {
    assert LevelName(l)[0] == LevelName(l)[0];
  }

  lemma KindRoundTrip(k: Kind)
    ensures KindOf(KindName(k)) == Some(k) && Plain(KindName(k))
  {
    assert KindName(k)[0] == KindName(k)[0];
  }

  // ---- metrics -----------------------------------------------------------------------------------

  /** `LogMetric.__post_init__` and, on the way back, `_require_wire_metric_value`. */
  predicate ValueAllowed(kind: Kind, value: MetricValue) {
    match kind
    case FLAG => value.FlagValue?
    case GAUGE =>
      (match value
       case IntValue(n) => Signed64(n)
       case FloatValue(NonFinite) => false
       case FloatValue(Integral(n)) => Signed64(n)
       case FloatValue(_) => true
       case FlagValue(_) => false)
    case _ => value.IntValue? && 0 <= value.n <= MAX_CANONICAL_INT
  }

  predicate MetricValid(m: Metric) { IsMachineName(m.name, MAX_LOG_METRIC_NAME_BYTES) && ValueAllowed(m.kind, m.value) }

  function MetricScalar(v: MetricValue): Value {
    match v
    case FlagValue(b) => VBool(b)
    case IntValue(n) => VInt(n)
    case FloatValue(f) => VFloat(f)
  }

  /** The dictionary the source builds for one metric. */
  function MetricEntries(m: Metric): seq<Entry> {
    [ TextEntry("kind", VStr(FromScalars(KindName(m.kind)))),
      TextEntry("name", VStr(FromScalars(m.name))),
      TextEntry("value", MetricScalar(m.value)) ]
  }

  function MetricMembers(m: Metric): seq<Member> {
    [ Keyed("kind", JStr(KindName(m.kind))),
      Keyed("name", JStr(m.name)),
      Keyed("value", Normal(MetricScalar(m.value))) ]
  }

  function MetricJson(m: Metric): Json { JObj(MetricMembers(m)) }

  const METRIC_KEYS: set<string> := {"kind", "name", "value"}

  function ScalarOf(j: Json): Option<MetricValue> {
    match j
    case JBool(b) => Some(FlagValue(b))
    case JInt(n) => Some(IntValue(n))
    case JDec(d) => Some(FloatValue(Fractional(d)))
    case _ => None
  }

  function MetricOf(j: Json): (r: Option<Metric>)
    ensures r.Some? ==> MetricValid(r.value)
  {
    if !j.JObj? || KeySet(j.members) != METRIC_KEYS then None
    else MetricFrom(Lookup(j.members, "kind"), Lookup(j.members, "name"), Lookup(j.members, "value"))
  }

  function MetricFrom(kind: Option<Json>, name: Option<Json>, value: Option<Json>): (r: Option<Metric>)
    ensures r.Some? ==> MetricValid(r.value)
  {
    match (kind, name, value)
    case (Some(JStr(k)), Some(JStr(n)), Some(v)) => MetricWith(KindOf(k), n, ScalarOf(v))
    case _ => None
  }

  function MetricWith(kind: Option<Kind>, name: string, value: Option<MetricValue>): (r: Option<Metric>)
    ensures r.Some? ==> MetricValid(r.value)
  {
    if kind.None? || value.None? || !IsMachineName(name, MAX_LOG_METRIC_NAME_BYTES)
       || !ValueAllowed(kind.value, value.value)
    then None
    else Some(Metric(name, kind.value, value.value))
  }

  /** Bounded, each valid, strictly ordered by name. */
  predicate MetricsValid(metrics: seq<Metric>) {
    && |metrics| <= MAX_LOG_METRICS
    && (forall i | 0 <= i < |metrics| :: MetricValid(metrics[i]))
    && (forall i | 0 < i < |metrics| :: Before(metrics[i - 1].name, metrics[i].name))
  }

  predicate MetricsReadable(items: seq<Json>) {
    && |items| <= MAX_LOG_METRICS
    && (forall i | 0 <= i < |items| :: MetricOf(items[i]).Some?)
    && (forall i | 0 < i < |items| :: Before(MetricOf(items[i - 1]).value.name, MetricOf(items[i]).value.name))
  }

  function MetricsOf(items: seq<Json>): Option<seq<Metric>> {
    if MetricsReadable(items) then
      Some(seq(|items|, i requires 0 <= i < |items| => MetricOf(items[i]).value))
    else None
  }

  /** `_validate_wire_event_metrics`: one pass, comparing each name with the previous one. */
  method ValidateWireEventMetrics(items: seq<Json>) returns (r: Option<seq<Metric>>)
    ensures r == MetricsOf(items)
  {
    hide MetricOf, Before;
    if |items| > MAX_LOG_METRICS {
      return None;
    }
    var rebuilt: seq<Metric> := [];
    var previous: Option<string> := None;
    for k := 0 to |items|
      invariant |rebuilt| == k
      invariant forall i | 0 <= i < k :: MetricOf(items[i]) == Some(rebuilt[i])
      invariant forall i | 0 < i < k :: Before(rebuilt[i - 1].name, rebuilt[i].name)
      invariant previous == if k == 0 then None else Some(rebuilt[k - 1].name)
    {
      var metric := MetricOf(items[k]);
      if metric.None? {
        return None;
      }
      if previous.Some? && !Before(previous.value, metric.value.name) {
        assert MetricOf(items[k - 1]).value.name == previous.value;
        return None;
      }
      previous := Some(metric.value.name);
      rebuilt := rebuilt + [metric.value];
    }
    r := Some(rebuilt);
    assert MetricsReadable(items);
    assert rebuilt == MetricsOf(items).value;
  }

  // ---- events --------------------------------------------------------------------------------------

  function OptionalText(t: Option<string>): Value { if t.Some? then VStr(FromScalars(t.value)) else VNull }
  function OptionalJson(t: Option<string>): Json { if t.Some? then JStr(t.value) else JNull }

  function MetricDicts(metrics: seq<Metric>): seq<Value> {
    seq(|metrics|, i requires 0 <= i < |metrics| => VDict(MetricEntries(metrics[i])))
  }

  function MetricJsons(metrics: seq<Metric>): (r: seq<Json>)
    ensures |r| == |metrics| && forall i | 0 <= i < |r| :: r[i] == MetricJson(metrics[i])
  {
    seq(|metrics|, i requires 0 <= i < |metrics| => MetricJson(metrics[i]))
  }

  /** The dictionary `structured_log_event_line` builds, in its own order. */
  function EventEntries(e: Event): seq<Entry> {
    [ TextEntry("schema", VInt(1)),
      TextEntry("line", VStr(FromScalars("event"))),
      TextEntry("privacy", VStr(FromScalars("internal"))),
      TextEntry("ts", VTime(Aware(e.ts))),
      TextEntry("name", VStr(FromScalars(e.name))),
      TextEntry("level", VStr(FromScalars(LevelName(e.level)))),
      TextEntry("metrics", VList(MetricDicts(e.metrics))),
      TextEntry("error", OptionalText(e.error)),
      TextEntry("fingerprint", OptionalText(e.fingerprint)) ]
  }

  function EventMembers(e: Event): seq<Member> {
    [ Keyed("error", OptionalJson(e.error)),
      Keyed("fingerprint", OptionalJson(e.fingerprint)),
      Keyed("level", JStr(LevelName(e.level))),
      Keyed("line", JStr("event")),
      Keyed("metrics", JArr(MetricJsons(e.metrics))),
      Keyed("name", JStr(e.name)),
      Keyed("privacy", JStr("internal")),
      Keyed("schema", JInt(1)),
      Keyed("ts", JStr(FormatTimestamp(e.ts))) ]
  }

  function EventLine(e: Event): string { Print(JObj(EventMembers(e))) + "\n" }

  const EVENT_KEYS_IN_ORDER: seq<string> := [
    "error", "fingerprint", "level", "line", "metrics", "name", "privacy", "schema", "ts"
  ]
  const EVENT_KEYS: set<string> := Names(EVENT_KEYS_IN_ORDER)

  function OptionalOf(j: Option<Json>): Option<Option<string>> {
    match j
    case Some(JNull) => Some(None)
    case Some(JStr(s)) => Some(Some(s))
    case _ => None
  }

  function EventOf(ms: seq<Member>): (r: Option<Event>)
    ensures r.Some? && InRange(r.value.ts) ==> r.value.Valid()
  {
    if !EqualsOne(Lookup(ms, "schema")) || Lookup(ms, "line") != Some(JStr("event"))
       || Lookup(ms, "privacy") != Some(JStr("internal"))
    then None
    else EventFrom(
      AsTime(Lookup(ms, "ts")), Lookup(ms, "name"), Lookup(ms, "level"), Lookup(ms, "metrics"),
      OptionalOf(Lookup(ms, "error")), OptionalOf(Lookup(ms, "fingerprint")))
  }

  function EventFrom(
    ts: Option<Instant>, name: Option<Json>, level: Option<Json>, metrics: Option<Json>,
    error: Option<Option<string>>, fingerprint: Option<Option<string>>): (r: Option<Event>)
    ensures r.Some? && InRange(r.value.ts) ==> r.value.Valid()
  {
    match (ts, name, level, metrics)
    case (Some(at), Some(JStr(n)), Some(JStr(l)), Some(JArr(items))) =>
      EventWith(at, n, LevelOf(l), MetricsOf(items), error, fingerprint)
    case _ => None
  }

  function EventWith(
    ts: Instant, name: string, level: Option<Level>, metrics: Option<seq<Metric>>,
    error: Option<Option<string>>, fingerprint: Option<Option<string>>): (r: Option<Event>)
    ensures r.Some? && InRange(r.value.ts) && (metrics.Some? ==> MetricsValid(metrics.value)) ==> r.value.Valid()
  {
    if level.None? || metrics.None? || error.None? || fingerprint.None?
       || !IsMachineName(name, MAX_LOG_EVENT_NAME_BYTES)
       || (error.value.Some? && !IsErrorCode(error.value.value))
       || (fingerprint.value.Some? && FingerprintKind(fingerprint.value.value).None?)
    then None
    else Some(Event(ts, name, level.value, metrics.value, error.value, fingerprint.value))
  }

  /** `validate_structured_log_event_line`. */
  function ValidateEventLine(line: string): Option<Instant> {
    if |line| > MAX_EVENT_LINE_BYTES then None
    else match Loads(line)
      case Some(JObj(ms)) =>
        var read := if KeySet(ms) == EVENT_KEYS then EventOf(ms) else None;
        if read.Some? && EventLine(read.value) == line then Some(read.value.ts) else None
      case _ => None
  }
}

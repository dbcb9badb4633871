/** What the event projection emits and what the event reader accepts. */
module LogEventTheorems {
  import opened Common
  import opened JsonText
  import opened JsonRoundTrip
  import opened Utf8Order
  import opened KeySort
  import opened Clock
  import opened Canonical
  import opened CanonicalEncoding
  import opened CanonicalTheorems
  import opened LineProjection
  import opened LogWire
  import opened LogEvents

  // ---- one metric ----------------------------------------------------------------------------------

  lemma MetricNamesArePlain()
    ensures Plain("kind") && Plain("name") && Plain("value")
  {
  }

  lemma MetricEntriesNormal(m: Metric)
    requires MetricValid(m)
    ensures Picks(MetricEntries(m), MetricMembers(m), [0, 1, 2])
  {
    hide IsMachineName, ValueAllowed, Plain, KindName, NormalMember, MetricEntries, MetricMembers, Picks;
    MachineNameIsPlain(m.name, MAX_LOG_METRIC_NAME_BYTES);
    KindRoundTrip(m.kind);
    MetricEntryFacts(m);
    var es, ms := MetricEntries(m), MetricMembers(m);
    PicksInOrder(es, ms);
  }

  lemma PicksInOrder(es: seq<Entry>, ms: seq<Member>)
    requires |es| == |ms| == 3
    requires NormalMember(es[0]) == ms[0] && NormalMember(es[1]) == ms[1] && NormalMember(es[2]) == ms[2]
    ensures Picks(es, ms, [0, 1, 2])
  {
    hide NormalMember;
  }

  lemma MetricEntryFacts(m: Metric)
    requires Plain(m.name) && Plain(KindName(m.kind))
    ensures var es, ms := MetricEntries(m), MetricMembers(m);
      && |es| == |ms| == 3
      && NormalMember(es[0]) == ms[0] && NormalMember(es[1]) == ms[1] && NormalMember(es[2]) == ms[2]
  {
    hide NormalMember, Plain, FromScalars, TextEntry, KindName, IsMachineName, Normal;
    MetricNamesArePlain();
    TextNormal("kind", KindName(m.kind));
    TextNormal("name", m.name);
    EntryNormal("value", MetricScalar(m.value));
  }

  lemma MetricKeysSorted(m: Metric)
    ensures var ms := MetricMembers(m); forall i | 0 < i < |ms| :: Before(ms[i - 1].key, ms[i].key)
  {
    hide Before, Normal;
    KeysDecided("kind", "name", 0);
    KeysDecided("name", "value", 0);
  }

  lemma ScalarSound(v: MetricValue, kind: Kind, depth: nat, maxDepth: nat)
    requires ValueAllowed(kind, v)
    ensures Sound(MetricScalar(v), depth, maxDepth)
  {
  }

  lemma MetricIsCanonical(m: Metric, depth: nat, maxDepth: nat)
    requires MetricValid(m) && depth < maxDepth
    ensures Normal(VDict(MetricEntries(m))) == MetricJson(m) && Sound(VDict(MetricEntries(m)), depth, maxDepth)
  {
    hide Before, Picks, Normal, MetricMembers, MetricValid, NormalMembers, Breaks, FromScalars, ScalarsOnly;
    MetricEntriesNormal(m);
    MetricKeysSorted(m);
    SortedProjection(MetricEntries(m), MetricMembers(m), [0, 1, 2]);
    MetricValuesSound(m, depth + 1, maxDepth);
    hide MetricEntries;
    TextDictSound(MetricEntries(m), depth, maxDepth);
  }

  lemma MetricValuesSound(m: Metric, depth: nat, maxDepth: nat)
    requires MetricValid(m)
    ensures var es := MetricEntries(m); forall i | 0 <= i < |es| ::
      es[i].key.Text? && ScalarsOnly(es[i].key.s) && Sound(es[i].value, depth, maxDepth)
  {
    hide FromScalars, IsMachineName, KindName;
    ScalarSound(m.value, m.kind, depth, maxDepth);
    var es := MetricEntries(m);
    TextSound(KindName(m.kind), depth, maxDepth);
    TextSound(m.name, depth, maxDepth);
    hide Sound;
    assert ScalarsOnly(FromScalars("kind")) && ScalarsOnly(FromScalars("name")) && ScalarsOnly(FromScalars("value"));
  }

  lemma TextSound(s: string, depth: nat, maxDepth: nat)
    ensures Sound(VStr(FromScalars(s)), depth, maxDepth)
  {
  }

  /** The metric a written metric is read back as: an integral float has become an integer. */
  function Simplify(m: Metric): Metric {
    match m.value
    case FloatValue(Integral(n)) => m.(value := IntValue(n))
    case FloatValue(NegativeZero) => m.(value := IntValue(0))
    case _ => m
  }

  lemma MetricFields(m: Metric)
    ensures var ms := MetricMembers(m);
      && KeySet(ms) == METRIC_KEYS
      && Lookup(ms, "kind") == Some(JStr(KindName(m.kind))) && Lookup(ms, "name") == Some(JStr(m.name))
      && Lookup(ms, "value") == Some(Normal(MetricScalar(m.value)))
  {
    hide Before, Lookup, Normal, KindName;
    var ms := MetricMembers(m);
    MetricKeysSorted(m);
    SortedByNeighbours(ms);
    SortedIsDistinct(ms);
    LookupDistinct(ms, 0); LookupDistinct(ms, 1); LookupDistinct(ms, 2);
    assert ms[0] in ms && ms[1] in ms && ms[2] in ms;
  }

  lemma MetricRoundTrip(m: Metric)
    requires MetricValid(m)
    ensures MetricOf(MetricJson(m)) == Some(Simplify(m)) && MetricJson(Simplify(m)) == MetricJson(m)
  {
    hide Lookup, KeySet, IsMachineName, KindName, KindOf;
    MetricFields(m);
    KindRoundTrip(m.kind);
    hide METRIC_KEYS;
  }

  // ---- one event -----------------------------------------------------------------------------------

  lemma EventNamesArePlain()
    ensures Plain("schema") && Plain("line") && Plain("privacy") && Plain("ts") && Plain("name") && Plain("level")
    ensures Plain("metrics") && Plain("error") && Plain("fingerprint") && Plain("event") && Plain("internal")
  {
  }

  lemma MetricListIsCanonical(metrics: seq<Metric>, depth: nat, maxDepth: nat)
    requires forall i | 0 <= i < |metrics| :: MetricValid(metrics[i])
    requires depth + 1 < maxDepth
    ensures Normal(VList(MetricDicts(metrics))) == JArr(MetricJsons(metrics))
    ensures Sound(VList(MetricDicts(metrics)), depth, maxDepth)
  {
    hide Sound, Breaks, MetricEntries, MetricJson, MetricValid, Normal;
    var dicts := MetricDicts(metrics);
    forall i | 0 <= i < |metrics|
      ensures Normal(dicts[i]) == MetricJson(metrics[i]) && Sound(dicts[i], depth + 1, maxDepth)
    {
      MetricIsCanonical(metrics[i], depth + 1, maxDepth);
    }
    SoundList(dicts, depth, maxDepth);
    ListStep(dicts, depth, maxDepth);
    assert Normals(dicts) == MetricJsons(metrics);
  }

  lemma OptionalNormal(key: string, t: Option<string>, depth: nat, maxDepth: nat)
    requires Plain(key) && (t.Some? ==> Plain(t.value))
    ensures NormalMember(TextEntry(key, OptionalText(t))) == Keyed(key, OptionalJson(t))
    ensures Sound(OptionalText(t), depth, maxDepth)
  {
    EntryNormal(key, OptionalText(t));
    if t.Some? { PlainIsNormal(t.value); }
  }

  lemma EventTextsArePlain(e: Event)
    requires e.Valid()
    ensures Plain(e.name) && Plain(LevelName(e.level))
    ensures e.error.Some? ==> Plain(e.error.value)
    ensures e.fingerprint.Some? ==> Plain(e.fingerprint.value)
  {
    MachineNameIsPlain(e.name, MAX_LOG_EVENT_NAME_BYTES);
    LevelRoundTrip(e.level);
    if e.error.Some? { ErrorCodeIsPlain(e.error.value); }
    if e.fingerprint.Some? { FingerprintIsPlain(e.fingerprint.value); }
  }

  ghost predicate TextsPlain(e: Event) {
    && Plain(e.name) && Plain(LevelName(e.level))
    && (e.error.Some? ==> Plain(e.error.value)) && (e.fingerprint.Some? ==> Plain(e.fingerprint.value))
    && Normal(VList(MetricDicts(e.metrics))) == JArr(MetricJsons(e.metrics))
  }

  lemma EventEntriesNormal(e: Event)
    requires TextsPlain(e)
    ensures Picks(EventEntries(e), EventMembers(e), [7, 8, 5, 1, 6, 4, 2, 0, 3])
  {
    hide NormalMember, FormatTimestamp, Plain, FromScalars, TextEntry;
    EventFirstHalfNormal(e);
    EventSecondHalfNormal(e);
    hide EventEntries, EventMembers;
    assert |EventEntries(e)| == |EventMembers(e)| == 9;
  }

  lemma EventFirstHalfNormal(e: Event)
    requires TextsPlain(e)
    ensures var es, ms := EventEntries(e), EventMembers(e);
      && |es| == 9 && |ms| == 9
      && NormalMember(es[0]) == ms[7] && NormalMember(es[1]) == ms[3] && NormalMember(es[2]) == ms[6]
      && NormalMember(es[3]) == ms[8]
  {
    hide NormalMember, FormatTimestamp, Plain, FromScalars, TextEntry, Normal, LevelName;
    EventNamesArePlain();
    IntNormal("schema", 1);
    TextNormal("line", "event");
    TextNormal("privacy", "internal");
    TimeNormal("ts", e.ts);
  }

  lemma EventSecondHalfNormal(e: Event)
    requires TextsPlain(e)
    ensures var es, ms := EventEntries(e), EventMembers(e);
      && |es| == 9 && |ms| == 9
      && NormalMember(es[4]) == ms[5] && NormalMember(es[5]) == ms[2] && NormalMember(es[6]) == ms[4]
      && NormalMember(es[7]) == ms[0] && NormalMember(es[8]) == ms[1]
  {
    hide NormalMember, FormatTimestamp, Plain, FromScalars, TextEntry, Normal, LevelName;
    EventNamesArePlain();
    TextNormal("name", e.name);
    TextNormal("level", LevelName(e.level));
    EntryNormal("metrics", VList(MetricDicts(e.metrics)));
    OptionalNormal("error", e.error, 1, 32);
    OptionalNormal("fingerprint", e.fingerprint, 1, 32);
  }

  lemma EventKeysSorted(e: Event)
    ensures var ms := EventMembers(e); forall i | 0 < i < |ms| :: Before(ms[i - 1].key, ms[i].key)
  {
    hide Before, FormatTimestamp, LevelName;
    KeysDecided("error", "fingerprint", 0);
    KeysDecided("fingerprint", "level", 0);
    KeysDecided("level", "line", 1);
    KeysDecided("line", "metrics", 0);
    KeysDecided("metrics", "name", 0);
    KeysDecided("name", "privacy", 0);
    KeysDecided("privacy", "schema", 0);
    KeysDecided("schema", "ts", 0);
  }

  lemma EventValuesSound(e: Event)
    requires InRange(e.ts) && Sound(VList(MetricDicts(e.metrics)), 1, DEFAULT_MAX_DEPTH)
    ensures var es := EventEntries(e); forall i | 0 <= i < |es| ::
      es[i].key.Text? && ScalarsOnly(es[i].key.s) && Sound(es[i].value, 1, DEFAULT_MAX_DEPTH)
  {
    hide FromScalars, LevelName, MetricDicts, InRange;
    assert Sound(VInt(1), 1, 32) && Sound(VTime(Aware(e.ts)), 1, 32);
    TextSound("event", 1, 32); TextSound("internal", 1, 32);
    TextSound(e.name, 1, 32); TextSound(LevelName(e.level), 1, 32);
    assert Sound(VNull, 1, 32);
    if e.error.Some? { TextSound(e.error.value, 1, 32); }
    if e.fingerprint.Some? { TextSound(e.fingerprint.value, 1, 32); }
    hide Sound;
    forall i | 0 <= i < 9 ensures EventEntries(e)[i].key.Text? && ScalarsOnly(EventEntries(e)[i].key.s) {}
  }

  /** The event line is the canonical encoding of the event dictionary, which breaks no rule. */
  lemma EventIsCanonical(e: Event)
    requires e.Valid()
    ensures Normal(VDict(EventEntries(e))) == JObj(EventMembers(e))
    ensures Sound(VDict(EventEntries(e)), 0, DEFAULT_MAX_DEPTH)
  {
    hide Before, Picks, Normal, EventEntries, EventMembers, NormalMembers, Sound, Plain, ScalarsOnly, TextsPlain;
    EventIsPlain(e);
    EventEntriesNormal(e);
    EventKeysSorted(e);
    EventValuesSound(e);
    SortedProjection(EventEntries(e), EventMembers(e), [7, 8, 5, 1, 6, 4, 2, 0, 3]);
    TextDictSound(EventEntries(e), 0, DEFAULT_MAX_DEPTH);
  }

  lemma EventIsPlain(e: Event)
    requires e.Valid()
    ensures TextsPlain(e) && Sound(VList(MetricDicts(e.metrics)), 1, DEFAULT_MAX_DEPTH)
  {
    hide Plain, Normal, Sound, MetricDicts, LevelName;
    EventTextsArePlain(e);
    MetricListIsCanonical(e.metrics, 1, DEFAULT_MAX_DEPTH);
  }

  // ---- reading the line back -------------------------------------------------------------------------

  lemma EventFields(e: Event)
    ensures var ms := EventMembers(e);
      |ms| == 9 && DistinctKeys(ms) && forall i | 0 <= i < 9 :: Lookup(ms, ms[i].key) == Some(ms[i].value)
  {
    hide Before, Lookup, FormatTimestamp, LevelName;
    var ms := EventMembers(e);
    EventKeysSorted(e);
    SortedByNeighbours(ms);
    SortedIsDistinct(ms);
    forall i | 0 <= i < 9 ensures Lookup(ms, ms[i].key) == Some(ms[i].value) { LookupDistinct(ms, i); }
  }

  lemma EventKeySet(e: Event)
    ensures KeySet(EventMembers(e)) == EVENT_KEYS
  {
    hide FormatTimestamp, LevelName;
    KeySetInOrder(EventMembers(e), EVENT_KEYS_IN_ORDER);
  }

  function SimplifyAll(metrics: seq<Metric>): (r: seq<Metric>)
    ensures |r| == |metrics| && forall i | 0 <= i < |r| :: r[i] == Simplify(metrics[i])
  {
    seq(|metrics|, i requires 0 <= i < |metrics| => Simplify(metrics[i]))
  }

  /** The event a written event is read back as. */
  function ReadBack(e: Event): Event { e.(metrics := SimplifyAll(e.metrics)) }

  lemma MetricsRoundTrip(metrics: seq<Metric>)
    requires |metrics| <= MAX_LOG_METRICS && forall i | 0 <= i < |metrics| :: MetricValid(metrics[i])
    requires forall i | 0 < i < |metrics| :: Before(metrics[i - 1].name, metrics[i].name)
    ensures MetricsOf(MetricJsons(metrics)) == Some(SimplifyAll(metrics))
    ensures MetricJsons(SimplifyAll(metrics)) == MetricJsons(metrics)
  {
    hide Before, MetricOf, MetricJson, MetricValid;
    var items := MetricJsons(metrics);
    forall i | 0 <= i < |metrics|
      ensures MetricOf(items[i]) == Some(Simplify(metrics[i])) && MetricJson(Simplify(metrics[i])) == items[i]
    {
      MetricRoundTrip(metrics[i]);
    }
    assert MetricsReadable(items);
    assert MetricsOf(items).value == SimplifyAll(metrics);
    assert MetricJsons(SimplifyAll(metrics)) == items;
  }

  lemma EventOfMembers(e: Event)
    requires e.Valid()
    ensures EventOf(EventMembers(e)) == Some(ReadBack(e)) && EventMembers(ReadBack(e)) == EventMembers(e)
  {
    hide Lookup, FormatTimestamp, ParseTimestamp, LevelName, LevelOf, MetricsOf, MetricJsons, IsMachineName, IsErrorCode;
    hide FingerprintKind, Before, MetricValid;
    EventFields(e);
    ParseFormat(e.ts);
    LevelRoundTrip(e.level);
    MetricsRoundTrip(e.metrics);
    var ms := EventMembers(e);
    assert Lookup(ms, ms[0].key) == Some(ms[0].value) && Lookup(ms, ms[1].key) == Some(ms[1].value);
    assert Lookup(ms, ms[2].key) == Some(ms[2].value) && Lookup(ms, ms[3].key) == Some(ms[3].value);
    assert Lookup(ms, ms[4].key) == Some(ms[4].value) && Lookup(ms, ms[5].key) == Some(ms[5].value);
    assert Lookup(ms, ms[6].key) == Some(ms[6].value) && Lookup(ms, ms[7].key) == Some(ms[7].value);
    assert Lookup(ms, ms[8].key) == Some(ms[8].value);
  }

  /** Every bounded line of a valid event is accepted, with the event's timestamp. */
  lemma ProjectedLineIsAccepted(e: Event)
    requires e.Valid() && |EventLine(e)| <= MAX_EVENT_LINE_BYTES
    ensures ValidateEventLine(EventLine(e)) == Some(e.ts)
  {
    hide Loads, Print, EventMembers, KeySet, EventOf;
    LoadsPrinted(JObj(EventMembers(e)));
    EventKeySet(e);
    EventOfMembers(e);
  }

  lemma EventOfIsValid(ms: seq<Member>)
    ensures EventOf(ms).Some? ==> EventOf(ms).value.Valid()
  {
    hide ParseTimestamp, InRange, Lookup, MetricsOf, IsMachineName, IsErrorCode, FingerprintKind, Before;
    match Lookup(ms, "ts")
    case Some(JStr(s)) => ParsedInRange(s);
    case _ =>
  }

  /** Whatever the reader accepts is the exact re-encoding of a valid event, and it reports its time. */
  lemma AcceptedLineIsProjected(line: string, t: Instant) returns (e: Event)
    requires ValidateEventLine(line) == Some(t)
    ensures e.Valid() && EventLine(e) == line && e.ts == t && |line| <= MAX_EVENT_LINE_BYTES
  {
    hide Loads, EventLine, EventOf, KeySet;
    match Loads(line)
    case Some(JObj(ms)) =>
      EventOfIsValid(ms);
      e := EventOf(ms).value;
  }

  /** The reader accepts exactly the bounded lines of valid events. */
  lemma ReaderAcceptsExactlyProjections(line: string, t: Instant)
    ensures ValidateEventLine(line) == Some(t) <==>
      |line| <= MAX_EVENT_LINE_BYTES && exists e: Event :: e.Valid() && e.ts == t && EventLine(e) == line
  {
    hide ValidateEventLine, EventLine;
    if ValidateEventLine(line) == Some(t) {
      var e := AcceptedLineIsProjected(line, t);
    }
    if |line| <= MAX_EVENT_LINE_BYTES {
      forall e: Event | e.Valid() && e.ts == t && EventLine(e) == line ensures ValidateEventLine(line) == Some(t) {
        ProjectedLineIsAccepted(e);
      }
    }
  }

  /** No event line is mistaken for a trailer, and every one is a complete line. */
  lemma AcceptedLineIsEventLine(line: string)
    requires ValidateEventLine(line).Some?
    ensures IsLine(line) && !IsTrailerLine(line) && |line| <= MAX_EVENT_LINE_BYTES
  {
    hide Loads, Print, EventMembers, Lookup, ValidateEventLine;
    var e := AcceptedLineIsProjected(line, ValidateEventLine(line).value);
    var j := JObj(EventMembers(e));
    PrintedIsLine(j);
    LoadsPrinted(j);
    EventLineKind(e);
  }

  lemma EventLineKind(e: Event)
    ensures Lookup(EventMembers(e), "line") == Some(JStr("event"))
  {
    hide Lookup, FormatTimestamp, LevelName;
    EventFields(e);
    var ms := EventMembers(e);
    assert Lookup(ms, ms[3].key) == Some(ms[3].value);
  }
}

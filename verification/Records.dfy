/** Record identity: digests over canonical projections, stable under replay and distinct across offsets. */
module Records {
  import opened Common
  import opened JsonText
  import opened JsonRoundTrip
  import opened KeySort
  import opened Clock
  import opened Canonical
  import opened CanonicalEncoding
  import opened CanonicalTheorems
  import opened LineProjection
  import LogWire
  import Base32

  // ---- dictionaries with plain names -------------------------------------------------------------------------------

  datatype Field = Field(name: string, value: Value)

  function Entries(fields: seq<Field>): (r: seq<Entry>)
    ensures |r| == |fields| && forall i | 0 <= i < |r| :: r[i] == TextEntry(fields[i].name, fields[i].value)
  {
    seq(|fields|, i requires 0 <= i < |fields| => TextEntry(fields[i].name, fields[i].value))
  }

  function Dict(fields: seq<Field>): Value { VDict(Entries(fields)) }

  function Words(s: string): Value { VStr(FromScalars(s)) }
  function Time(t: Instant): Value { VTime(Aware(t)) }

  /** A field that `exclude_none` drops. */
  function Optional(name: string, text: Option<string>): seq<Field> {
    if text.Some? then [Field(name, Words(text.value))] else []
  }

  // ---- digests ---------------------------------------------------------------------------------------------------------

  function Nibble(c: char): (v: nat)
    ensures v < 16
  {
    var digit := HexValue(c);
    if digit.Some? && digit.value < 16 then digit.value else 0
  }

  /** The 32 bytes a lower-case hexadecimal digest stands for. */
  function HexBytes(h: LogWire.Hex64): (d: seq<nat>)
    ensures Base32.IsDigest(d)
  {
    assert Base32.Pow2(8) == 256;
    seq(32, i requires 0 <= i < 32 => HexByte(h[2 * i], h[2 * i + 1]))
  }

  function HexByte(high: char, low: char): (v: nat)
    ensures v < 256
  {
    16 * Nibble(high) + Nibble(low)
  }

  predicate IsHexDigit(c: char) { '0' <= c <= '9' || 'a' <= c <= 'f' }

  lemma HexByteInjective(a: char, b: char, c: char, d: char)
    requires IsHexDigit(a) && IsHexDigit(b) && IsHexDigit(c) && IsHexDigit(d) && HexByte(a, b) == HexByte(c, d)
    ensures a == c && b == d
  {
    assert Nibble(a) == Nibble(c) && Nibble(b) == Nibble(d);
  }

  lemma HexBytesInjective(a: LogWire.Hex64, b: LogWire.Hex64)
    requires HexBytes(a) == HexBytes(b)
    ensures a == b
  {
    hide HexByte;
    forall i | 0 <= i < 32 ensures a[2 * i] == b[2 * i] && a[2 * i + 1] == b[2 * i + 1] {
      assert HexBytes(a)[i] == HexBytes(b)[i];
      HexByteInjective(a[2 * i], a[2 * i + 1], b[2 * i], b[2 * i + 1]);
    }
    forall k | 0 <= k < 64 ensures a[k] == b[k] {
      var i := k / 2;
      assert k == 2 * i || k == 2 * i + 1;
    }
  }

  /** Each byte is the one whose two hexadecimal digits the text has at its place. */
  lemma HexBytesSpelled(h: LogWire.Hex64, i: nat)
    requires i < 32
    ensures var b := HexBytes(h)[i];
      h[2 * i] == "0123456789abcdef"[b / 16] && h[2 * i + 1] == "0123456789abcdef"[b % 16]
  {
    hide Nibble;
    NibbleSpelled(h[2 * i]);
    NibbleSpelled(h[2 * i + 1]);
    var b, high, low := HexBytes(h)[i], Nibble(h[2 * i]), Nibble(h[2 * i + 1]);
    assert b == 16 * high + low;
    assert b / 16 == high && b % 16 == low;
  }

  lemma NibbleSpelled(c: char)
    requires IsHexDigit(c)
    ensures "0123456789abcdef"[Nibble(c)] == c
  {
  }

  /** What is hashed for one kind of digest is never what is hashed for another. */
  lemma DomainsAreApart(a: string, b: string)
    ensures RECORD_ID_DOMAIN + a != CONTENT_DOMAIN + b && RECORD_ID_DOMAIN + a != DEDUPE_DOMAIN + b
    ensures CONTENT_DOMAIN + a != DEDUPE_DOMAIN + b
  {
    assert (RECORD_ID_DOMAIN + a)[9] == 'r' && (CONTENT_DOMAIN + a)[9] == 'c' && (CONTENT_DOMAIN + b)[9] == 'c';
    assert (DEDUPE_DOMAIN + b)[9] == 'd';
  }

  const RECORD_ID_DOMAIN: string := "milhouse-record-id-v1\0"
  const CONTENT_DOMAIN: string := "milhouse-content-v1\0"
  const DEDUPE_DOMAIN: string := "milhouse-dedupe-v1\0"

  /** The projection is within the default canonical limits. */
  ghost predicate Projects(v: Value) { Encodable(v, 32, 10_000, 262_144) }

  /** `_domain_digest` of a projection within the limits, in hexadecimal. */
  function DomainDigest(domain: string, v: Value): LogWire.Hex64 { LogWire.SHA256(domain + Print(Normal(v))) }

  /** Two inputs on which the hash collides. */
  ghost predicate Collision(x: string, y: string) { x != y && LogWire.SHA256(x) == LogWire.SHA256(y) }

  function RecordIdOf(identity: Value): string { "mh_" + Base32.Encode(HexBytes(DomainDigest(RECORD_ID_DOMAIN, identity))) }
  function DedupeKeyOf(dedupe: Value): string { "mh_d1_" + Base32.Encode(HexBytes(DomainDigest(DEDUPE_DOMAIN, dedupe))) }
  function ContentHashOf(content: seq<Field>): LogWire.Hex64 { DomainDigest(CONTENT_DOMAIN, Dict(content)) }

  /** Every derived identifier is one the token validator accepts. */
  lemma DerivedTokensAreValid(v: Value)
    ensures Base32.ValidDigestToken(RecordIdOf(v), "mh_") && Base32.ValidDigestToken(DedupeKeyOf(v), "mh_d1_")
  {
    Base32.AcceptsExactlyEncodings(RecordIdOf(v), "mh_");
    Base32.AcceptsExactlyEncodings(DedupeKeyOf(v), "mh_d1_");
  }

  /** The two projections collide under a digest domain. */
  ghost predicate Collides(domain: string, v: Value, w: Value) {
    Collision(domain + Print(Normal(v)), domain + Print(Normal(w)))
  }

  /** Equal digests mean equal projections, up to the canonical normal form, or a hash collision. */
  lemma EqualDigestsMeanAgreement(domain: string, v: Value, w: Value)
    requires DomainDigest(domain, v) == DomainDigest(domain, w)
    ensures Normal(v) == Normal(w) || Collides(domain, v, w)
  {
    hide Print, Normal;
    var x, y := domain + Print(Normal(v)), domain + Print(Normal(w));
    if x == y {
      assert x[|domain|..] == Print(Normal(v)) && y[|domain|..] == Print(Normal(w));
      PrintInjective(Normal(v), Normal(w));
    }
  }

  /** Equal record identifiers mean equal projections, up to the canonical normal form, or a hash collision. */
  lemma EqualIdsMeanAgreement(v: Value, w: Value)
    requires RecordIdOf(v) == RecordIdOf(w)
    ensures Normal(v) == Normal(w) || Collides(RECORD_ID_DOMAIN, v, w)
  {
    hide Print, Normal, HexBytes, RECORD_ID_DOMAIN, Collides;
    var a, b := DomainDigest(RECORD_ID_DOMAIN, v), DomainDigest(RECORD_ID_DOMAIN, w);
    assert RecordIdOf(v)[3..] == Base32.Encode(HexBytes(a)) && RecordIdOf(w)[3..] == Base32.Encode(HexBytes(b));
    Base32.EncodeInjective(HexBytes(a), HexBytes(b));
    HexBytesInjective(a, b);
    EqualDigestsMeanAgreement(RECORD_ID_DOMAIN, v, w);
  }

  /** Dictionaries with the same normal form have the same normal value under each key. */
  lemma SameFieldSameNormal(a: seq<Entry>, b: seq<Entry>, i: nat, j: nat, depth: nat)
    requires Normal(VDict(a)) == Normal(VDict(b)) && i < |a| && j < |b| && KeyText(a[i].key) == KeyText(b[j].key)
    requires Sound(VDict(b), depth, DEFAULT_MAX_DEPTH)
    ensures Normal(a[i].value) == Normal(b[j].value)
  {
    hide Sort, Normal, Sound, KeyText;
    SoundKeysAreDistinct(b, depth, DEFAULT_MAX_DEPTH);
    DictNormal(a);
    DictNormal(b);
    MemberOfBoth(NormalMembers(a), NormalMembers(b), i, j);
  }

  lemma DictNormal(entries: seq<Entry>)
    ensures Normal(VDict(entries)) == JObj(Sort(NormalMembers(entries)))
  {
  }

  lemma MemberOfBoth(s: seq<Member>, t: seq<Member>, i: nat, j: nat)
    requires Sort(s) == Sort(t) && DistinctKeys(t) && i < |s| && j < |t| && s[i].key == t[j].key
    ensures s[i] == t[j]
  {
    hide Sort;
    SortKeeps(s);
    SortKeeps(t);
    assert s[i] in multiset(s);
    assert s[i] in multiset(t);
    var k :| 0 <= k < |t| && t[k] == s[i];
  }

  // ---- record drafts -----------------------------------------------------------------------------------------------------

  /** Where and what was observed; the parts are in the order they were given. */
  datatype Coordinate = Coordinate(kind: string, parts: seq<Field>)

  datatype Source = Source(
    id: string, type_: string, producer: string, namespaceId: string, generationDigest: string, observation: Coordinate)

  datatype Collector = Collector(id: string, type_: string, implementationVersion: string)
  datatype Target = Target(id: string, name: string, kind: string, environment: string)

  datatype Draft = Draft(
    recordType: string, name: string, occurredAt: Instant, observedAt: Instant, ingestedAt: Instant, expiresAt: Instant,
    sourceEventId: Option<string>, sourceEntityId: Option<string>, operationId: string, collectorRunId: Option<string>,
    scope: string, source: Source, collector: Option<Collector>, target: Option<Target>, severity: string,
    trustLevel: string, privacyClass: string, redactionVersion: string, correlation: seq<Field>, dimensions: seq<Field>,
    data: Value)

  function CoordinateFields(o: Coordinate): seq<Field> { [Field("kind", Words(o.kind)), Field("parts", Dict(o.parts))] }

  /** `SourceIdentityV1`. */
  function IdentitySourceFields(s: Source): seq<Field> {
    [ Field("id", Words(s.id)), Field("type", Words(s.type_)), Field("observation_namespace_id", Words(s.namespaceId)),
      Field("source_generation_digest", Words(s.generationDigest)) ]
  }

  /** `SourceDescriptorV1`. */
  function SourceFields(s: Source): seq<Field> {
    [ Field("id", Words(s.id)), Field("type", Words(s.type_)), Field("producer", Words(s.producer)),
      Field("observation_namespace_id", Words(s.namespaceId)),
      Field("source_generation_digest", Words(s.generationDigest)),
      Field("observation", Dict(CoordinateFields(s.observation))) ]
  }

  /** `RecordIdentityV1`, dumped without absent fields. */
  function IdentityFields(d: Draft, installation: string): seq<Field> {
    [ Field("identity_version", VInt(1)), Field("installation_id", Words(installation)),
      Field("schema_version", Words("1.0")), Field("redaction_version", Words(d.redactionVersion)),
      Field("source", Dict(IdentitySourceFields(d.source))),
      Field("scope", Words(d.scope)), Field("record_type", Words(d.recordType)), Field("name", Words(d.name)),
      Field("observation", Dict(CoordinateFields(d.source.observation))) ]
    + Optional("target_id", if d.target.Some? then Some(d.target.value.id) else None)
    + Optional("source_event_id", d.sourceEventId) + Optional("source_entity_id", d.sourceEntityId)
  }

  /** `RecordDedupeV1.from_identity`, dumped without absent fields. */
  function DedupeFields(d: Draft, installation: string): seq<Field> {
    [ Field("dedupe_version", VInt(1)), Field("installation_id", Words(installation)),
      Field("source", Dict([
        Field("type", Words(d.source.type_)), Field("id", Words(d.source.id)),
        Field("observation_namespace_id", Words(d.source.namespaceId))])),
      Field("scope", Words(d.scope)), Field("record_type", Words(d.recordType)), Field("name", Words(d.name)),
      Field("observation", Dict(CoordinateFields(d.source.observation))) ]
    + Optional("target_id", if d.target.Some? then Some(d.target.value.id) else None)
  }

  function CollectorFields(c: Collector): seq<Field> {
    [ Field("id", Words(c.id)), Field("type", Words(c.type_)), Field("plugin_api_version", Words("1.0")),
      Field("implementation_version", Words(c.implementationVersion)) ]
  }

  /** A dumped field: a plain value, or the collector's own fields. */
  datatype Dumped = Plainly(field: Field) | Collecting(fields: seq<Field>)

  /** `model_dump(exclude_none=True)` of a draft. */
  function DraftFields(d: Draft): seq<Dumped> {
    Stable(d) + Instants(d) + Opaque(d) + [Plainly(Field("operation_id", Words(d.operationId)))]
    + Undivided(Optional("collector_run_id", d.collectorRunId)) + Descriptors(d)
    + (if d.collector.Some? then [Collecting(CollectorFields(d.collector.value))] else []) + Remainder(d)
  }

  function Undivided(fields: seq<Field>): (r: seq<Dumped>)
    ensures |r| == |fields| && forall i | 0 <= i < |r| :: r[i] == Plainly(fields[i])
  {
    seq(|fields|, i requires 0 <= i < |fields| => Plainly(fields[i]))
  }

  function Stable(d: Draft): seq<Dumped> {
    Undivided([ Field("schema_version", Words("1.0")), Field("record_type", Words(d.recordType)), Field("name", Words(d.name)),
      Field("occurred_at", Time(d.occurredAt)) ])
  }

  function Instants(d: Draft): seq<Dumped> {
    Undivided([ Field("observed_at", Time(d.observedAt)), Field("ingested_at", Time(d.ingestedAt)),
      Field("expires_at", Time(d.expiresAt)) ])
  }

  function Opaque(d: Draft): seq<Dumped> {
    Undivided(Optional("source_event_id", d.sourceEventId) + Optional("source_entity_id", d.sourceEntityId))
  }

  function Descriptors(d: Draft): seq<Dumped> {
    Undivided([ Field("scope", Words(d.scope)),
      Field("source", Dict(SourceFields(d.source))) ])
  }

  function Remainder(d: Draft): seq<Dumped> {
    (if d.target.Some?
     then
       var t := d.target.value;
       Undivided([ Field("target", Dict([
         Field("id", Words(t.id)), Field("name", Words(t.name)), Field("kind", Words(t.kind)),
         Field("environment", Words(t.environment))])) ])
     else [])
    + Undivided([ Field("severity", Words(d.severity)), Field("trust_level", Words(d.trustLevel)),
      Field("privacy_class", Words(d.privacyClass)), Field("redaction_version", Words(d.redactionVersion)),
      Field("correlation", Dict(d.correlation)), Field("dimensions", Dict(d.dimensions)), Field("data", d.data) ])
  }

  // ---- the content projection ---------------------------------------------------------------------------------------------

  const EXCLUDED: set<string> := {
    "record_id", "dedupe_key", "content_hash", "operation_id", "collector_run_id", "observed_at", "ingested_at", "expires_at" }

  function Kept(fields: seq<Field>, dropped: set<string>): seq<Field> {
    if fields == [] then []
    else (if fields[0].name in dropped then [] else [fields[0]]) + Kept(fields[1..], dropped)
  }

  /** `_content_projection`: without the identifiers, the run's own fields, and the collector's version. */
  function ContentProjection(fields: seq<Dumped>): seq<Field> {
    if fields == [] then []
    else
      (match fields[0]
       case Plainly(f) => if f.name in EXCLUDED then [] else [f]
       case Collecting(c) => [Field("collector", Dict(Kept(c, {"implementation_version"})))])
      + ContentProjection(fields[1..])
  }

  lemma {:induction false} ProjectionConcat(a: seq<Dumped>, b: seq<Dumped>)
    ensures ContentProjection(a + b) == ContentProjection(a) + ContentProjection(b)
  {
    if a == [] {
      assert a + b == b;
    } else {
      assert (a + b)[1..] == a[1..] + b;
      ProjectionConcat(a[1..], b);
    }
  }

  lemma {:induction false} ProjectsToNothing(fields: seq<Dumped>)
    requires forall i | 0 <= i < |fields| :: fields[i].Plainly? && fields[i].field.name in EXCLUDED
    ensures ContentProjection(fields) == []
  {
    if fields != [] { ProjectsToNothing(fields[1..]); }
  }

  /** The draft's parts that a run's clock decides. */
  ghost predicate SameButForTheRun(d: Draft, e: Draft) {
    && e == d.(observedAt := e.observedAt, ingestedAt := e.ingestedAt, expiresAt := e.expiresAt,
               operationId := e.operationId, collectorRunId := e.collectorRunId, collector := e.collector)
    && (d.collector.Some? <==> e.collector.Some?)
    && (d.collector.Some? ==> e.collector.value == d.collector.value.(implementationVersion := e.collector.value.implementationVersion))
  }

  /** What is left of a draft's dump. */
  lemma ProjectedDraft(d: Draft)
    ensures ContentProjection(DraftFields(d)) ==
      ContentProjection(Stable(d)) + ContentProjection(Opaque(d)) + ContentProjection(Descriptors(d))
      + ContentProjection(if d.collector.Some? then [Collecting(CollectorFields(d.collector.value))] else [])
      + ContentProjection(Remainder(d))
  {
    hide ContentProjection, Stable, Instants, Opaque, Descriptors, Remainder, CollectorFields, Optional;
    var collecting := if d.collector.Some? then [Collecting(CollectorFields(d.collector.value))] else [];
    var operation := [Plainly(Field("operation_id", Words(d.operationId)))];
    var run := Undivided(Optional("collector_run_id", d.collectorRunId));
    VolatileFields(d);
    ProjectionConcat(Stable(d) + Instants(d) + Opaque(d) + operation + run + Descriptors(d) + collecting, Remainder(d));
    ProjectionConcat(Stable(d) + Instants(d) + Opaque(d) + operation + run + Descriptors(d), collecting);
    ProjectionConcat(Stable(d) + Instants(d) + Opaque(d) + operation + run, Descriptors(d));
    ProjectionConcat(Stable(d) + Instants(d) + Opaque(d) + operation, run);
    ProjectionConcat(Stable(d) + Instants(d) + Opaque(d), operation);
    ProjectionConcat(Stable(d) + Instants(d), Opaque(d));
    ProjectionConcat(Stable(d), Instants(d));
  }

  lemma VolatileFields(d: Draft)
    ensures ContentProjection(Instants(d)) == []
    ensures ContentProjection([Plainly(Field("operation_id", Words(d.operationId)))]) == []
    ensures ContentProjection(Undivided(Optional("collector_run_id", d.collectorRunId))) == []
  {
    hide ContentProjection;
    ProjectsToNothing(Instants(d));
    ProjectsToNothing([Plainly(Field("operation_id", Words(d.operationId)))]);
    ProjectsToNothing(Undivided(Optional("collector_run_id", d.collectorRunId)));
  }

  /** Two drafts that differ only in what a run decides have the same identifiers and the same content hash. */
  lemma RunsShareIdentity(d: Draft, e: Draft, installation: string)
    requires SameButForTheRun(d, e)
    ensures IdentityFields(e, installation) == IdentityFields(d, installation)
    ensures DedupeFields(e, installation) == DedupeFields(d, installation)
    ensures ContentProjection(DraftFields(e)) == ContentProjection(DraftFields(d))
  {
    hide DraftFields;
    ProjectedDraft(d);
    ProjectedDraft(e);
    SameParts(d, e);
    if d.collector.Some? { CollectorVersionDropped(d.collector.value, e.collector.value); }
  }

  lemma SameParts(d: Draft, e: Draft)
    requires SameButForTheRun(d, e)
    ensures Stable(e) == Stable(d) && Opaque(e) == Opaque(d) && Descriptors(e) == Descriptors(d) && Remainder(e) == Remainder(d)
  {
  }

  lemma CollectorVersionDropped(c: Collector, k: Collector)
    requires k == c.(implementationVersion := k.implementationVersion)
    ensures ContentProjection([Collecting(CollectorFields(c))]) == ContentProjection([Collecting(CollectorFields(k))])
  {
    KeptCollector(c);
    KeptCollector(k);
    assert CollectorFields(c)[..3] == CollectorFields(k)[..3];
    CollectorAlone(c);
    CollectorAlone(k);
  }

  lemma CollectorAlone(c: Collector)
    ensures ContentProjection([Collecting(CollectorFields(c))])
      == [Field("collector", Dict(Kept(CollectorFields(c), {"implementation_version"})))]
  {
    hide Kept, CollectorFields;
    var one := [Collecting(CollectorFields(c))];
    assert one[1..] == [];
  }

  lemma KeptCollector(c: Collector)
    ensures Kept(CollectorFields(c), {"implementation_version"}) == CollectorFields(c)[..3]
  {
    var f := CollectorFields(c);
    var dropped := {"implementation_version"};
    assert f[0].name !in dropped && f[1].name !in dropped && f[2].name !in dropped && f[3].name in dropped;
    assert Kept(f[4..], dropped) == [];
    assert Kept(f[3..], dropped) == [] by { assert f[3..][1..] == f[4..] && f[3..][0] == f[3]; }
    assert Kept(f[2..], dropped) == [f[2]] by { assert f[2..][1..] == f[3..] && f[2..][0] == f[2]; }
    assert Kept(f[1..], dropped) == [f[1], f[2]] by { assert f[1..][1..] == f[2..] && f[1..][0] == f[1]; }
  }

  // ---- distinct observations -------------------------------------------------------------------------------------------------

  /** Drafts whose observation has different normal values under the same part have different record identifiers, unless
      the hash collides. */
  lemma DifferentPartsDiffer(d: Draft, e: Draft, installation: string, i: nat)
    requires var v, w := Dict(IdentityFields(d, installation)), Dict(IdentityFields(e, installation));
      Projects(v) && Projects(w)
    requires var a, b := d.source.observation.parts, e.source.observation.parts;
      i < |a| && i < |b| && a[i].name == b[i].name && Normal(a[i].value) != Normal(b[i].value)
    ensures var v, w := Dict(IdentityFields(d, installation)), Dict(IdentityFields(e, installation));
      RecordIdOf(v) != RecordIdOf(w) || Collides(RECORD_ID_DOMAIN, v, w)
  {
    hide Normal, Print, IdentityFields, RecordIdOf, RECORD_ID_DOMAIN, Sound, Collides;
    var v, w := Dict(IdentityFields(d, installation)), Dict(IdentityFields(e, installation));
    if RecordIdOf(v) == RecordIdOf(w) {
      EqualIdsMeanAgreement(v, w);
      if Normal(v) == Normal(w) { SamePart(d, e, installation, i); }
    }
  }

  lemma SamePart(d: Draft, e: Draft, installation: string, i: nat)
    requires Normal(Dict(IdentityFields(d, installation))) == Normal(Dict(IdentityFields(e, installation)))
    requires Sound(Dict(IdentityFields(e, installation)), 0, DEFAULT_MAX_DEPTH)
    requires var a, b := d.source.observation.parts, e.source.observation.parts; i < |a| && i < |b| && a[i].name == b[i].name
    ensures Normal(d.source.observation.parts[i].value) == Normal(e.source.observation.parts[i].value)
  {
    hide Normal, IdentityFields, Sound, KeyText;
    var f, g := IdentityFields(d, installation), IdentityFields(e, installation);
    ObservationField(d, installation);
    ObservationField(e, installation);
    SoundDict(Entries(g), 0, DEFAULT_MAX_DEPTH);
    SameFieldSameNormal(Entries(f), Entries(g), 8, 8, 0);
    var x, y := CoordinateFields(d.source.observation), CoordinateFields(e.source.observation);
    SoundDict(Entries(y), 1, DEFAULT_MAX_DEPTH);
    SameFieldSameNormal(Entries(x), Entries(y), 1, 1, 1);
    SameFieldSameNormal(Entries(d.source.observation.parts), Entries(e.source.observation.parts), i, i, 2);
  }

  /** Drafts of different source generations have different record identifiers and content hashes, unless the hash
      collides. */
  lemma GenerationsDiffer(d: Draft, e: Draft, installation: string)
    requires d.source.generationDigest != e.source.generationDigest
    requires Plain(d.source.generationDigest) && Plain(e.source.generationDigest)
    requires Projects(Dict(IdentityFields(e, installation))) && Projects(Dict(ContentProjection(DraftFields(e))))
    ensures var v, w := Dict(IdentityFields(d, installation)), Dict(IdentityFields(e, installation));
      RecordIdOf(v) != RecordIdOf(w) || Collides(RECORD_ID_DOMAIN, v, w)
    ensures var v, w := ContentProjection(DraftFields(d)), ContentProjection(DraftFields(e));
      ContentHashOf(v) != ContentHashOf(w) || Collides(CONTENT_DOMAIN, Dict(v), Dict(w))
  {
    hide Normal, Print, IdentityFields, RecordIdOf, RECORD_ID_DOMAIN, CONTENT_DOMAIN, Sound, Collides, ContentProjection;
    hide DraftFields, DomainDigest;
    var v, w := Dict(IdentityFields(d, installation)), Dict(IdentityFields(e, installation));
    if RecordIdOf(v) == RecordIdOf(w) {
      EqualIdsMeanAgreement(v, w);
      if Normal(v) == Normal(w) { SameIdentityGeneration(d, e, installation); }
    }
    var x, y := ContentProjection(DraftFields(d)), ContentProjection(DraftFields(e));
    if ContentHashOf(x) == ContentHashOf(y) {
      EqualDigestsMeanAgreement(CONTENT_DOMAIN, Dict(x), Dict(y));
      if Normal(Dict(x)) == Normal(Dict(y)) { SameContentGeneration(d, e); }
    }
  }

  lemma SameIdentityGeneration(d: Draft, e: Draft, installation: string)
    requires Normal(Dict(IdentityFields(d, installation))) == Normal(Dict(IdentityFields(e, installation)))
    requires Sound(Dict(IdentityFields(e, installation)), 0, DEFAULT_MAX_DEPTH)
    requires Plain(d.source.generationDigest) && Plain(e.source.generationDigest)
    ensures d.source.generationDigest == e.source.generationDigest
  {
    hide Normal, IdentityFields, Sound, KeyText;
    var f, g := IdentityFields(d, installation), IdentityFields(e, installation);
    ObservationField(d, installation);
    ObservationField(e, installation);
    SoundDict(Entries(g), 0, DEFAULT_MAX_DEPTH);
    SameFieldSameNormal(Entries(f), Entries(g), 4, 4, 0);
    SameFieldSameNormal(Entries(IdentitySourceFields(d.source)), Entries(IdentitySourceFields(e.source)), 3, 3, 1);
    PlainIsNormal(d.source.generationDigest);
    PlainIsNormal(e.source.generationDigest);
  }

  lemma SameContentGeneration(d: Draft, e: Draft)
    requires Normal(Dict(ContentProjection(DraftFields(d)))) == Normal(Dict(ContentProjection(DraftFields(e))))
    requires Sound(Dict(ContentProjection(DraftFields(e))), 0, DEFAULT_MAX_DEPTH)
    requires Plain(d.source.generationDigest) && Plain(e.source.generationDigest)
    ensures d.source.generationDigest == e.source.generationDigest
  {
    hide Normal, ContentProjection, DraftFields, Sound, KeyText;
    var f, g := ContentProjection(DraftFields(d)), ContentProjection(DraftFields(e));
    var i := SourceInContent(d);
    var j := SourceInContent(e);
    SoundDict(Entries(g), 0, DEFAULT_MAX_DEPTH);
    SameFieldSameNormal(Entries(f), Entries(g), i, j, 0);
    SameFieldSameNormal(Entries(SourceFields(d.source)), Entries(SourceFields(e.source)), 4, 4, 1);
    PlainIsNormal(d.source.generationDigest);
    PlainIsNormal(e.source.generationDigest);
  }

  /** The content projection keeps the whole source descriptor. */
  lemma SourceInContent(d: Draft) returns (i: nat)
    ensures i < |ContentProjection(DraftFields(d))|
    ensures ContentProjection(DraftFields(d))[i] == Field("source", Dict(SourceFields(d.source)))
  {
    hide DraftFields, Stable, Opaque, Remainder, CollectorFields;
    ProjectedDraft(d);
    DescriptorsKept(d);
    i := |ContentProjection(Stable(d))| + |ContentProjection(Opaque(d))| + 1;
  }

  lemma DescriptorsKept(d: Draft)
    ensures ContentProjection(Descriptors(d)) == [Field("scope", Words(d.scope)), Field("source", Dict(SourceFields(d.source)))]
  {
    var f := Descriptors(d);
    assert f[1..][1..] == [] && f[1..][0] == f[1];
    assert ContentProjection(f[1..]) == [Field("source", Dict(SourceFields(d.source)))];
  }

  lemma ObservationField(d: Draft, installation: string)
    ensures |IdentityFields(d, installation)| > 8
    ensures IdentityFields(d, installation)[8] == Field("observation", Dict(CoordinateFields(d.source.observation)))
    ensures IdentityFields(d, installation)[4] == Field("source", Dict(IdentitySourceFields(d.source)))
  {
  }
}

/** The file-outbox collector: the record of one frame at one offset. */
module FileOutbox {
  import opened Common
  import opened Clock
  import opened Canonical
  import opened JsonText
  import opened JsonRoundTrip
  import opened LineProjection
  import opened CanonicalEncoding
  import opened Records
  import opened RecordTheorems

  /** One validated outbox frame. */
  datatype Frame = Frame(
    producerId: string, occurredAt: Instant, target: string, kind: string, actionability: string,
    evidence: seq<string>, data: seq<Field>)

  /** What a run supplies: its instant, its collector and target, and its redactor. */
  datatype Context = Context(now: Instant, collector: Collector, target: Target, redact: string -> string)

  const OUTBOX_NAMESPACE: string := "mh_ns1_0b17c0d1e2f34a5b8c6d7e8f9a0b1c2d"
  const NOMINAL_EXPIRY: nat := 30 * DAY

  function FrameFields(f: Frame): seq<Field> {
    [ Field("schema_version", Words("1.0")), Field("producer_id", Words(f.producerId)), Field("occurred_at", Time(f.occurredAt)),
      Field("target", Words(f.target)), Field("kind", Words(f.kind)), Field("actionability", Words(f.actionability)),
      Field("evidence_references", VList(EvidenceValues(f.evidence))), Field("data", Dict(f.data)) ]
  }

  function EvidenceValues(evidence: seq<string>): (r: seq<Value>)
    ensures |r| == |evidence| && forall i | 0 <= i < |r| :: r[i] == Words(evidence[i])
  {
    seq(|evidence|, i requires 0 <= i < |evidence| => Words(evidence[i]))
  }

  function FrameValue(f: Frame): Value { Dict(FrameFields(f)) }

  /** `_frame_digest`. */
  function FrameDigest(f: Frame): LogWire.Hex64 { LogWire.SHA256(Print(Normal(FrameValue(f)))) }

  /** `_clamp_dimension_value`, uninterpreted: a fixed function of the redacted text. */
  const Clamp: string -> string

  /** `_redact_attributes`: strings are redacted and clamped, other scalars pass through. */
  function RedactAttributes(data: seq<Field>, redact: string -> string): seq<Field> {
    seq(|data|, i requires 0 <= i < |data| =>
      match data[i].value
      case VStr(s) => if ScalarsOnly(s) then Field(data[i].name, Words(Clamp(redact(Scalars(s))))) else data[i]
      case _ => data[i])
  }

  function ObservationOf(f: Frame, offset: nat): Coordinate {
    Coordinate("outbox.frame", [
      Field("producer", Words(f.producerId)), Field("occurred_at", Words(FormatTimestamp(f.occurredAt))),
      Field("offset", VInt(offset)), Field("content", Words(FrameDigest(f)))])
  }

  const COLLECTOR_TYPE: string := "file.outbox"

  /** `_source_generation_digest`: the collector's type and implementation version. */
  function GenerationInput(version: string): string { COLLECTOR_TYPE + "\0" + version }
  function GenerationDigest(version: string): LogWire.Hex64 { LogWire.SHA256(GenerationInput(version)) }

  /** `_draft`; the collector descriptor carries the implementation version that the generation digest is taken of. */
  function DraftOf(context: Context, f: Frame, offset: nat): Draft {
    var stamp := context.collector.id + ":" + FormatTimestamp(context.now);
    var generation := GenerationDigest(context.collector.implementationVersion);
    Draft(
      "event", "outbox.frame", f.occurredAt, context.now, context.now, context.now + NOMINAL_EXPIRY, None, None, stamp,
      Some(stamp), "target",
      Source(context.collector.id, "source.outbox", "collector", OUTBOX_NAMESPACE, generation, ObservationOf(f, offset)),
      Some(context.collector), Some(context.target), "info", "authenticated", "internal", "r1-e1", [], [],
      Dict(EventData(f, context.redact)))
  }

  /** `EventDataV1`. */
  function EventData(f: Frame, redact: string -> string): seq<Field> {
    [ Field("type", Words("event")), Field("category", Words(f.kind)), Field("status", Words(f.actionability)),
      Field("attributes", Dict(RedactAttributes(f.data, redact))) ]
  }

  function RecordId(context: Context, f: Frame, offset: nat, installation: string): string {
    RecordIdOf(Dict(IdentityFields(DraftOf(context, f, offset), installation)))
  }

  function DedupeKey(context: Context, f: Frame, offset: nat, installation: string): string {
    DedupeKeyOf(Dict(DedupeFields(DraftOf(context, f, offset), installation)))
  }

  function ContentHash(context: Context, f: Frame, offset: nat): LogWire.Hex64 {
    ContentHashOf(ContentProjection(DraftFields(DraftOf(context, f, offset))))
  }

  /** A later run of the collector: another instant and perhaps another implementation version. */
  ghost predicate LaterRun(a: Context, b: Context) {
    && b == a.(now := b.now, collector := b.collector)
    && b.collector == a.collector.(implementationVersion := b.collector.implementationVersion)
  }

  /** Replaying a frame under the same collector version derives the same identifiers and content hash. */
  lemma ReplayIsStable(a: Context, b: Context, f: Frame, offset: nat, installation: string)
    requires LaterRun(a, b) && a.collector.implementationVersion == b.collector.implementationVersion
    ensures RecordId(a, f, offset, installation) == RecordId(b, f, offset, installation)
    ensures DedupeKey(a, f, offset, installation) == DedupeKey(b, f, offset, installation)
    ensures ContentHash(a, f, offset) == ContentHash(b, f, offset)
  {
    hide IdentityFields, DedupeFields, ContentProjection, DraftFields, RecordIdOf, DedupeKeyOf, ContentHashOf;
    RunsShareIdentity(DraftOf(a, f, offset), DraftOf(b, f, offset), installation);
  }

  /** The dedupe key is stable across collector versions too. */
  lemma DedupeKeyIsStable(a: Context, b: Context, f: Frame, offset: nat, installation: string)
    requires LaterRun(a, b)
    ensures DedupeKey(a, f, offset, installation) == DedupeKey(b, f, offset, installation)
  {
    hide DedupeKeyOf, ObservationOf, GenerationDigest, FormatTimestamp, RedactAttributes;
    var d, e := DraftOf(a, f, offset), DraftOf(b, f, offset);
    assert DedupeFields(d, installation) == DedupeFields(e, installation);
  }

  /** The record identifier and the content hash, by contrast, fold in the collector version: they are stable exactly
      between runs of the same version, unless the hash collides on the inputs concerned. */
  lemma ReplayIsStableIffSameVersion(a: Context, b: Context, f: Frame, offset: nat, installation: string)
    requires LaterRun(a, b)
    requires var d, e := DraftOf(a, f, offset), DraftOf(b, f, offset);
      && Projects(Dict(IdentityFields(e, installation))) && Projects(Dict(ContentProjection(DraftFields(e))))
      && !Collision(GenerationInput(a.collector.implementationVersion), GenerationInput(b.collector.implementationVersion))
      && !Collides(RECORD_ID_DOMAIN, Dict(IdentityFields(d, installation)), Dict(IdentityFields(e, installation)))
      && !Collides(CONTENT_DOMAIN, Dict(ContentProjection(DraftFields(d))), Dict(ContentProjection(DraftFields(e))))
    ensures var same := a.collector.implementationVersion == b.collector.implementationVersion;
      && (RecordId(a, f, offset, installation) == RecordId(b, f, offset, installation) <==> same)
      && (ContentHash(a, f, offset) == ContentHash(b, f, offset) <==> same)
  {
    hide IdentityFields, ContentProjection, DraftFields, RecordIdOf, ContentHashOf, Projects, Collides, ObservationOf;
    hide RedactAttributes, FormatTimestamp;
    var d, e := DraftOf(a, f, offset), DraftOf(b, f, offset);
    var v, w := a.collector.implementationVersion, b.collector.implementationVersion;
    if v == w {
      ReplayIsStable(a, b, f, offset, installation);
    } else {
      GenerationInputInjective(v, w);
      LogWire.HexIsPlain(GenerationDigest(v));
      LogWire.HexIsPlain(GenerationDigest(w));
      GenerationsDiffer(d, e, installation);
    }
  }

  lemma GenerationInputInjective(v: string, w: string)
    requires v != w
    ensures GenerationInput(v) != GenerationInput(w)
  {
    var n := |COLLECTOR_TYPE| + 1;
    assert GenerationInput(v)[n..] == v && GenerationInput(w)[n..] == w;
  }

  /** Byte-identical frames at different offsets get different record identifiers, unless the hash collides. */
  lemma OffsetsDistinguish(a: Context, b: Context, f: Frame, offset: nat, other: nat, installation: string)
    requires offset != other
    requires var v := Dict(IdentityFields(DraftOf(a, f, offset), installation));
      var w := Dict(IdentityFields(DraftOf(b, f, other), installation));
      Projects(v) && Projects(w) && !Collides(RECORD_ID_DOMAIN, v, w)
    ensures RecordId(a, f, offset, installation) != RecordId(b, f, other, installation)
  {
    hide IdentityFields, RecordIdOf, Collides, Projects, Print, RECORD_ID_DOMAIN;
    var d, e := DraftOf(a, f, offset), DraftOf(b, f, other);
    OffsetPart(f, offset);
    OffsetPart(f, other);
    DifferentPartsDiffer(d, e, installation, 2);
  }

  lemma OffsetPart(f: Frame, offset: nat)
    ensures var parts := ObservationOf(f, offset).parts; |parts| == 4 && parts[2] == Field("offset", VInt(offset))
    ensures Normal(VInt(offset)) == JInt(offset)
  {
    hide FrameDigest, FormatTimestamp, Words;
  }

  // ---- what tells two frames apart ---------------------------------------------------------------------------------------

  /** The observations of two frames agree exactly if the frames have the same producer, time, offset and digest. */
  lemma ObservationsAgree(f: Frame, offset: nat, g: Frame, other: nat)
    requires InRange(f.occurredAt) && InRange(g.occurredAt)
    requires Sound(Dict(ObservationOf(g, other).parts), 2, DEFAULT_MAX_DEPTH)
    ensures SameObservation(ObservationOf(f, offset), ObservationOf(g, other)) <==>
      Alike(f.producerId, g.producerId) && f.occurredAt == g.occurredAt && offset == other && FrameDigest(f) == FrameDigest(g)
  {
    hide Normal, Sound, NormalText, Words, FormatTimestamp, FrameDigest, Has, InRange;
    var a, b := ObservationOf(f, offset).parts, ObservationOf(g, other).parts;
    TimesAlike(f.occurredAt, g.occurredAt);
    DigestsAlike(f, g);
    SameNumber(offset, other);
    if SameDict(a, b) {
      forall i: nat | i < 4 ensures Has(a, a[i].name, a[i].value) && Has(b, b[i].name, b[i].value) {
        HasAt(a, i);
        HasAt(b, i);
      }
      assert a[0].name == "producer" && a[1].name == "occurred_at" && a[2].name == "offset" && a[3].name == "content";
      TextAgrees(a, b, 2, "producer", f.producerId, g.producerId);
      TextAgrees(a, b, 2, "occurred_at", FormatTimestamp(f.occurredAt), FormatTimestamp(g.occurredAt));
      TextAgrees(a, b, 2, "content", FrameDigest(f), FrameDigest(g));
      SameUnderName(a, b, 2, "offset", VInt(offset), VInt(other));
    } else if Alike(f.producerId, g.producerId) && f.occurredAt == g.occurredAt && offset == other
              && FrameDigest(f) == FrameDigest(g) {
      SameWords(f.producerId, g.producerId);
      ElementwiseNormal(a, b);
    }
  }

  lemma TimesAlike(t: Instant, u: Instant)
    requires InRange(t) && InRange(u)
    ensures Alike(FormatTimestamp(t), FormatTimestamp(u)) <==> t == u
  {
    hide FormatTimestamp, NormalText, InRange;
    LogWire.TimestampIsPlain(t);
    LogWire.TimestampIsPlain(u);
    PlainIsNormal(FormatTimestamp(t));
    PlainIsNormal(FormatTimestamp(u));
    if FormatTimestamp(t) == FormatTimestamp(u) { FormatInjective(t, u); }
  }

  lemma DigestsAlike(f: Frame, g: Frame)
    ensures Alike(FrameDigest(f), FrameDigest(g)) <==> FrameDigest(f) == FrameDigest(g)
  {
    hide FrameDigest, NormalText;
    LogWire.HexIsPlain(FrameDigest(f));
    LogWire.HexIsPlain(FrameDigest(g));
    PlainIsNormal(FrameDigest(f));
    PlainIsNormal(FrameDigest(g));
  }

  lemma SameNumber(m: int, n: int)
    ensures Normal(VInt(m)) == Normal(VInt(n)) <==> m == n
  {
  }

  /** Two frames get the same dedupe key exactly if they have the same producer, time, offset and digest, in collectors and
      for targets of the same id, in the same installation, unless the hash collides. */
  lemma DedupeKeysTellFramesApart(
    a: Context, f: Frame, offset: nat, i: string, b: Context, g: Frame, other: nat, j: string)
    requires InRange(f.occurredAt) && InRange(g.occurredAt)
    requires var v, w := Dict(DedupeFields(DraftOf(a, f, offset), i)), Dict(DedupeFields(DraftOf(b, g, other), j));
      Projects(v) && Projects(w) && !Collides(DEDUPE_DOMAIN, v, w)
    ensures DedupeKey(a, f, offset, i) == DedupeKey(b, g, other, j) <==>
      && Alike(i, j) && Alike(a.collector.id, b.collector.id) && Alike(a.target.id, b.target.id)
      && Alike(f.producerId, g.producerId) && f.occurredAt == g.occurredAt && offset == other
      && FrameDigest(f) == FrameDigest(g)
  {
    hide Normal, Sound, NormalText, DedupeFields, DedupeKeyOf, Collides, ObservationOf, InRange, SameObservation;
    hide GenerationDigest, RedactAttributes, FormatTimestamp, FrameDigest, Has, CoordinateFields, DEDUPE_DOMAIN;
    var d, e := DraftOf(a, f, offset), DraftOf(b, g, other);
    DedupeKeysTellApart(d, i, e, j);
    DedupeParts(e, j);
    InnerIsSound(DedupeFields(e, j), 0, "observation", Dict(CoordinateFields(e.source.observation)));
    PartsAreSound(e.source.observation);
    ObservationsAgree(f, offset, g, other);
  }

  lemma PartsAreSound(o: Coordinate)
    requires Sound(Dict(CoordinateFields(o)), 1, DEFAULT_MAX_DEPTH)
    ensures Sound(Dict(o.parts), 2, DEFAULT_MAX_DEPTH)
  {
    hide Sound, Has, Words, Dict;
    HasAt(CoordinateFields(o), 1);
    InnerIsSound(CoordinateFields(o), 1, "parts", Dict(o.parts));
  }

  /** The frames agree in everything but the layout of their bytes. */
  ghost predicate SameFrame(f: Frame, g: Frame) {
    && Alike(f.producerId, g.producerId) && f.occurredAt == g.occurredAt && Alike(f.target, g.target)
    && Alike(f.kind, g.kind) && Alike(f.actionability, g.actionability) && SameDict(f.data, g.data)
    && |f.evidence| == |g.evidence| && forall i | 0 <= i < |f.evidence| :: Alike(f.evidence[i], g.evidence[i])
  }

  /** Two frames have the same digest exactly if they agree in every field, unless the hash collides. */
  lemma FrameDigestsTellApart(f: Frame, g: Frame)
    requires Projects(FrameValue(f)) && Projects(FrameValue(g))
    requires !Collision(Print(Normal(FrameValue(f))), Print(Normal(FrameValue(g))))
    ensures FrameDigest(f) == FrameDigest(g) <==> SameFrame(f, g)
  {
    hide Normal, Print, Sound, SameFrame, FrameFields, Dict;
    FrameKeepsExactly(f, g);
    if Print(Normal(FrameValue(f))) == Print(Normal(FrameValue(g))) {
      PrintInjective(Normal(FrameValue(f)), Normal(FrameValue(g)));
    }
  }

  lemma FrameKeepsExactly(f: Frame, g: Frame)
    requires Projects(FrameValue(f)) && Projects(FrameValue(g))
    ensures SameDict(FrameFields(f), FrameFields(g)) <==> SameFrame(f, g)
  {
    hide Normal, Sound, Words, Time, Dict, Alike, FrameFields, Has, EvidenceValues;
    var a, b := FrameFields(f), FrameFields(g);
    FrameParts(f);
    FrameParts(g);
    InnerIsSound(a, 0, "occurred_at", Time(f.occurredAt));
    InnerIsSound(b, 0, "occurred_at", Time(g.occurredAt));
    SoundTime(f.occurredAt, 1);
    SoundTime(g.occurredAt, 1);
    SameEvidence(f.evidence, g.evidence);
    if SameDict(a, b) {
      TextAgrees(a, b, 0, "producer_id", f.producerId, g.producerId);
      TextAgrees(a, b, 0, "target", f.target, g.target);
      TextAgrees(a, b, 0, "kind", f.kind, g.kind);
      TextAgrees(a, b, 0, "actionability", f.actionability, g.actionability);
      SameUnderName(a, b, 0, "occurred_at", Time(f.occurredAt), Time(g.occurredAt));
      SameTimes(f.occurredAt, g.occurredAt);
      SameUnderName(a, b, 0, "evidence_references", VList(EvidenceValues(f.evidence)), VList(EvidenceValues(g.evidence)));
      SameUnderName(a, b, 0, "data", Dict(f.data), Dict(g.data));
    } else if SameFrame(f, g) {
      SameFrameIsEnough(f, g);
    }
  }

  lemma FrameParts(f: Frame)
    ensures var a := FrameFields(f);
      && Has(a, "producer_id", Words(f.producerId)) && Has(a, "occurred_at", Time(f.occurredAt))
      && Has(a, "target", Words(f.target)) && Has(a, "kind", Words(f.kind))
      && Has(a, "actionability", Words(f.actionability))
      && Has(a, "evidence_references", VList(EvidenceValues(f.evidence))) && Has(a, "data", Dict(f.data))
  {
    hide Words, Time, Dict, Has, EvidenceValues;
    var a := FrameFields(f);
    HasAt(a, 1);
    HasAt(a, 2);
    HasAt(a, 3);
    HasAt(a, 4);
    HasAt(a, 5);
    HasAt(a, 6);
    HasAt(a, 7);
  }

  lemma SameEvidence(v: seq<string>, w: seq<string>)
    ensures Normal(VList(EvidenceValues(v))) == Normal(VList(EvidenceValues(w))) <==>
      |v| == |w| && forall i | 0 <= i < |v| :: Alike(v[i], w[i])
  {
    hide Words, Alike;
    var a, b := EvidenceValues(v), EvidenceValues(w);
    if |v| == |w| {
      forall i | 0 <= i < |v| ensures Normal(a[i]) == Normal(b[i]) <==> Alike(v[i], w[i]) { SameWords(v[i], w[i]); }
    }
    assert Normal(VList(a)) == JArr(seq(|a|, i requires 0 <= i < |a| => Normal(a[i])));
    assert Normal(VList(b)) == JArr(seq(|b|, i requires 0 <= i < |b| => Normal(b[i])));
    if Normal(VList(a)) == Normal(VList(b)) {
      forall i | 0 <= i < |v| ensures Normal(a[i]) == Normal(b[i]) {
        assert Normal(VList(a)).items[i] == Normal(a[i]) && Normal(VList(b)).items[i] == Normal(b[i]);
      }
    }
  }

  lemma SameFrameIsEnough(f: Frame, g: Frame)
    requires SameFrame(f, g) && Normal(VList(EvidenceValues(f.evidence))) == Normal(VList(EvidenceValues(g.evidence)))
    ensures SameDict(FrameFields(f), FrameFields(g))
  {
    hide Normal, Words, Time, Dict, Alike, EvidenceValues;
    SameWords(f.producerId, g.producerId);
    SameWords(f.target, g.target);
    SameWords(f.kind, g.kind);
    SameWords(f.actionability, g.actionability);
    ElementwiseNormal(FrameFields(f), FrameFields(g));
  }

  /** Attributes that differ only in texts which the redactor maps alike leave no trace in the event's data. */
  lemma RedactionHides(f: Frame, data: seq<Field>, redact: string -> string)
    requires |data| == |f.data| && forall i | 0 <= i < |data| :: RedactedAlike(f.data[i], data[i], redact)
    ensures EventData(f.(data := data), redact) == EventData(f, redact)
  {
    forall i | 0 <= i < |data| ensures RedactAttributes(data, redact)[i] == RedactAttributes(f.data, redact)[i] {
      assert RedactedAlike(f.data[i], data[i], redact);
    }
    assert RedactAttributes(data, redact) == RedactAttributes(f.data, redact);
  }

  /** Every attribute keeps its place and name; a text is replaced by the clamped answer of the redactor, and nothing else
      changes. */
  lemma RedactionKeeps(data: seq<Field>, redact: string -> string, i: nat)
    requires i < |data|
    ensures var r := RedactAttributes(data, redact);
      && |r| == |data| && r[i].name == data[i].name
      && (!data[i].value.VStr? ==> r[i].value == data[i].value)
      && forall s | data[i].value == Words(s) :: r[i].value == Words(Clamp(redact(s)))
  {
    forall s | data[i].value == Words(s) ensures RedactAttributes(data, redact)[i].value == Words(Clamp(redact(s))) {
      assert data[i].value.s == FromScalars(s);
    }
  }

  ghost predicate RedactedAlike(a: Field, b: Field, redact: string -> string) {
    || a == b
    || (a.name == b.name && exists s, t :: a.value == Words(s) && b.value == Words(t) && redact(s) == redact(t))
  }

  /** What of a record's content a frame and its collector decide. */
  ghost predicate SameStory(a: Context, f: Frame, b: Context, g: Frame) {
    && f.occurredAt == g.occurredAt && Alike(f.kind, g.kind) && Alike(f.actionability, g.actionability)
    && SameDict(RedactAttributes(f.data, a.redact), RedactAttributes(g.data, b.redact))
    && SameCollector(Some(a.collector), Some(b.collector)) && SameTarget(Some(a.target), Some(b.target))
    && Alike(GenerationDigest(a.collector.implementationVersion), GenerationDigest(b.collector.implementationVersion))
  }

  /** Two frames get the same content hash exactly if they tell the same story, once redacted, and were observed alike,
      unless the hash collides. */
  lemma ContentHashesTellFramesApart(a: Context, f: Frame, offset: nat, b: Context, g: Frame, other: nat)
    requires var v := ContentProjection(DraftFields(DraftOf(a, f, offset)));
      var w := ContentProjection(DraftFields(DraftOf(b, g, other)));
      Projects(Dict(v)) && Projects(Dict(w)) && !Collides(CONTENT_DOMAIN, Dict(v), Dict(w))
    ensures ContentHash(a, f, offset) == ContentHash(b, g, other) <==>
      SameStory(a, f, b, g) && SameObservation(ObservationOf(f, offset), ObservationOf(g, other))
  {
    hide Normal, Sound, NormalText, ContentProjection, DraftFields, ContentHashOf, Collides, ObservationOf, SameObservation;
    hide GenerationDigest, RedactAttributes, FormatTimestamp, Has, EventData, CONTENT_DOMAIN, ContentFields, SameDict;
    var d, e := DraftOf(a, f, offset), DraftOf(b, g, other);
    ContentHashesTellApart(d, e);
    ContentIs(e);
    ContentEnds(e);
    InnerIsSound(ContentFields(e), 0, "data", Dict(EventData(g, b.redact)));
    SameData(f, a.redact, g, b.redact);
    NothingCorrelated();
  }

  lemma NothingCorrelated()
    ensures SameDict([], [])
  {
  }

  lemma SameData(f: Frame, r: string -> string, g: Frame, s: string -> string)
    requires Sound(Dict(EventData(g, s)), 1, DEFAULT_MAX_DEPTH)
    ensures Normal(Dict(EventData(f, r))) == Normal(Dict(EventData(g, s))) <==>
      && Alike(f.kind, g.kind) && Alike(f.actionability, g.actionability)
      && SameDict(RedactAttributes(f.data, r), RedactAttributes(g.data, s))
  {
    hide Normal, Sound, Words, Alike, Has, RedactAttributes;
    var a, b := EventData(f, r), EventData(g, s);
    SameWords(f.kind, g.kind);
    SameWords(f.actionability, g.actionability);
    if SameDict(a, b) {
      forall i: nat | i < 4 ensures Has(a, a[i].name, a[i].value) && Has(b, b[i].name, b[i].value) {
        HasAt(a, i);
        HasAt(b, i);
      }
      assert a[1].name == "category" && a[2].name == "status" && a[3].name == "attributes";
      TextAgrees(a, b, 1, "category", f.kind, g.kind);
      TextAgrees(a, b, 1, "status", f.actionability, g.actionability);
      SameUnderName(a, b, 1, "attributes", Dict(RedactAttributes(f.data, r)), Dict(RedactAttributes(g.data, s)));
    } else if Alike(f.kind, g.kind) && Alike(f.actionability, g.actionability)
              && SameDict(RedactAttributes(f.data, r), RedactAttributes(g.data, s)) {
      ElementwiseNormal(a, b);
    }
  }

  /** Two frames get the same record identifier exactly if they get the same dedupe key fields and come from the same
      collector version, unless the hash collides. */
  lemma RecordIdsTellFramesApart(
    a: Context, f: Frame, offset: nat, i: string, b: Context, g: Frame, other: nat, j: string)
    requires InRange(f.occurredAt) && InRange(g.occurredAt)
    requires var v, w := Dict(IdentityFields(DraftOf(a, f, offset), i)), Dict(IdentityFields(DraftOf(b, g, other), j));
      Projects(v) && Projects(w) && !Collides(RECORD_ID_DOMAIN, v, w)
    ensures RecordId(a, f, offset, i) == RecordId(b, g, other, j) <==>
      && Alike(i, j) && Alike(a.collector.id, b.collector.id) && Alike(a.target.id, b.target.id)
      && Alike(GenerationDigest(a.collector.implementationVersion), GenerationDigest(b.collector.implementationVersion))
      && Alike(f.producerId, g.producerId) && f.occurredAt == g.occurredAt && offset == other
      && FrameDigest(f) == FrameDigest(g)
  {
    hide Normal, Sound, NormalText, IdentityFields, RecordIdOf, Collides, ObservationOf, InRange, SameObservation;
    hide GenerationDigest, RedactAttributes, FormatTimestamp, FrameDigest, Has, CoordinateFields, RECORD_ID_DOMAIN;
    var d, e := DraftOf(a, f, offset), DraftOf(b, g, other);
    RecordIdsTellApart(d, i, e, j);
    IdentityParts(e, j);
    InnerIsSound(IdentityFields(e, j), 0, "observation", Dict(CoordinateFields(e.source.observation)));
    PartsAreSound(e.source.observation);
    ObservationsAgree(f, offset, g, other);
  }
}

/** What the projections of a record keep: each digest changes exactly when one of the kept fields does, unless the hash
    collides. */
module RecordTheorems {
  import opened Common
  import opened JsonText
  import opened KeySort
  import opened Clock
  import opened Canonical
  import opened CanonicalEncoding
  import opened CanonicalTheorems
  import opened LineProjection
  import opened Records

  // ---- fields of a dictionary ----------------------------------------------------------------------------------------

  function Members(f: seq<Field>): seq<Member> { NormalMembers(Entries(f)) }

  ghost predicate Has(f: seq<Field>, name: string, v: Value) { exists i :: 0 <= i < |f| && f[i] == Field(name, v) }
  ghost predicate Named(f: seq<Field>, name: string) { exists i :: 0 <= i < |f| && f[i].name == name }
  predicate PlainNames(f: seq<Field>) { forall i | 0 <= i < |f| :: Plain(f[i].name) }

  lemma MembersConcat(a: seq<Field>, b: seq<Field>)
    ensures Members(a + b) == Members(a) + Members(b)
  {
    hide NormalMember;
  }

  lemma MembersNormal(f: seq<Field>)
    ensures Normal(Dict(f)) == JObj(Sort(Members(f)))
  {
    hide Sort;
  }

  /** Dictionaries of the same members have the same normal form. */
  lemma SameMembersSameNormal(f: seq<Field>, g: seq<Field>)
    requires Members(f) == Members(g)
    ensures Normal(Dict(f)) == Normal(Dict(g))
  {
    hide Members, Normal, Sort;
    MembersNormal(f);
    MembersNormal(g);
  }

  lemma HasLeft(a: seq<Field>, b: seq<Field>, name: string, v: Value)
    requires Has(a, name, v)
    ensures Has(a + b, name, v)
  {
    var i :| 0 <= i < |a| && a[i] == Field(name, v);
    assert (a + b)[i] == Field(name, v);
  }

  lemma HasRight(a: seq<Field>, b: seq<Field>, name: string, v: Value)
    requires Has(b, name, v)
    ensures Has(a + b, name, v)
  {
    var i :| 0 <= i < |b| && b[i] == Field(name, v);
    assert (a + b)[|a| + i] == Field(name, v);
  }

  /** Under a name both have, dictionaries with the same normal form hold values with the same normal form. */
  lemma SameUnderName(f: seq<Field>, g: seq<Field>, depth: nat, name: string, v: Value, w: Value)
    requires Normal(Dict(f)) == Normal(Dict(g)) && Sound(Dict(g), depth, DEFAULT_MAX_DEPTH)
    requires Has(f, name, v) && Has(g, name, w)
    ensures Normal(v) == Normal(w)
  {
    hide Normal, Sound, KeyText;
    var i :| 0 <= i < |f| && f[i] == Field(name, v);
    var j :| 0 <= j < |g| && g[j] == Field(name, w);
    SameFieldSameNormal(Entries(f), Entries(g), i, j, depth);
  }

  /** Dictionaries with the same normal form have the same names. */
  lemma SameNames(f: seq<Field>, g: seq<Field>, name: string)
    requires Normal(Dict(f)) == Normal(Dict(g)) && PlainNames(f) && PlainNames(g) && Named(f, name)
    ensures Named(g, name)
  {
    hide Normal, Sort, KeyText, Plain;
    MembersNormal(f);
    MembersNormal(g);
    SortKeeps(Members(f));
    SortKeeps(Members(g));
    var i :| 0 <= i < |f| && f[i].name == name;
    assert Members(f)[i] in multiset(Members(f));
    assert Members(f)[i] in multiset(Members(g));
    var j :| 0 <= j < |g| && Members(g)[j] == Members(f)[i];
    PlainIsNormal(f[i].name);
    PlainIsNormal(g[j].name);
  }

  // ---- what agrees ---------------------------------------------------------------------------------------------------

  /** Equal texts, up to line ends and NFC. */
  ghost predicate Alike(s: string, t: string) { NormalText(s) == NormalText(t) }

  ghost predicate AlikeIf(s: Option<string>, t: Option<string>) {
    (s.Some? <==> t.Some?) && (s.Some? && t.Some? ==> Alike(s.value, t.value))
  }

  ghost predicate SameDict(a: seq<Field>, b: seq<Field>) { Normal(Dict(a)) == Normal(Dict(b)) }

  ghost predicate SameObservation(a: Coordinate, b: Coordinate) { Alike(a.kind, b.kind) && SameDict(a.parts, b.parts) }

  lemma WordsNormal(s: string)
    ensures Normal(Words(s)) == JStr(NormalText(s))
  {
    hide NormalText;
  }

  /** A text field: its values have the same normal form exactly when they are alike. */
  lemma SameWords(s: string, t: string)
    ensures Normal(Words(s)) == Normal(Words(t)) <==> Alike(s, t)
  {
    hide Normal, NormalText;
    WordsNormal(s);
    WordsNormal(t);
  }

  /** One text field of two dictionaries. */
  lemma TextAgrees(f: seq<Field>, g: seq<Field>, depth: nat, name: string, s: string, t: string)
    requires Normal(Dict(f)) == Normal(Dict(g)) && Sound(Dict(g), depth, DEFAULT_MAX_DEPTH)
    requires Has(f, name, Words(s)) && Has(g, name, Words(t))
    ensures Alike(s, t)
  {
    hide Normal, Sound, NormalText;
    SameUnderName(f, g, depth, name, Words(s), Words(t));
    SameWords(s, t);
  }

  /** A dictionary under a name is as sound as the whole, one level deeper. */
  lemma InnerIsSound(g: seq<Field>, depth: nat, name: string, w: Value)
    requires Sound(Dict(g), depth, DEFAULT_MAX_DEPTH) && Has(g, name, w)
    ensures Sound(w, depth + 1, DEFAULT_MAX_DEPTH)
  {
    hide Sound;
    var j :| 0 <= j < |g| && g[j] == Field(name, w);
    SoundDict(Entries(g), depth, DEFAULT_MAX_DEPTH);
    assert Entries(g)[j].value == w;
  }

  lemma ObservationAgrees(a: Coordinate, b: Coordinate, depth: nat)
    requires Sound(Dict(CoordinateFields(b)), depth, DEFAULT_MAX_DEPTH)
    ensures SameDict(CoordinateFields(a), CoordinateFields(b)) <==> SameObservation(a, b)
  {
    hide Normal, Sound, NormalText;
    var f, g := CoordinateFields(a), CoordinateFields(b);
    if SameDict(f, g) {
      assert f[0] == Field("kind", Words(a.kind)) && g[0] == Field("kind", Words(b.kind));
      assert f[1] == Field("parts", Dict(a.parts)) && g[1] == Field("parts", Dict(b.parts));
      TextAgrees(f, g, depth, "kind", a.kind, b.kind);
      SameUnderName(f, g, depth, "parts", Dict(a.parts), Dict(b.parts));
    }
    if SameObservation(a, b) {
      SameWords(a.kind, b.kind);
      ElementwiseNormal(f, g);
    }
  }

  /** Field by field the same name and normal value: the same dictionary. */
  lemma ElementwiseNormal(f: seq<Field>, g: seq<Field>)
    requires |f| == |g| && forall i | 0 <= i < |f| :: f[i].name == g[i].name && Normal(f[i].value) == Normal(g[i].value)
    ensures Members(f) == Members(g) && SameDict(f, g)
  {
    hide Normal;
    SameMembersSameNormal(f, g);
  }

  /** An optional text is kept or absent in both. */
  lemma OptionalAgrees(f: seq<Field>, g: seq<Field>, depth: nat, name: string, s: Option<string>, t: Option<string>)
    requires Normal(Dict(f)) == Normal(Dict(g)) && Sound(Dict(g), depth, DEFAULT_MAX_DEPTH)
    requires PlainNames(f) && PlainNames(g)
    requires if s.Some? then Has(f, name, Words(s.value)) else !Named(f, name)
    requires if t.Some? then Has(g, name, Words(t.value)) else !Named(g, name)
    ensures AlikeIf(s, t)
  {
    hide Normal, Sound, NormalText, Plain;
    if Named(f, name) { SameNames(f, g, name); }
    if Named(g, name) { SameNames(g, f, name); }
    HasIsNamed(f, name, s);
    HasIsNamed(g, name, t);
    if s.Some? && t.Some? { TextAgrees(f, g, depth, name, s.value, t.value); }
  }

  lemma HasIsNamed(f: seq<Field>, name: string, s: Option<string>)
    requires if s.Some? then Has(f, name, Words(s.value)) else !Named(f, name)
    ensures s.Some? <==> Named(f, name)
  {
    if s.Some? { var i :| 0 <= i < |f| && f[i] == Field(name, Words(s.value)); }
  }

  lemma SameOptional(name: string, s: Option<string>, t: Option<string>)
    requires AlikeIf(s, t)
    ensures Members(Optional(name, s)) == Members(Optional(name, t))
  {
    hide Normal, NormalText;
    if s.Some? {
      SameWords(s.value, t.value);
      ElementwiseNormal(Optional(name, s), Optional(name, t));
    }
  }

  /** An optional text in the middle of a dictionary, and nowhere else in it. */
  lemma OptionalIn(before: seq<Field>, name: string, s: Option<string>, after: seq<Field>)
    requires !Named(before, name) && !Named(after, name)
    ensures var f := before + Optional(name, s) + after;
      if s.Some? then Has(f, name, Words(s.value)) else !Named(f, name)
  {
    hide Words;
    if s.Some? {
      assert Optional(name, s)[0] == Field(name, Words(s.value));
      HasRight(before, Optional(name, s), name, Words(s.value));
      HasLeft(before + Optional(name, s), after, name, Words(s.value));
    } else {
      assert before + Optional(name, s) + after == before + after;
      NotNamedConcat(before, after, name);
    }
  }

  lemma NotNamedConcat(a: seq<Field>, b: seq<Field>, name: string)
    ensures Named(a + b, name) <==> Named(a, name) || Named(b, name)
  {
    if Named(a + b, name) {
      var k :| 0 <= k < |a + b| && (a + b)[k].name == name;
      if k < |a| { assert a[k].name == name; } else { assert b[k - |a|].name == name; }
    }
    if Named(a, name) { var k :| 0 <= k < |a| && a[k].name == name; assert (a + b)[k].name == name; }
    if Named(b, name) { var k :| 0 <= k < |b| && b[k].name == name; assert (a + b)[|a| + k].name == name; }
  }

  lemma PlainConcat(a: seq<Field>, b: seq<Field>)
    requires PlainNames(a) && PlainNames(b)
    ensures PlainNames(a + b)
  {
    hide Plain;
  }

  lemma PlainOptional(name: string, s: Option<string>)
    requires Plain(name)
    ensures PlainNames(Optional(name, s))
  {
    hide Plain;
  }

  lemma OnlyNamed(name: string, s: Option<string>, other: string)
    ensures Named(Optional(name, s), other) ==> name == other
  {
    hide Words;
  }

  // ---- the dedupe projection -----------------------------------------------------------------------------------------

  function TargetId(d: Draft): Option<string> { if d.target.Some? then Some(d.target.value.id) else None }

  /** The drafts agree on all that the dedupe key is taken of. */
  ghost predicate SameDedupe(d: Draft, i: string, e: Draft, j: string) {
    && Alike(i, j) && Alike(d.source.type_, e.source.type_) && Alike(d.source.id, e.source.id)
    && Alike(d.source.namespaceId, e.source.namespaceId) && Alike(d.scope, e.scope) && Alike(d.recordType, e.recordType)
    && Alike(d.name, e.name) && SameObservation(d.source.observation, e.source.observation)
    && AlikeIf(TargetId(d), TargetId(e))
  }

  function DedupeSource(s: Source): seq<Field> {
    [Field("type", Words(s.type_)), Field("id", Words(s.id)), Field("observation_namespace_id", Words(s.namespaceId))]
  }

  function DedupeHead(d: Draft, i: string): seq<Field> {
    [ Field("dedupe_version", VInt(1)), Field("installation_id", Words(i)), Field("source", Dict(DedupeSource(d.source))),
      Field("scope", Words(d.scope)), Field("record_type", Words(d.recordType)), Field("name", Words(d.name)),
      Field("observation", Dict(CoordinateFields(d.source.observation))) ]
  }

  lemma DedupeParts(d: Draft, i: string)
    ensures DedupeFields(d, i) == DedupeHead(d, i) + Optional("target_id", TargetId(d))
    ensures var f := DedupeFields(d, i);
      && Has(f, "installation_id", Words(i)) && Has(f, "source", Dict(DedupeSource(d.source)))
      && Has(f, "scope", Words(d.scope)) && Has(f, "record_type", Words(d.recordType)) && Has(f, "name", Words(d.name))
      && Has(f, "observation", Dict(CoordinateFields(d.source.observation)))
  {
    hide Words, Dict, CoordinateFields;
    var f := DedupeFields(d, i);
    assert f == DedupeHead(d, i) + Optional("target_id", TargetId(d));
    assert f[1] == Field("installation_id", Words(i)) && f[2] == Field("source", Dict(DedupeSource(d.source)));
    assert f[3] == Field("scope", Words(d.scope)) && f[4] == Field("record_type", Words(d.recordType));
    assert f[5] == Field("name", Words(d.name));
    assert f[6] == Field("observation", Dict(CoordinateFields(d.source.observation)));
  }

  lemma DedupeNames(d: Draft, i: string)
    ensures PlainNames(DedupeFields(d, i)) && !Named(DedupeHead(d, i), "target_id")
  {
    hide Words, Dict, CoordinateFields, DedupeSource, DedupeFields, Plain;
    DedupeParts(d, i);
    DedupeNamesArePlain();
    var f := DedupeFields(d, i);
    forall k | 0 <= k < |f| ensures Plain(f[k].name) {
      if k < 7 { assert f[k] == DedupeHead(d, i)[k]; } else { assert f[k] == Optional("target_id", TargetId(d))[k - 7]; }
    }
  }

  lemma DedupeNamesArePlain()
    ensures Plain("dedupe_version") && Plain("installation_id") && Plain("source") && Plain("scope") && Plain("record_type")
    ensures Plain("name") && Plain("observation") && Plain("target_id")
  {
  }

  lemma DedupeTarget(d: Draft, i: string)
    ensures var f := DedupeFields(d, i); var t := TargetId(d);
      if t.Some? then Has(f, "target_id", Words(t.value)) else !Named(f, "target_id")
  {
    hide DedupeFields, DedupeHead, Words, Optional, Named, Has;
    DedupeParts(d, i);
    DedupeNames(d, i);
    NothingNamed("target_id");
    OptionalIn(DedupeHead(d, i), "target_id", TargetId(d), []);
    assert DedupeHead(d, i) + Optional("target_id", TargetId(d)) + [] == DedupeFields(d, i);
  }

  lemma NothingNamed(name: string)
    ensures !Named([], name)
  {
  }

  /** The dedupe projection keeps exactly those fields. */
  lemma DedupeKeepsExactly(d: Draft, i: string, e: Draft, j: string)
    requires Projects(Dict(DedupeFields(d, i))) && Projects(Dict(DedupeFields(e, j)))
    ensures SameDict(DedupeFields(d, i), DedupeFields(e, j)) <==> SameDedupe(d, i, e, j)
  {
    hide Normal, Sound, NormalText, DedupeFields, Plain, CoordinateFields, SameObservation, DedupeSource, Words, Has, Alike;
    hide AlikeIf;
    var f, g := DedupeFields(d, i), DedupeFields(e, j);
    DedupeParts(d, i);
    DedupeParts(e, j);
    InnerIsSound(g, 0, "source", Dict(DedupeSource(e.source)));
    InnerIsSound(g, 0, "observation", Dict(CoordinateFields(e.source.observation)));
    ObservationAgrees(d.source.observation, e.source.observation, 1);
    DedupeSourceAgrees(d.source, e.source);
    if SameDict(f, g) {
      DedupeTextsAgree(d, i, e, j);
      SameUnderName(f, g, 0, "source", Dict(DedupeSource(d.source)), Dict(DedupeSource(e.source)));
      SameUnderName(f, g, 0, "observation", Dict(CoordinateFields(d.source.observation)),
        Dict(CoordinateFields(e.source.observation)));
    }
    if SameDedupe(d, i, e, j) { SameDedupeIsEnough(d, i, e, j); }
  }

  lemma DedupeTextsAgree(d: Draft, i: string, e: Draft, j: string)
    requires SameDict(DedupeFields(d, i), DedupeFields(e, j)) && Sound(Dict(DedupeFields(e, j)), 0, DEFAULT_MAX_DEPTH)
    ensures Alike(i, j) && Alike(d.scope, e.scope) && Alike(d.recordType, e.recordType) && Alike(d.name, e.name)
    ensures AlikeIf(TargetId(d), TargetId(e))
  {
    hide Normal, Sound, NormalText, DedupeFields, Plain, CoordinateFields, DedupeSource, Words, Has, Named, PlainNames, Alike;
    var f, g := DedupeFields(d, i), DedupeFields(e, j);
    DedupeParts(d, i);
    DedupeParts(e, j);
    TextAgrees(f, g, 0, "installation_id", i, j);
    TextAgrees(f, g, 0, "scope", d.scope, e.scope);
    TextAgrees(f, g, 0, "record_type", d.recordType, e.recordType);
    TextAgrees(f, g, 0, "name", d.name, e.name);
    DedupeNames(d, i);
    DedupeNames(e, j);
    DedupeTarget(d, i);
    DedupeTarget(e, j);
    OptionalAgrees(f, g, 0, "target_id", TargetId(d), TargetId(e));
  }

  lemma DedupeSourceAgrees(s: Source, t: Source)
    requires Sound(Dict(DedupeSource(t)), 1, DEFAULT_MAX_DEPTH)
    ensures SameDict(DedupeSource(s), DedupeSource(t)) <==>
      Alike(s.type_, t.type_) && Alike(s.id, t.id) && Alike(s.namespaceId, t.namespaceId)
  {
    hide Normal, Sound, NormalText, Words;
    var f, g := DedupeSource(s), DedupeSource(t);
    SameWords(s.type_, t.type_);
    SameWords(s.id, t.id);
    SameWords(s.namespaceId, t.namespaceId);
    if SameDict(f, g) {
      assert f[0] == Field("type", Words(s.type_)) && f[1] == Field("id", Words(s.id));
      assert f[2] == Field("observation_namespace_id", Words(s.namespaceId));
      assert g[0] == Field("type", Words(t.type_)) && g[1] == Field("id", Words(t.id));
      assert g[2] == Field("observation_namespace_id", Words(t.namespaceId));
      TextAgrees(f, g, 1, "type", s.type_, t.type_);
      TextAgrees(f, g, 1, "id", s.id, t.id);
      TextAgrees(f, g, 1, "observation_namespace_id", s.namespaceId, t.namespaceId);
    } else if Alike(s.type_, t.type_) && Alike(s.id, t.id) && Alike(s.namespaceId, t.namespaceId) {
      ElementwiseNormal(f, g);
    }
  }

  lemma SameDedupeIsEnough(d: Draft, i: string, e: Draft, j: string)
    requires SameDedupe(d, i, e, j) && SameDict(DedupeSource(d.source), DedupeSource(e.source))
    requires SameDict(CoordinateFields(d.source.observation), CoordinateFields(e.source.observation))
    ensures SameDict(DedupeFields(d, i), DedupeFields(e, j))
  {
    hide Normal, NormalText, Words, CoordinateFields, DedupeSource, Optional, Members, SameObservation, Dict;
    SameWords(i, j);
    SameWords(d.scope, e.scope);
    SameWords(d.recordType, e.recordType);
    SameWords(d.name, e.name);
    ElementwiseNormal(DedupeHead(d, i), DedupeHead(e, j));
    SameOptional("target_id", TargetId(d), TargetId(e));
    DedupeParts(d, i);
    DedupeParts(e, j);
    MembersConcat(DedupeHead(d, i), Optional("target_id", TargetId(d)));
    MembersConcat(DedupeHead(e, j), Optional("target_id", TargetId(e)));
    SameMembersSameNormal(DedupeFields(d, i), DedupeFields(e, j));
  }

  /** Equal dedupe keys mean the same dedupe projection or a hash collision. */
  lemma EqualDedupeKeysMeanAgreement(v: Value, w: Value)
    requires DedupeKeyOf(v) == DedupeKeyOf(w)
    ensures Normal(v) == Normal(w) || Collides(DEDUPE_DOMAIN, v, w)
  {
    hide Print, Normal, HexBytes, DEDUPE_DOMAIN, Collides;
    var a, b := DomainDigest(DEDUPE_DOMAIN, v), DomainDigest(DEDUPE_DOMAIN, w);
    assert DedupeKeyOf(v)[6..] == Base32.Encode(HexBytes(a)) && DedupeKeyOf(w)[6..] == Base32.Encode(HexBytes(b));
    Base32.EncodeInjective(HexBytes(a), HexBytes(b));
    HexBytesInjective(a, b);
    EqualDigestsMeanAgreement(DEDUPE_DOMAIN, v, w);
  }

  /** Two records have the same dedupe key exactly if they agree on installation, source, scope, type, name, observation and
      target, unless the hash collides. */
  lemma DedupeKeysTellApart(d: Draft, i: string, e: Draft, j: string)
    requires var v, w := Dict(DedupeFields(d, i)), Dict(DedupeFields(e, j));
      Projects(v) && Projects(w) && !Collides(DEDUPE_DOMAIN, v, w)
    ensures DedupeKeyOf(Dict(DedupeFields(d, i))) == DedupeKeyOf(Dict(DedupeFields(e, j))) <==> SameDedupe(d, i, e, j)
  {
    hide Normal, DedupeFields, DedupeKeyOf, Collides, Projects, SameDedupe, DEDUPE_DOMAIN;
    var v, w := Dict(DedupeFields(d, i)), Dict(DedupeFields(e, j));
    DedupeKeepsExactly(d, i, e, j);
    if DedupeKeyOf(v) == DedupeKeyOf(w) { EqualDedupeKeysMeanAgreement(v, w); }
    if Normal(v) == Normal(w) { SameProjectionSameKey(v, w); }
  }

  lemma SameProjectionSameKey(v: Value, w: Value)
    requires Normal(v) == Normal(w)
    ensures DedupeKeyOf(v) == DedupeKeyOf(w) && RecordIdOf(v) == RecordIdOf(w)
    ensures DomainDigest(CONTENT_DOMAIN, v) == DomainDigest(CONTENT_DOMAIN, w)
  {
    hide Normal, Print;
  }

  // ---- the identity projection ---------------------------------------------------------------------------------------

  /** The drafts agree on all that the record identifier is taken of. */
  ghost predicate SameIdentity(d: Draft, i: string, e: Draft, j: string) {
    && Alike(i, j) && Alike(d.redactionVersion, e.redactionVersion) && SameIdentitySource(d.source, e.source)
    && Alike(d.scope, e.scope) && Alike(d.recordType, e.recordType) && Alike(d.name, e.name)
    && SameObservation(d.source.observation, e.source.observation) && AlikeIf(TargetId(d), TargetId(e))
    && AlikeIf(d.sourceEventId, e.sourceEventId) && AlikeIf(d.sourceEntityId, e.sourceEntityId)
  }

  ghost predicate SameIdentitySource(s: Source, t: Source) {
    && Alike(s.id, t.id) && Alike(s.type_, t.type_) && Alike(s.namespaceId, t.namespaceId)
    && Alike(s.generationDigest, t.generationDigest)
  }

  function IdentityHead(d: Draft, i: string): seq<Field> {
    [ Field("identity_version", VInt(1)), Field("installation_id", Words(i)), Field("schema_version", Words("1.0")),
      Field("redaction_version", Words(d.redactionVersion)), Field("source", Dict(IdentitySourceFields(d.source))),
      Field("scope", Words(d.scope)), Field("record_type", Words(d.recordType)), Field("name", Words(d.name)),
      Field("observation", Dict(CoordinateFields(d.source.observation))) ]
  }

  function IdentityOptions(d: Draft): seq<Field> {
    Optional("target_id", TargetId(d)) + Optional("source_event_id", d.sourceEventId)
    + Optional("source_entity_id", d.sourceEntityId)
  }

  lemma IdentityParts(d: Draft, i: string)
    ensures IdentityFields(d, i) == IdentityHead(d, i) + IdentityOptions(d)
    ensures var f := IdentityFields(d, i);
      && Has(f, "installation_id", Words(i)) && Has(f, "redaction_version", Words(d.redactionVersion))
      && Has(f, "source", Dict(IdentitySourceFields(d.source))) && Has(f, "scope", Words(d.scope))
      && Has(f, "record_type", Words(d.recordType)) && Has(f, "name", Words(d.name))
      && Has(f, "observation", Dict(CoordinateFields(d.source.observation)))
  {
    hide Words, Dict, CoordinateFields, IdentitySourceFields, Optional;
    var f := IdentityFields(d, i);
    assert f == IdentityHead(d, i) + IdentityOptions(d);
    assert f[1] == Field("installation_id", Words(i)) && f[3] == Field("redaction_version", Words(d.redactionVersion));
    assert f[4] == Field("source", Dict(IdentitySourceFields(d.source))) && f[5] == Field("scope", Words(d.scope));
    assert f[6] == Field("record_type", Words(d.recordType)) && f[7] == Field("name", Words(d.name));
    assert f[8] == Field("observation", Dict(CoordinateFields(d.source.observation)));
  }

  lemma IdentityNames(d: Draft, i: string)
    ensures PlainNames(IdentityFields(d, i))
    ensures !Named(IdentityHead(d, i), "target_id") && !Named(IdentityHead(d, i), "source_event_id")
    ensures !Named(IdentityHead(d, i), "source_entity_id")
  {
    hide Words, Dict, CoordinateFields, IdentitySourceFields, IdentityFields, Plain, Optional;
    IdentityParts(d, i);
    DedupeNamesArePlain();
    IdentityNamesArePlain();
    assert PlainNames(IdentityHead(d, i));
    PlainOptional("target_id", TargetId(d));
    PlainOptional("source_event_id", d.sourceEventId);
    PlainOptional("source_entity_id", d.sourceEntityId);
    PlainConcat(Optional("target_id", TargetId(d)), Optional("source_event_id", d.sourceEventId));
    PlainConcat(Optional("target_id", TargetId(d)) + Optional("source_event_id", d.sourceEventId),
      Optional("source_entity_id", d.sourceEntityId));
    PlainConcat(IdentityHead(d, i), IdentityOptions(d));
  }

  lemma IdentityNamesArePlain()
    ensures Plain("identity_version") && Plain("schema_version") && Plain("redaction_version")
    ensures Plain("source_event_id") && Plain("source_entity_id")
  {
  }

  lemma IdentityOptional(d: Draft, i: string)
    ensures var f := IdentityFields(d, i);
      && (if d.target.Some? then Has(f, "target_id", Words(d.target.value.id)) else !Named(f, "target_id"))
      && (if d.sourceEventId.Some? then Has(f, "source_event_id", Words(d.sourceEventId.value))
          else !Named(f, "source_event_id"))
      && (if d.sourceEntityId.Some? then Has(f, "source_entity_id", Words(d.sourceEntityId.value))
          else !Named(f, "source_entity_id"))
  {
    hide IdentityFields, IdentityHead, Words, Optional, Named, Has;
    IdentityParts(d, i);
    IdentityNames(d, i);
    var h, f := IdentityHead(d, i), IdentityFields(d, i);
    var a, b := Optional("target_id", TargetId(d)), Optional("source_event_id", d.sourceEventId);
    var c := Optional("source_entity_id", d.sourceEntityId);
    OtherNames(d);
    NothingNamed("source_entity_id");
    NotNamedConcat(b, c, "target_id");
    NotNamedConcat(h, a, "source_event_id");
    NotNamedConcat(h, a, "source_entity_id");
    NotNamedConcat(h + a, b, "source_entity_id");
    OptionalIn(h, "target_id", TargetId(d), b + c);
    OptionalIn(h + a, "source_event_id", d.sourceEventId, c);
    OptionalIn(h + a + b, "source_entity_id", d.sourceEntityId, []);
    assert h + a + (b + c) == f && h + a + b + c == f && h + a + b + c + [] == f;
  }

  lemma OtherNames(d: Draft)
    ensures var a, b := Optional("target_id", TargetId(d)), Optional("source_event_id", d.sourceEventId);
      var c := Optional("source_entity_id", d.sourceEntityId);
      && !Named(b, "target_id") && !Named(c, "target_id") && !Named(a, "source_event_id") && !Named(c, "source_event_id")
      && !Named(a, "source_entity_id") && !Named(b, "source_entity_id")
  {
    hide Words;
    assert "source_event_id"[8] == 'v' && "source_entity_id"[8] == 'n' && "target_id"[0] == 't';
  }

  lemma IdentitySourceAgrees(s: Source, t: Source)
    requires Sound(Dict(IdentitySourceFields(t)), 1, DEFAULT_MAX_DEPTH)
    ensures SameDict(IdentitySourceFields(s), IdentitySourceFields(t)) <==> SameIdentitySource(s, t)
  {
    hide Normal, Sound, NormalText, Words, Alike;
    var f, g := IdentitySourceFields(s), IdentitySourceFields(t);
    SameWords(s.id, t.id);
    SameWords(s.type_, t.type_);
    SameWords(s.namespaceId, t.namespaceId);
    SameWords(s.generationDigest, t.generationDigest);
    if SameDict(f, g) {
      assert f[0] == Field("id", Words(s.id)) && f[1] == Field("type", Words(s.type_));
      assert f[2] == Field("observation_namespace_id", Words(s.namespaceId));
      assert f[3] == Field("source_generation_digest", Words(s.generationDigest));
      assert g[0] == Field("id", Words(t.id)) && g[1] == Field("type", Words(t.type_));
      assert g[2] == Field("observation_namespace_id", Words(t.namespaceId));
      assert g[3] == Field("source_generation_digest", Words(t.generationDigest));
      TextAgrees(f, g, 1, "id", s.id, t.id);
      TextAgrees(f, g, 1, "type", s.type_, t.type_);
      TextAgrees(f, g, 1, "observation_namespace_id", s.namespaceId, t.namespaceId);
      TextAgrees(f, g, 1, "source_generation_digest", s.generationDigest, t.generationDigest);
    } else if SameIdentitySource(s, t) {
      ElementwiseNormal(f, g);
    }
  }

  /** The identity projection keeps exactly those fields. */
  lemma IdentityKeepsExactly(d: Draft, i: string, e: Draft, j: string)
    requires Projects(Dict(IdentityFields(d, i))) && Projects(Dict(IdentityFields(e, j)))
    ensures SameDict(IdentityFields(d, i), IdentityFields(e, j)) <==> SameIdentity(d, i, e, j)
  {
    hide Normal, Sound, NormalText, IdentityFields, Plain, CoordinateFields, SameObservation, IdentitySourceFields;
    hide Words, Has, Alike, AlikeIf, SameIdentitySource;
    var f, g := IdentityFields(d, i), IdentityFields(e, j);
    IdentityParts(d, i);
    IdentityParts(e, j);
    InnerIsSound(g, 0, "source", Dict(IdentitySourceFields(e.source)));
    InnerIsSound(g, 0, "observation", Dict(CoordinateFields(e.source.observation)));
    ObservationAgrees(d.source.observation, e.source.observation, 1);
    IdentitySourceAgrees(d.source, e.source);
    if SameDict(f, g) {
      IdentityTextsAgree(d, i, e, j);
      SameUnderName(f, g, 0, "source", Dict(IdentitySourceFields(d.source)), Dict(IdentitySourceFields(e.source)));
      SameUnderName(f, g, 0, "observation", Dict(CoordinateFields(d.source.observation)),
        Dict(CoordinateFields(e.source.observation)));
    }
    if SameIdentity(d, i, e, j) { SameIdentityIsEnough(d, i, e, j); }
  }

  lemma IdentityTextsAgree(d: Draft, i: string, e: Draft, j: string)
    requires SameDict(IdentityFields(d, i), IdentityFields(e, j)) && Sound(Dict(IdentityFields(e, j)), 0, DEFAULT_MAX_DEPTH)
    ensures Alike(i, j) && Alike(d.redactionVersion, e.redactionVersion) && Alike(d.scope, e.scope)
    ensures Alike(d.recordType, e.recordType) && Alike(d.name, e.name) && AlikeIf(TargetId(d), TargetId(e))
    ensures AlikeIf(d.sourceEventId, e.sourceEventId) && AlikeIf(d.sourceEntityId, e.sourceEntityId)
  {
    hide Normal, Sound, NormalText, IdentityFields, Plain, CoordinateFields, IdentitySourceFields, Words, Has, Named;
    hide PlainNames, Alike;
    var f, g := IdentityFields(d, i), IdentityFields(e, j);
    IdentityParts(d, i);
    IdentityParts(e, j);
    TextAgrees(f, g, 0, "installation_id", i, j);
    TextAgrees(f, g, 0, "redaction_version", d.redactionVersion, e.redactionVersion);
    TextAgrees(f, g, 0, "scope", d.scope, e.scope);
    TextAgrees(f, g, 0, "record_type", d.recordType, e.recordType);
    TextAgrees(f, g, 0, "name", d.name, e.name);
    IdentityNames(d, i);
    IdentityNames(e, j);
    IdentityOptional(d, i);
    IdentityOptional(e, j);
    OptionalAgrees(f, g, 0, "target_id", TargetId(d), TargetId(e));
    OptionalAgrees(f, g, 0, "source_event_id", d.sourceEventId, e.sourceEventId);
    OptionalAgrees(f, g, 0, "source_entity_id", d.sourceEntityId, e.sourceEntityId);
  }

  lemma SameIdentityIsEnough(d: Draft, i: string, e: Draft, j: string)
    requires SameIdentity(d, i, e, j) && SameDict(IdentitySourceFields(d.source), IdentitySourceFields(e.source))
    requires SameDict(CoordinateFields(d.source.observation), CoordinateFields(e.source.observation))
    ensures SameDict(IdentityFields(d, i), IdentityFields(e, j))
  {
    hide Normal, NormalText, Words, CoordinateFields, IdentitySourceFields, Optional, Members, SameObservation, Dict;
    hide IdentityFields;
    SameWords(i, j);
    SameWords(d.redactionVersion, e.redactionVersion);
    SameWords(d.scope, e.scope);
    SameWords(d.recordType, e.recordType);
    SameWords(d.name, e.name);
    ElementwiseNormal(IdentityHead(d, i), IdentityHead(e, j));
    SameOptional("target_id", TargetId(d), TargetId(e));
    SameOptional("source_event_id", d.sourceEventId, e.sourceEventId);
    SameOptional("source_entity_id", d.sourceEntityId, e.sourceEntityId);
    IdentityMembers(d, i);
    IdentityMembers(e, j);
    SameMembersSameNormal(IdentityFields(d, i), IdentityFields(e, j));
  }

  lemma IdentityMembers(d: Draft, i: string)
    ensures Members(IdentityFields(d, i)) ==
      Members(IdentityHead(d, i)) + Members(Optional("target_id", TargetId(d)))
      + Members(Optional("source_event_id", d.sourceEventId)) + Members(Optional("source_entity_id", d.sourceEntityId))
  {
    hide Members, IdentityHead, Optional, IdentityFields;
    IdentityParts(d, i);
    var a, b := Optional("target_id", TargetId(d)), Optional("source_event_id", d.sourceEventId);
    var c := Optional("source_entity_id", d.sourceEntityId);
    MembersConcat(IdentityHead(d, i), a + b + c);
    MembersConcat(a + b, c);
    MembersConcat(a, b);
  }

  /** Two records have the same record identifier exactly if they agree on those fields, unless the hash collides. */
  lemma RecordIdsTellApart(d: Draft, i: string, e: Draft, j: string)
    requires var v, w := Dict(IdentityFields(d, i)), Dict(IdentityFields(e, j));
      Projects(v) && Projects(w) && !Collides(RECORD_ID_DOMAIN, v, w)
    ensures RecordIdOf(Dict(IdentityFields(d, i))) == RecordIdOf(Dict(IdentityFields(e, j))) <==> SameIdentity(d, i, e, j)
  {
    hide Normal, IdentityFields, RecordIdOf, Collides, Projects, SameIdentity, RECORD_ID_DOMAIN;
    var v, w := Dict(IdentityFields(d, i)), Dict(IdentityFields(e, j));
    IdentityKeepsExactly(d, i, e, j);
    if RecordIdOf(v) == RecordIdOf(w) { EqualIdsMeanAgreement(v, w); }
    if Normal(v) == Normal(w) { SameProjectionSameKey(v, w); }
  }

  // ---- the content projection ----------------------------------------------------------------------------------------

  function Maybe(name: string, v: Option<Value>): seq<Field> { if v.Some? then [Field(name, v.value)] else [] }

  function CollectorValue(d: Draft): Option<Value> {
    if d.collector.Some? then Some(Dict(KeptOfCollector(d.collector.value))) else None
  }

  /** The collector without its version. */
  function KeptOfCollector(c: Collector): seq<Field> {
    [Field("id", Words(c.id)), Field("type", Words(c.type_)), Field("plugin_api_version", Words("1.0"))]
  }

  function TargetValue(d: Draft): Option<Value> {
    if d.target.Some? then Some(Dict(TargetFields(d.target.value))) else None
  }

  function TargetFields(t: Target): seq<Field> {
    [ Field("id", Words(t.id)), Field("name", Words(t.name)), Field("kind", Words(t.kind)),
      Field("environment", Words(t.environment)) ]
  }

  function ContentHead(d: Draft): seq<Field> {
    [ Field("schema_version", Words("1.0")), Field("record_type", Words(d.recordType)), Field("name", Words(d.name)),
      Field("occurred_at", Time(d.occurredAt)) ]
  }

  function ContentMiddle(d: Draft): seq<Field> {
    [Field("scope", Words(d.scope)), Field("source", Dict(SourceFields(d.source)))]
  }

  function ContentTail(d: Draft): seq<Field> {
    [ Field("severity", Words(d.severity)), Field("trust_level", Words(d.trustLevel)),
      Field("privacy_class", Words(d.privacyClass)), Field("redaction_version", Words(d.redactionVersion)),
      Field("correlation", Dict(d.correlation)), Field("dimensions", Dict(d.dimensions)), Field("data", d.data) ]
  }

  /** What a record's content consists of. */
  function ContentFields(d: Draft): seq<Field> {
    ContentHead(d) + Optional("source_event_id", d.sourceEventId) + Optional("source_entity_id", d.sourceEntityId)
    + ContentMiddle(d) + Maybe("collector", CollectorValue(d)) + Maybe("target", TargetValue(d)) + ContentTail(d)
  }

  lemma {:induction false} NothingDropped(f: seq<Field>)
    requires forall i | 0 <= i < |f| :: f[i].name !in EXCLUDED
    ensures ContentProjection(Undivided(f)) == f
  {
    if f != [] {
      NothingDropped(f[1..]);
      assert Undivided(f)[1..] == Undivided(f[1..]) && Undivided(f)[0] == Plainly(f[0]);
    }
  }

  lemma ContentIs(d: Draft)
    ensures ContentProjection(DraftFields(d)) == ContentFields(d)
  {
    hide DraftFields, ContentProjection, Words, Dict, SourceFields, CollectorFields, CollectorValue, TargetValue, Maybe;
    hide Remainder, Optional, Stable, Opaque, Descriptors, ContentTail, ContentHead, ContentMiddle;
    ProjectedDraft(d);
    HeadContent(d);
    CollectorContent(d);
    RemainderContent(d);
  }

  lemma HeadContent(d: Draft)
    ensures ContentProjection(Stable(d)) == ContentHead(d) && ContentProjection(Descriptors(d)) == ContentMiddle(d)
    ensures ContentProjection(Opaque(d)) ==
      Optional("source_event_id", d.sourceEventId) + Optional("source_entity_id", d.sourceEntityId)
  {
    hide ContentProjection, Words, Dict, Time, SourceFields;
    NothingDropped(ContentHead(d));
    NothingDropped(ContentMiddle(d));
    NothingDropped(Optional("source_event_id", d.sourceEventId) + Optional("source_entity_id", d.sourceEntityId));
  }

  lemma CollectorContent(d: Draft)
    ensures ContentProjection(if d.collector.Some? then [Collecting(CollectorFields(d.collector.value))] else [])
      == Maybe("collector", CollectorValue(d))
  {
    hide Words;
    if d.collector.Some? {
      var c := d.collector.value;
      CollectorAlone(c);
      KeptCollector(c);
      assert CollectorFields(c)[..3] == KeptOfCollector(c);
    }
  }

  lemma RemainderContent(d: Draft)
    ensures ContentProjection(Remainder(d)) == Maybe("target", TargetValue(d)) + ContentTail(d)
  {
    hide ContentProjection, Words, Dict;
    var target := Undivided(Maybe("target", TargetValue(d)));
    NothingDropped(Maybe("target", TargetValue(d)));
    NothingDropped(ContentTail(d));
    ProjectionConcat(target, Undivided(ContentTail(d)));
    assert Remainder(d) == target + Undivided(ContentTail(d));
  }

  /** The drafts agree on all that the content hash is taken of. */
  ghost predicate SameContent(d: Draft, e: Draft) {
    && Alike(d.recordType, e.recordType) && Alike(d.name, e.name) && d.occurredAt == e.occurredAt
    && AlikeIf(d.sourceEventId, e.sourceEventId) && AlikeIf(d.sourceEntityId, e.sourceEntityId)
    && Alike(d.scope, e.scope) && SameSource(d.source, e.source) && SameCollector(d.collector, e.collector)
    && SameTarget(d.target, e.target) && SameGrades(d, e) && SameDict(d.correlation, e.correlation)
    && SameDict(d.dimensions, e.dimensions) && Normal(d.data) == Normal(e.data)
  }

  ghost predicate SameSource(s: Source, t: Source) {
    && Alike(s.id, t.id) && Alike(s.type_, t.type_) && Alike(s.producer, t.producer)
    && Alike(s.namespaceId, t.namespaceId) && Alike(s.generationDigest, t.generationDigest)
    && SameObservation(s.observation, t.observation)
  }

  /** The same collector, whatever its version. */
  ghost predicate SameCollector(c: Option<Collector>, k: Option<Collector>) {
    (c.Some? <==> k.Some?) && (c.Some? && k.Some? ==> Alike(c.value.id, k.value.id) && Alike(c.value.type_, k.value.type_))
  }

  ghost predicate SameTarget(t: Option<Target>, u: Option<Target>) {
    && (t.Some? <==> u.Some?)
    && (t.Some? && u.Some? ==>
          && Alike(t.value.id, u.value.id) && Alike(t.value.name, u.value.name) && Alike(t.value.kind, u.value.kind)
          && Alike(t.value.environment, u.value.environment))
  }

  ghost predicate SameGrades(d: Draft, e: Draft) {
    && Alike(d.severity, e.severity) && Alike(d.trustLevel, e.trustLevel) && Alike(d.privacyClass, e.privacyClass)
    && Alike(d.redactionVersion, e.redactionVersion)
  }

  // ---- which names a content has ---------------------------------------------------------------------------------------

  lemma MaybeIn(before: seq<Field>, name: string, v: Option<Value>, after: seq<Field>)
    requires !Named(before, name) && !Named(after, name)
    ensures var f := before + Maybe(name, v) + after;
      if v.Some? then Has(f, name, v.value) else !Named(f, name)
  {
    if v.Some? {
      assert Maybe(name, v)[0] == Field(name, v.value);
      HasRight(before, Maybe(name, v), name, v.value);
      HasLeft(before + Maybe(name, v), after, name, v.value);
    } else {
      assert before + Maybe(name, v) + after == before + after;
      NotNamedConcat(before, after, name);
    }
  }

  /** An optional value is kept or absent in both. */
  lemma MaybeAgrees(f: seq<Field>, g: seq<Field>, depth: nat, name: string, v: Option<Value>, w: Option<Value>)
    requires Normal(Dict(f)) == Normal(Dict(g)) && Sound(Dict(g), depth, DEFAULT_MAX_DEPTH)
    requires PlainNames(f) && PlainNames(g)
    requires if v.Some? then Has(f, name, v.value) else !Named(f, name)
    requires if w.Some? then Has(g, name, w.value) else !Named(g, name)
    ensures (v.Some? <==> w.Some?) && (v.Some? && w.Some? ==> Normal(v.value) == Normal(w.value))
  {
    hide Normal, Sound, Plain;
    if Named(f, name) { SameNames(f, g, name); }
    if Named(g, name) { SameNames(g, f, name); }
    if v.Some? { var i :| 0 <= i < |f| && f[i] == Field(name, v.value); }
    if w.Some? { var i :| 0 <= i < |g| && g[i] == Field(name, w.value); }
    if v.Some? && w.Some? { SameUnderName(f, g, depth, name, v.value, w.value); }
  }

  lemma SameMaybe(name: string, v: Option<Value>, w: Option<Value>)
    requires (v.Some? <==> w.Some?) && (v.Some? && w.Some? ==> Normal(v.value) == Normal(w.value))
    ensures Members(Maybe(name, v)) == Members(Maybe(name, w))
  {
    hide Normal;
    if v.Some? { ElementwiseNormal(Maybe(name, v), Maybe(name, w)); }
  }

  predicate Optionally(name: string) {
    name == "source_event_id" || name == "source_entity_id" || name == "collector" || name == "target"
  }

  lemma FixedNames(d: Draft, name: string)
    requires Optionally(name)
    ensures !Named(ContentHead(d), name) && !Named(ContentMiddle(d), name) && !Named(ContentTail(d), name)
  {
    hide Words, Dict, SourceFields;
  }

  lemma OnlyMaybe(name: string, v: Option<Value>, other: string)
    ensures Named(Maybe(name, v), other) ==> name == other
  {
  }

  lemma OptionNames()
    ensures "source_event_id" != "source_entity_id" && "collector" != "target"
    ensures "source_event_id" != "collector" && "source_event_id" != "target"
    ensures "source_entity_id" != "collector" && "source_entity_id" != "target"
  {
    assert "source_event_id"[8] == 'v' && "source_entity_id"[8] == 'n';
  }

  /** The optional parts of a content, and where they are. */
  lemma ContentOptions(d: Draft)
    ensures var f := ContentFields(d);
      && (if d.sourceEventId.Some? then Has(f, "source_event_id", Words(d.sourceEventId.value))
          else !Named(f, "source_event_id"))
      && (if d.sourceEntityId.Some? then Has(f, "source_entity_id", Words(d.sourceEntityId.value))
          else !Named(f, "source_entity_id"))
      && (if CollectorValue(d).Some? then Has(f, "collector", CollectorValue(d).value) else !Named(f, "collector"))
      && (if TargetValue(d).Some? then Has(f, "target", TargetValue(d).value) else !Named(f, "target"))
  {
    hide ContentHead, ContentMiddle, ContentTail, Words, Optional, Maybe, Named, Has, CollectorValue, TargetValue;
    var h, m, t := ContentHead(d), ContentMiddle(d), ContentTail(d);
    var a, b := Optional("source_event_id", d.sourceEventId), Optional("source_entity_id", d.sourceEntityId);
    var c, g := Maybe("collector", CollectorValue(d)), Maybe("target", TargetValue(d));
    OptionNames();
    forall name | Optionally(name)
      ensures !Named(h, name) && !Named(m, name) && !Named(t, name)
      ensures name != "source_event_id" ==> !Named(a, name)
      ensures name != "source_entity_id" ==> !Named(b, name)
      ensures name != "collector" ==> !Named(c, name)
      ensures name != "target" ==> !Named(g, name)
    {
      FixedNames(d, name);
      OnlyNamed("source_event_id", d.sourceEventId, name);
      OnlyNamed("source_entity_id", d.sourceEntityId, name);
      OnlyMaybe("collector", CollectorValue(d), name);
      OnlyMaybe("target", TargetValue(d), name);
    }
    AbsentAfter(b, m, c, g, t, "source_event_id");
    NotNamedConcat(h, a, "source_entity_id");
    NothingNamed("source_entity_id");
    AbsentAfter([], m, c, g, t, "source_entity_id");
    AbsentAfter(h, a, b, m, g, "collector");
    AbsentAfter(h, a, b, m, c, "target");
    NothingNamed("collector");
    AbsentAfter(h, a, b, m, [], "collector");
    NotNamedConcat(g, t, "collector");
    OptionalIn(h, "source_event_id", d.sourceEventId, b + m + c + g + t);
    OptionalIn(h + a, "source_entity_id", d.sourceEntityId, [] + m + c + g + t);
    MaybeIn(h + a + b + m + [], "collector", CollectorValue(d), g + t);
    MaybeIn(h + a + b + m + c, "target", TargetValue(d), t);
    var f := ContentFields(d);
    assert h + a + (b + m + c + g + t) == f && h + a + b + ([] + m + c + g + t) == f;
    assert h + a + b + m + [] + c + (g + t) == f && h + a + b + m + c + g + t == f;
  }

  lemma AbsentAfter(a: seq<Field>, b: seq<Field>, c: seq<Field>, d: seq<Field>, e: seq<Field>, name: string)
    requires !Named(a, name) && !Named(b, name) && !Named(c, name) && !Named(d, name) && !Named(e, name)
    ensures !Named(a + b + c + d + e, name)
  {
    hide Named;
    NotNamedConcat(a, b, name);
    NotNamedConcat(a + b, c, name);
    NotNamedConcat(a + b + c, d, name);
    NotNamedConcat(a + b + c + d, e, name);
  }

  lemma ContentNames(d: Draft)
    ensures PlainNames(ContentFields(d))
  {
    hide Words, Dict, SourceFields, Plain, Optional, Maybe, CollectorValue, TargetValue;
    ContentNamesArePlain();
    IdentityNamesArePlain();
    DedupeNamesArePlain();
    var h, m, t := ContentHead(d), ContentMiddle(d), ContentTail(d);
    var a, b := Optional("source_event_id", d.sourceEventId), Optional("source_entity_id", d.sourceEntityId);
    var c, g := Maybe("collector", CollectorValue(d)), Maybe("target", TargetValue(d));
    assert PlainNames(h) && PlainNames(m) && PlainNames(t);
    PlainOptional("source_event_id", d.sourceEventId);
    PlainOptional("source_entity_id", d.sourceEntityId);
    PlainMaybe("collector", CollectorValue(d));
    PlainMaybe("target", TargetValue(d));
    PlainConcat(h, a);
    PlainConcat(h + a, b);
    PlainConcat(h + a + b, m);
    PlainConcat(h + a + b + m, c);
    PlainConcat(h + a + b + m + c, g);
    PlainConcat(h + a + b + m + c + g, t);
  }

  lemma PlainMaybe(name: string, v: Option<Value>)
    requires Plain(name)
    ensures PlainNames(Maybe(name, v))
  {
    hide Plain;
  }

  lemma ContentNamesArePlain()
    ensures Plain("occurred_at") && Plain("severity") && Plain("trust_level") && Plain("privacy_class")
    ensures Plain("correlation") && Plain("dimensions") && Plain("data") && Plain("collector") && Plain("target")
  {
  }

  lemma ContentFixed(d: Draft)
    ensures var f := ContentFields(d);
      && Has(f, "record_type", Words(d.recordType)) && Has(f, "name", Words(d.name))
      && Has(f, "occurred_at", Time(d.occurredAt)) && Has(f, "scope", Words(d.scope))
      && Has(f, "source", Dict(SourceFields(d.source)))
  {
    hide Words, Dict, Time, SourceFields, ContentTail, Optional, Maybe, CollectorValue, TargetValue, Has;
    var h, m, t := ContentHead(d), ContentMiddle(d), ContentTail(d);
    var o := Optional("source_event_id", d.sourceEventId) + Optional("source_entity_id", d.sourceEntityId);
    var after := Maybe("collector", CollectorValue(d)) + Maybe("target", TargetValue(d)) + t;
    HasAt(h, 1);
    HasAt(h, 2);
    HasAt(h, 3);
    HasAt(m, 0);
    HasAt(m, 1);
    var f := ContentFields(d);
    assert f == h + (o + m + after) && f == h + o + m + after;
    HasLeft(h, o + m + after, "record_type", Words(d.recordType));
    HasLeft(h, o + m + after, "name", Words(d.name));
    HasLeft(h, o + m + after, "occurred_at", Time(d.occurredAt));
    HasRight(h + o, m, "scope", Words(d.scope));
    HasRight(h + o, m, "source", Dict(SourceFields(d.source)));
    HasLeft(h + o + m, after, "scope", Words(d.scope));
    HasLeft(h + o + m, after, "source", Dict(SourceFields(d.source)));
  }

  lemma HasAt(f: seq<Field>, i: nat)
    requires i < |f|
    ensures Has(f, f[i].name, f[i].value)
  {
    assert f[i] == Field(f[i].name, f[i].value);
  }

  lemma ContentEnds(d: Draft)
    ensures var f := ContentFields(d);
      && Has(f, "severity", Words(d.severity)) && Has(f, "trust_level", Words(d.trustLevel))
      && Has(f, "privacy_class", Words(d.privacyClass)) && Has(f, "redaction_version", Words(d.redactionVersion))
      && Has(f, "correlation", Dict(d.correlation)) && Has(f, "dimensions", Dict(d.dimensions)) && Has(f, "data", d.data)
  {
    hide Words, Dict, Has, ContentHead, ContentMiddle, Optional, Maybe, CollectorValue, TargetValue;
    var t := ContentTail(d);
    var before := ContentFields(d)[..|ContentFields(d)| - 7];
    assert ContentFields(d) == before + t;
    forall i: nat | i < 7 ensures Has(ContentFields(d), t[i].name, t[i].value) {
      HasAt(t, i);
      HasRight(before, t, t[i].name, t[i].value);
    }
    assert t[0].name == "severity" && t[1].name == "trust_level" && t[2].name == "privacy_class";
    assert t[3].name == "redaction_version" && t[4].name == "correlation" && t[5].name == "dimensions" && t[6].name == "data";
  }

  // ---- the content projection keeps exactly those fields ---------------------------------------------------------------

  lemma SourceAgrees(s: Source, t: Source)
    requires Sound(Dict(SourceFields(t)), 1, DEFAULT_MAX_DEPTH)
    ensures SameDict(SourceFields(s), SourceFields(t)) <==> SameSource(s, t)
  {
    hide Normal, Sound, NormalText, Words, Alike, CoordinateFields, Has, SameObservation;
    var f, g := SourceFields(s), SourceFields(t);
    SourceParts(s);
    SourceParts(t);
    InnerIsSound(g, 1, "observation", Dict(CoordinateFields(t.observation)));
    ObservationAgrees(s.observation, t.observation, 2);
    if SameDict(f, g) {
      TextAgrees(f, g, 1, "id", s.id, t.id);
      TextAgrees(f, g, 1, "type", s.type_, t.type_);
      TextAgrees(f, g, 1, "producer", s.producer, t.producer);
      TextAgrees(f, g, 1, "observation_namespace_id", s.namespaceId, t.namespaceId);
      TextAgrees(f, g, 1, "source_generation_digest", s.generationDigest, t.generationDigest);
      SameUnderName(f, g, 1, "observation", Dict(CoordinateFields(s.observation)), Dict(CoordinateFields(t.observation)));
    } else if SameSource(s, t) {
      SameSourceIsEnough(s, t);
    }
  }

  lemma SourceParts(s: Source)
    ensures var f := SourceFields(s);
      && Has(f, "id", Words(s.id)) && Has(f, "type", Words(s.type_)) && Has(f, "producer", Words(s.producer))
      && Has(f, "observation_namespace_id", Words(s.namespaceId))
      && Has(f, "source_generation_digest", Words(s.generationDigest))
      && Has(f, "observation", Dict(CoordinateFields(s.observation)))
  {
    hide Words, Dict, CoordinateFields, Has;
    var f := SourceFields(s);
    HasAt(f, 0);
    HasAt(f, 1);
    HasAt(f, 2);
    HasAt(f, 3);
    HasAt(f, 4);
    HasAt(f, 5);
  }

  lemma SameSourceIsEnough(s: Source, t: Source)
    requires SameSource(s, t) && SameDict(CoordinateFields(s.observation), CoordinateFields(t.observation))
    ensures SameDict(SourceFields(s), SourceFields(t))
  {
    hide Normal, NormalText, Words, Alike, CoordinateFields, SameObservation;
    SameWords(s.id, t.id);
    SameWords(s.type_, t.type_);
    SameWords(s.producer, t.producer);
    SameWords(s.namespaceId, t.namespaceId);
    SameWords(s.generationDigest, t.generationDigest);
    ElementwiseNormal(SourceFields(s), SourceFields(t));
  }

  lemma CollectorAgrees(c: Collector, k: Collector)
    requires Sound(Dict(KeptOfCollector(k)), 1, DEFAULT_MAX_DEPTH)
    ensures SameDict(KeptOfCollector(c), KeptOfCollector(k)) <==> SameCollector(Some(c), Some(k))
  {
    hide Normal, Sound, NormalText, Words, Alike, Has;
    var f, g := KeptOfCollector(c), KeptOfCollector(k);
    SameWords(c.id, k.id);
    SameWords(c.type_, k.type_);
    if SameDict(f, g) {
      HasAt(f, 0);
      HasAt(f, 1);
      HasAt(g, 0);
      HasAt(g, 1);
      TextAgrees(f, g, 1, "id", c.id, k.id);
      TextAgrees(f, g, 1, "type", c.type_, k.type_);
    } else if SameCollector(Some(c), Some(k)) {
      ElementwiseNormal(f, g);
    }
  }

  lemma TargetAgrees(t: Target, u: Target)
    requires Sound(Dict(TargetFields(u)), 1, DEFAULT_MAX_DEPTH)
    ensures SameDict(TargetFields(t), TargetFields(u)) <==> SameTarget(Some(t), Some(u))
  {
    hide Normal, Sound, NormalText, Words, Alike, Has;
    var f, g := TargetFields(t), TargetFields(u);
    SameWords(t.id, u.id);
    SameWords(t.name, u.name);
    SameWords(t.kind, u.kind);
    SameWords(t.environment, u.environment);
    if SameDict(f, g) {
      forall i: nat | i < 4 ensures Has(f, f[i].name, f[i].value) && Has(g, g[i].name, g[i].value) {
        HasAt(f, i);
        HasAt(g, i);
      }
      assert f[0].name == "id" && f[1].name == "name" && f[2].name == "kind" && f[3].name == "environment";
      TextAgrees(f, g, 1, "id", t.id, u.id);
      TextAgrees(f, g, 1, "name", t.name, u.name);
      TextAgrees(f, g, 1, "kind", t.kind, u.kind);
      TextAgrees(f, g, 1, "environment", t.environment, u.environment);
    } else if SameTarget(Some(t), Some(u)) {
      ElementwiseNormal(f, g);
    }
  }

  /** The content projection keeps exactly those fields. */
  lemma ContentKeepsExactly(d: Draft, e: Draft)
    requires Projects(Dict(ContentFields(d))) && Projects(Dict(ContentFields(e)))
    ensures SameDict(ContentFields(d), ContentFields(e)) <==> SameContent(d, e)
  {
    hide Normal, Sound, Alike, AlikeIf, SameSource, SameCollector, SameTarget, SameGrades, Encodable;
    ContentIsSound(d);
    ContentIsSound(e);
    if SameDict(ContentFields(d), ContentFields(e)) {
      FixedContentAgrees(d, e);
      OptionalContentAgrees(d, e);
      TailContentAgrees(d, e);
    }
    if SameContent(d, e) { SameContentIsEnough(d, e); }
  }

  lemma ContentIsSound(d: Draft)
    requires Projects(Dict(ContentFields(d)))
    ensures Sound(Dict(ContentFields(d)), 0, DEFAULT_MAX_DEPTH) && InRange(d.occurredAt)
    ensures Sound(Dict(SourceFields(d.source)), 1, DEFAULT_MAX_DEPTH)
    ensures CollectorValue(d).Some? ==> Sound(CollectorValue(d).value, 1, DEFAULT_MAX_DEPTH)
    ensures TargetValue(d).Some? ==> Sound(TargetValue(d).value, 1, DEFAULT_MAX_DEPTH)
  {
    hide Sound, ContentFields, Has, Dict, CollectorValue, TargetValue, Words, SourceFields;
    var f := ContentFields(d);
    ContentFixed(d);
    ContentOptions(d);
    InnerIsSound(f, 0, "occurred_at", Time(d.occurredAt));
    SoundTime(d.occurredAt, 1);
    InnerIsSound(f, 0, "source", Dict(SourceFields(d.source)));
    if CollectorValue(d).Some? { InnerIsSound(f, 0, "collector", CollectorValue(d).value); }
    if TargetValue(d).Some? { InnerIsSound(f, 0, "target", TargetValue(d).value); }
  }

  lemma SoundTime(t: Instant, depth: nat)
    requires Sound(Time(t), depth, DEFAULT_MAX_DEPTH)
    ensures InRange(t)
  {
    SoundScalar(Time(t), depth, DEFAULT_MAX_DEPTH);
  }

  lemma FixedContentAgrees(d: Draft, e: Draft)
    requires SameDict(ContentFields(d), ContentFields(e)) && Sound(Dict(ContentFields(e)), 0, DEFAULT_MAX_DEPTH)
    requires InRange(d.occurredAt) && InRange(e.occurredAt) && Sound(Dict(SourceFields(e.source)), 1, DEFAULT_MAX_DEPTH)
    ensures Alike(d.recordType, e.recordType) && Alike(d.name, e.name) && d.occurredAt == e.occurredAt
    ensures Alike(d.scope, e.scope) && SameSource(d.source, e.source)
  {
    hide Normal, Sound, ContentFields, Has, Words, Time, SourceFields, Alike, SameSource;
    var f, g := ContentFields(d), ContentFields(e);
    ContentFixed(d);
    ContentFixed(e);
    TextAgrees(f, g, 0, "record_type", d.recordType, e.recordType);
    TextAgrees(f, g, 0, "name", d.name, e.name);
    TextAgrees(f, g, 0, "scope", d.scope, e.scope);
    SameUnderName(f, g, 0, "occurred_at", Time(d.occurredAt), Time(e.occurredAt));
    SameTimes(d.occurredAt, e.occurredAt);
    SameUnderName(f, g, 0, "source", Dict(SourceFields(d.source)), Dict(SourceFields(e.source)));
    SourceAgrees(d.source, e.source);
  }

  lemma SameTimes(t: Instant, u: Instant)
    requires InRange(t) && InRange(u) && Normal(Time(t)) == Normal(Time(u))
    ensures t == u
  {
    hide FormatTimestamp, InRange;
    FormatInjective(t, u);
  }

  lemma OptionalContentAgrees(d: Draft, e: Draft)
    requires SameDict(ContentFields(d), ContentFields(e)) && Sound(Dict(ContentFields(e)), 0, DEFAULT_MAX_DEPTH)
    requires CollectorValue(e).Some? ==> Sound(CollectorValue(e).value, 1, DEFAULT_MAX_DEPTH)
    requires TargetValue(e).Some? ==> Sound(TargetValue(e).value, 1, DEFAULT_MAX_DEPTH)
    ensures AlikeIf(d.sourceEventId, e.sourceEventId) && AlikeIf(d.sourceEntityId, e.sourceEntityId)
    ensures SameCollector(d.collector, e.collector) && SameTarget(d.target, e.target)
  {
    hide Normal, Sound, ContentFields, Has, Named, Words, Alike, PlainNames, AlikeIf, KeptOfCollector, TargetFields;
    var f, g := ContentFields(d), ContentFields(e);
    ContentOptions(d);
    ContentOptions(e);
    ContentNames(d);
    ContentNames(e);
    OptionalAgrees(f, g, 0, "source_event_id", d.sourceEventId, e.sourceEventId);
    OptionalAgrees(f, g, 0, "source_entity_id", d.sourceEntityId, e.sourceEntityId);
    MaybeAgrees(f, g, 0, "collector", CollectorValue(d), CollectorValue(e));
    MaybeAgrees(f, g, 0, "target", TargetValue(d), TargetValue(e));
    if d.collector.Some? && e.collector.Some? { CollectorAgrees(d.collector.value, e.collector.value); }
    if d.target.Some? && e.target.Some? { TargetAgrees(d.target.value, e.target.value); }
  }

  lemma TailContentAgrees(d: Draft, e: Draft)
    requires SameDict(ContentFields(d), ContentFields(e)) && Sound(Dict(ContentFields(e)), 0, DEFAULT_MAX_DEPTH)
    ensures SameGrades(d, e) && SameDict(d.correlation, e.correlation) && SameDict(d.dimensions, e.dimensions)
    ensures Normal(d.data) == Normal(e.data)
  {
    hide Normal, Sound, ContentFields, Has, Words, Alike, Dict;
    var f, g := ContentFields(d), ContentFields(e);
    ContentEnds(d);
    ContentEnds(e);
    TextAgrees(f, g, 0, "severity", d.severity, e.severity);
    TextAgrees(f, g, 0, "trust_level", d.trustLevel, e.trustLevel);
    TextAgrees(f, g, 0, "privacy_class", d.privacyClass, e.privacyClass);
    TextAgrees(f, g, 0, "redaction_version", d.redactionVersion, e.redactionVersion);
    SameUnderName(f, g, 0, "correlation", Dict(d.correlation), Dict(e.correlation));
    SameUnderName(f, g, 0, "dimensions", Dict(d.dimensions), Dict(e.dimensions));
    SameUnderName(f, g, 0, "data", d.data, e.data);
  }

  lemma SameContentIsEnough(d: Draft, e: Draft)
    requires SameContent(d, e) && Sound(Dict(SourceFields(e.source)), 1, DEFAULT_MAX_DEPTH)
    requires CollectorValue(e).Some? ==> Sound(CollectorValue(e).value, 1, DEFAULT_MAX_DEPTH)
    requires TargetValue(e).Some? ==> Sound(TargetValue(e).value, 1, DEFAULT_MAX_DEPTH)
    ensures SameDict(ContentFields(d), ContentFields(e))
  {
    hide Normal, Sound, NormalText, Words, Alike, SourceFields, KeptOfCollector, TargetFields, SameSource, Members;
    hide Optional, Maybe, ContentFields, SameCollector, SameTarget, Dict;
    SameHeads(d, e);
    SameMiddles(d, e);
    SameTails(d, e);
    SameOptional("source_event_id", d.sourceEventId, e.sourceEventId);
    SameOptional("source_entity_id", d.sourceEntityId, e.sourceEntityId);
    SameCollectors(d, e);
    SameTargets(d, e);
    ContentMembers(d);
    ContentMembers(e);
    SameMembersSameNormal(ContentFields(d), ContentFields(e));
  }

  lemma SameHeads(d: Draft, e: Draft)
    requires Alike(d.recordType, e.recordType) && Alike(d.name, e.name) && d.occurredAt == e.occurredAt
    ensures Members(ContentHead(d)) == Members(ContentHead(e))
  {
    hide Normal, Words, Alike, Members, Time;
    SameWords(d.recordType, e.recordType);
    SameWords(d.name, e.name);
    ElementwiseNormal(ContentHead(d), ContentHead(e));
  }

  lemma SameMiddles(d: Draft, e: Draft)
    requires Alike(d.scope, e.scope) && SameSource(d.source, e.source)
    requires Sound(Dict(SourceFields(e.source)), 1, DEFAULT_MAX_DEPTH)
    ensures Members(ContentMiddle(d)) == Members(ContentMiddle(e))
  {
    hide Normal, Sound, Words, Alike, Members, SourceFields, SameSource;
    SameWords(d.scope, e.scope);
    SourceAgrees(d.source, e.source);
    ElementwiseNormal(ContentMiddle(d), ContentMiddle(e));
  }

  lemma SameTails(d: Draft, e: Draft)
    requires SameGrades(d, e) && SameDict(d.correlation, e.correlation) && SameDict(d.dimensions, e.dimensions)
    requires Normal(d.data) == Normal(e.data)
    ensures Members(ContentTail(d)) == Members(ContentTail(e))
  {
    hide Normal, Words, Alike, Members, Dict;
    SameWords(d.severity, e.severity);
    SameWords(d.trustLevel, e.trustLevel);
    SameWords(d.privacyClass, e.privacyClass);
    SameWords(d.redactionVersion, e.redactionVersion);
    ElementwiseNormal(ContentTail(d), ContentTail(e));
  }

  lemma SameCollectors(d: Draft, e: Draft)
    requires SameCollector(d.collector, e.collector)
    requires CollectorValue(e).Some? ==> Sound(CollectorValue(e).value, 1, DEFAULT_MAX_DEPTH)
    ensures Members(Maybe("collector", CollectorValue(d))) == Members(Maybe("collector", CollectorValue(e)))
  {
    hide Normal, Sound, Alike, Members, KeptOfCollector;
    if d.collector.Some? { CollectorAgrees(d.collector.value, e.collector.value); }
    SameMaybe("collector", CollectorValue(d), CollectorValue(e));
  }

  lemma SameTargets(d: Draft, e: Draft)
    requires SameTarget(d.target, e.target)
    requires TargetValue(e).Some? ==> Sound(TargetValue(e).value, 1, DEFAULT_MAX_DEPTH)
    ensures Members(Maybe("target", TargetValue(d))) == Members(Maybe("target", TargetValue(e)))
  {
    hide Normal, Sound, Alike, Members, TargetFields;
    if d.target.Some? { TargetAgrees(d.target.value, e.target.value); }
    SameMaybe("target", TargetValue(d), TargetValue(e));
  }

  lemma ContentMembers(d: Draft)
    ensures Members(ContentFields(d)) ==
      Members(ContentHead(d)) + Members(Optional("source_event_id", d.sourceEventId))
      + Members(Optional("source_entity_id", d.sourceEntityId)) + Members(ContentMiddle(d))
      + Members(Maybe("collector", CollectorValue(d))) + Members(Maybe("target", TargetValue(d))) + Members(ContentTail(d))
  {
    hide Members, ContentHead, ContentMiddle, ContentTail, Optional, Maybe, CollectorValue, TargetValue;
    var h, m, t := ContentHead(d), ContentMiddle(d), ContentTail(d);
    var a, b := Optional("source_event_id", d.sourceEventId), Optional("source_entity_id", d.sourceEntityId);
    var c, g := Maybe("collector", CollectorValue(d)), Maybe("target", TargetValue(d));
    MembersConcat(h, a);
    MembersConcat(h + a, b);
    MembersConcat(h + a + b, m);
    MembersConcat(h + a + b + m, c);
    MembersConcat(h + a + b + m + c, g);
    MembersConcat(h + a + b + m + c + g, t);
  }

  /** Two records have the same content hash exactly if they agree on all content fields, unless the hash collides: the
      run's own instants and identifiers and the collector's version are all that does not count. */
  lemma ContentHashesTellApart(d: Draft, e: Draft)
    requires var v, w := ContentProjection(DraftFields(d)), ContentProjection(DraftFields(e));
      Projects(Dict(v)) && Projects(Dict(w)) && !Collides(CONTENT_DOMAIN, Dict(v), Dict(w))
    ensures ContentHashOf(ContentProjection(DraftFields(d))) == ContentHashOf(ContentProjection(DraftFields(e)))
      <==> SameContent(d, e)
  {
    hide Normal, ContentFields, DomainDigest, Collides, Projects, SameContent, CONTENT_DOMAIN, ContentProjection, DraftFields;
    ContentIs(d);
    ContentIs(e);
    ContentKeepsExactly(d, e);
    var v, w := Dict(ContentFields(d)), Dict(ContentFields(e));
    if DomainDigest(CONTENT_DOMAIN, v) == DomainDigest(CONTENT_DOMAIN, w) { EqualDigestsMeanAgreement(CONTENT_DOMAIN, v, w); }
    if Normal(v) == Normal(w) { SameProjectionSameKey(v, w); }
  }
}

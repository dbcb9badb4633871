/** The regular expressions of the wire grammar, and that the checks accept exactly what they match. */
module LogGrammar {
  import opened Common
  import opened JsonText
  import opened Utf8Order
  import opened Clock
  import opened Calendar
  import opened Canonical
  import opened LogEvents

  /** The character ranges of a bracket expression. */
  type Ranges = seq<(char, char)>

  datatype Pattern =
    | Literal(text: string)
    | One(ranges: Ranges)
    | Any(ranges: Ranges)
    | Then(first: Pattern, second: Pattern)
    | Either(left: Pattern, right: Pattern)
    | Star(group: Pattern)

  predicate In(c: char, ranges: Ranges) { exists i | 0 <= i < |ranges| :: ranges[i].0 <= c <= ranges[i].1 }

  predicate AllIn(s: string, ranges: Ranges) { forall i | 0 <= i < |s| :: In(s[i], ranges) }

  /** The whole string matches. */
  ghost predicate Matches(p: Pattern, s: string)
    decreases p, |s|
  {
    match p
    case Literal(text) => s == text
    case One(ranges) => |s| == 1 && In(s[0], ranges)
    case Any(ranges) => AllIn(s, ranges)
    case Then(first, second) => exists k | 0 <= k <= |s| :: Matches(first, s[..k]) && Matches(second, s[k..])
    case Either(left, right) => Matches(left, s) || Matches(right, s)
    case Star(group) => s == "" || exists k | 0 < k <= |s| :: Matches(group, s[..k]) && Matches(p, s[k..])
  }

  // ---- words with separators ----------------------------------------------------------------------------------------

  /** One character of a range, then any number of another. */
  function Word(first: Ranges, more: Ranges): Pattern { Then(One(first), Any(more)) }

  /** Characters of words, and separators each of which is followed by the first character of a word. */
  predicate Wordy(s: string, more: Ranges, separators: Ranges, first: Ranges) {
    forall i | 0 <= i < |s| ::
      In(s[i], more) || (In(s[i], separators) && i + 1 < |s| && In(s[i + 1], first))
  }

  function Separated(more: Ranges, separators: Ranges, first: Ranges): Pattern { Then(One(separators), Word(first, more)) }

  lemma ThenMatches(p: Pattern, q: Pattern, s: string, k: nat)
    requires k <= |s| && Matches(p, s[..k]) && Matches(q, s[k..])
    ensures Matches(Then(p, q), s)
  {
  }

  lemma WordMatches(first: Ranges, more: Ranges, s: string)
    ensures Matches(Word(first, more), s) <==> s != "" && In(s[0], first) && AllIn(s[1..], more)
  {
    hide In;
    if s != "" && In(s[0], first) && AllIn(s[1..], more) { ThenMatches(One(first), Any(more), s, 1); }
  }

  lemma SeparatedMatches(more: Ranges, separators: Ranges, first: Ranges, s: string)
    ensures Matches(Separated(more, separators, first), s) <==>
      |s| >= 2 && In(s[0], separators) && In(s[1], first) && AllIn(s[2..], more)
  {
    hide In, AllIn, Word;
    if |s| >= 1 {
      WordMatches(first, more, s[1..]);
      assert |s| >= 2 ==> s[1..][1..] == s[2..];
    }
    if |s| >= 1 && In(s[0], separators) && Matches(Word(first, more), s[1..]) {
      ThenMatches(One(separators), Word(first, more), s, 1);
    }
  }

  /** How many characters at the start are of a range. */
  function Span(s: string, ranges: Ranges): (k: nat)
    ensures k <= |s| && AllIn(s[..k], ranges) && (k < |s| ==> !In(s[k], ranges))
  {
    if s == "" || !In(s[0], ranges) then 0
    else
      assert s[..1 + Span(s[1..], ranges)] == [s[0]] + s[1..][..Span(s[1..], ranges)];
      1 + Span(s[1..], ranges)
  }

  lemma {:induction false} StarMatches(more: Ranges, separators: Ranges, first: Ranges, s: string)
    requires forall c :: In(c, first) ==> In(c, more)
    requires forall c :: In(c, separators) ==> !In(c, more)
    ensures Matches(Star(Separated(more, separators, first)), s) <==>
      s == "" || (In(s[0], separators) && Wordy(s, more, separators, first))
    decreases |s|
  {
    hide In, Separated;
    var group := Separated(more, separators, first);
    forall k | 0 < k <= |s| && Matches(group, s[..k]) && Matches(Star(group), s[k..])
      ensures In(s[0], separators) && Wordy(s, more, separators, first)
    {
      SeparatedMatches(more, separators, first, s[..k]);
      StarMatches(more, separators, first, s[k..]);
      GroupThenWordy(more, separators, first, s, k);
    }
    if s != "" && In(s[0], separators) && Wordy(s, more, separators, first) {
      assert In(s[1], more);
      var k := 1 + Span(s[1..], more);
      assert k >= 2;
      var t := s[k..];
      SeparatedMatches(more, separators, first, s[..k]);
      assert forall i | 0 <= i < k - 2 :: s[..k][2..][i] == s[1..][..k - 1][i + 1];
      WordySuffix(more, separators, first, s, k);
      StarMatches(more, separators, first, t);
    }
  }

  lemma GroupThenWordy(more: Ranges, separators: Ranges, first: Ranges, s: string, k: nat)
    requires 2 <= k <= |s| && In(s[0], separators) && In(s[1], first) && AllIn(s[..k][2..], more)
    requires forall c :: In(c, first) ==> In(c, more)
    requires Wordy(s[k..], more, separators, first)
    ensures Wordy(s, more, separators, first)
  {
    hide In;
    forall i | 0 <= i < |s|
      ensures In(s[i], more) || (In(s[i], separators) && i + 1 < |s| && In(s[i + 1], first))
    {
      if i >= k { assert s[i] == s[k..][i - k]; } else if i >= 2 { assert s[i] == s[..k][2..][i - 2]; }
    }
  }

  lemma WordySuffix(more: Ranges, separators: Ranges, first: Ranges, s: string, k: nat)
    requires k <= |s| && Wordy(s, more, separators, first)
    ensures Wordy(s[k..], more, separators, first)
  {
    hide In;
    forall i | 0 <= i < |s[k..]|
      ensures In(s[k..][i], more) || (In(s[k..][i], separators) && i + 1 < |s[k..]| && In(s[k..][i + 1], first))
    {
      assert s[k..][i] == s[k + i];
    }
  }

  /** Any number of word characters and then separated words: at least one, or any number, of them. */
  lemma TailMatches(more: Ranges, separators: Ranges, first: Ranges, s: string)
    requires forall c :: In(c, first) ==> In(c, more)
    requires forall c :: In(c, separators) ==> !In(c, more)
    ensures var group := Separated(more, separators, first);
      && (Matches(Then(Any(more), Star(group)), s) <==> Wordy(s, more, separators, first))
      && (Matches(Then(Any(more), Then(group, Star(group))), s) <==>
            Wordy(s, more, separators, first) && exists i | 0 <= i < |s| :: In(s[i], separators))
  {
    hide In, Separated, AllIn, Wordy;
    var group := Separated(more, separators, first);
    forall k | 0 <= k <= |s| && AllIn(s[..k], more)
      ensures Matches(Star(group), s[k..]) ==> Wordy(s, more, separators, first)
      ensures Matches(Then(group, Star(group)), s[k..]) ==>
        Wordy(s, more, separators, first) && exists i | 0 <= i < |s| :: In(s[i], separators)
    {
      StarMatches(more, separators, first, s[k..]);
      WordThenWordy(more, separators, first, s, k);
      PlusMatches(more, separators, first, s[k..]);
      EndIsWordy(more, separators, first, s[k..]);
      if s[k..] != "" { assert s[k..][0] == s[k]; }
    }
    if Wordy(s, more, separators, first) {
      var k := Span(s, more);
      WordySuffix(more, separators, first, s, k);
      StarMatches(more, separators, first, s[k..]);
      PlusMatches(more, separators, first, s[k..]);
      FirstStop(more, separators, first, s, k);
      ThenMatches(Any(more), Star(group), s, k);
      if exists i | 0 <= i < |s| :: In(s[i], separators) { ThenMatches(Any(more), Then(group, Star(group)), s, k); }
    }
  }

  lemma WordThenWordy(more: Ranges, separators: Ranges, first: Ranges, s: string, k: nat)
    requires k <= |s| && AllIn(s[..k], more)
    ensures Wordy(s[k..], more, separators, first) ==> Wordy(s, more, separators, first)
  {
    hide In;
    if Wordy(s[k..], more, separators, first) {
      forall i | 0 <= i < |s|
        ensures In(s[i], more) || (In(s[i], separators) && i + 1 < |s| && In(s[i + 1], first))
      {
        if i >= k { assert s[i] == s[k..][i - k]; } else { assert s[i] == s[..k][i]; }
      }
    }
  }

  lemma EndIsWordy(more: Ranges, separators: Ranges, first: Ranges, s: string)
    ensures s == "" ==> Wordy(s, more, separators, first)
  {
  }

  lemma PlusMatches(more: Ranges, separators: Ranges, first: Ranges, s: string)
    ensures var group := Separated(more, separators, first);
      Matches(Then(group, Star(group)), s) <==> s != "" && Matches(Star(group), s)
  {
    hide In, Separated, AllIn;
    SeparatedMatches(more, separators, first, "");
    assert s[..0] == "";
  }

  lemma FirstStop(more: Ranges, separators: Ranges, first: Ranges, s: string, k: nat)
    requires Wordy(s, more, separators, first) && k == Span(s, more)
    requires forall c :: In(c, separators) ==> !In(c, more)
    ensures k < |s| ==> In(s[k..][0], separators)
    ensures k == |s| ==> !exists i | 0 <= i < |s| :: In(s[i], separators)
  {
    hide In, Span;
    if k == |s| {
      forall i | 0 <= i < |s| ensures !In(s[i], separators) { assert s[..k][i] == s[i]; }
    }
  }

  // ---- machine names and error codes --------------------------------------------------------------------------------

  const LOWER: Ranges := [('a', 'z')]
  const LOWER_DIGITS: Ranges := [('a', 'z'), ('0', '9')]
  const UPPER: Ranges := [('A', 'Z')]
  const UPPER_DIGITS: Ranges := [('A', 'Z'), ('0', '9')]
  const LOWER_DIGITS_UNDERSCORE: Ranges := [('a', 'z'), ('0', '9'), ('_', '_')]
  const PUNCTUATION: Ranges := [('.', '.'), ('_', '_'), ('-', '-')]
  const UNDERSCORE: Ranges := [('_', '_')]
  const DOT: Ranges := [('.', '.')]

  /** `[a-z][a-z0-9]*(?:[._-][a-z0-9]+)*` */
  const MACHINE_NAME: Pattern :=
    Then(One(LOWER), Then(Any(LOWER_DIGITS), Star(Then(One(PUNCTUATION), Then(One(LOWER_DIGITS), Any(LOWER_DIGITS))))))

  /** `MH_[A-Z][A-Z0-9]*(?:_[A-Z0-9]+)*` */
  const UPPER_CODE: Pattern :=
    Then(Literal("MH_"), Then(One(UPPER),
      Then(Any(UPPER_DIGITS), Star(Then(One(UNDERSCORE), Then(One(UPPER_DIGITS), Any(UPPER_DIGITS)))))))

  /** `[a-z][a-z0-9_]*(?:\.[a-z][a-z0-9_]*)+` */
  const DOTTED_CODE: Pattern :=
    Then(One(LOWER), Then(Any(LOWER_DIGITS_UNDERSCORE),
      Then(Then(One(DOT), Then(One(LOWER), Any(LOWER_DIGITS_UNDERSCORE))),
        Star(Then(One(DOT), Then(One(LOWER), Any(LOWER_DIGITS_UNDERSCORE)))))))

  lemma InTwo(c: char, a: (char, char), b: (char, char))
    ensures In(c, [a]) <==> a.0 <= c <= a.1
    ensures In(c, [a, b]) <==> a.0 <= c <= a.1 || b.0 <= c <= b.1
  {
    assert [a][0] == a && [a, b][0] == a && [a, b][1] == b;
  }

  lemma InThree(c: char, a: (char, char), b: (char, char), d: (char, char))
    ensures In(c, [a, b, d]) <==> a.0 <= c <= a.1 || b.0 <= c <= b.1 || d.0 <= c <= d.1
  {
    assert [a, b, d][0] == a && [a, b, d][1] == b && [a, b, d][2] == d;
  }

  /** What the brackets of the grammar contain. */
  lemma Brackets(c: char)
    ensures In(c, LOWER) <==> 'a' <= c <= 'z'
    ensures In(c, UPPER) <==> 'A' <= c <= 'Z'
    ensures In(c, LOWER_DIGITS) <==> 'a' <= c <= 'z' || '0' <= c <= '9'
    ensures In(c, UPPER_DIGITS) <==> 'A' <= c <= 'Z' || '0' <= c <= '9'
    ensures In(c, LOWER_DIGITS_UNDERSCORE) <==> 'a' <= c <= 'z' || '0' <= c <= '9' || c == '_'
    ensures In(c, PUNCTUATION) <==> c == '.' || c == '_' || c == '-'
    ensures In(c, UNDERSCORE) <==> c == '_'
    ensures In(c, DOT) <==> c == '.'
  {
    hide In;
    InTwo(c, ('a', 'z'), ('0', '9'));
    InTwo(c, ('A', 'Z'), ('0', '9'));
    InTwo(c, ('_', '_'), ('_', '_'));
    InTwo(c, ('.', '.'), ('.', '.'));
    InThree(c, ('a', 'z'), ('0', '9'), ('_', '_'));
    InThree(c, ('.', '.'), ('_', '_'), ('-', '-'));
  }

  lemma AllBrackets()
    ensures forall c ::
      && (In(c, LOWER) <==> 'a' <= c <= 'z') && (In(c, UPPER) <==> 'A' <= c <= 'Z')
      && (In(c, LOWER_DIGITS) <==> 'a' <= c <= 'z' || '0' <= c <= '9')
      && (In(c, UPPER_DIGITS) <==> 'A' <= c <= 'Z' || '0' <= c <= '9')
      && (In(c, LOWER_DIGITS_UNDERSCORE) <==> 'a' <= c <= 'z' || '0' <= c <= '9' || c == '_')
      && (In(c, PUNCTUATION) <==> c == '.' || c == '_' || c == '-')
      && (In(c, UNDERSCORE) <==> c == '_') && (In(c, DOT) <==> c == '.')
  {
    hide In;
    forall c
      ensures (In(c, LOWER) <==> 'a' <= c <= 'z') && (In(c, UPPER) <==> 'A' <= c <= 'Z')
      ensures In(c, LOWER_DIGITS) <==> 'a' <= c <= 'z' || '0' <= c <= '9'
      ensures In(c, UPPER_DIGITS) <==> 'A' <= c <= 'Z' || '0' <= c <= '9'
      ensures In(c, LOWER_DIGITS_UNDERSCORE) <==> 'a' <= c <= 'z' || '0' <= c <= '9' || c == '_'
      ensures In(c, PUNCTUATION) <==> c == '.' || c == '_' || c == '-'
      ensures (In(c, UNDERSCORE) <==> c == '_') && (In(c, DOT) <==> c == '.')
    {
      Brackets(c);
    }
  }

  lemma FirstThen(ranges: Ranges, p: Pattern, s: string)
    ensures Matches(Then(One(ranges), p), s) <==> s != "" && In(s[0], ranges) && Matches(p, s[1..])
  {
    hide In;
    if s != "" && In(s[0], ranges) && Matches(p, s[1..]) { ThenMatches(One(ranges), p, s, 1); }
  }

  lemma LiteralThen(text: string, p: Pattern, s: string)
    ensures Matches(Then(Literal(text), p), s) <==> text <= s && Matches(p, s[|text|..])
  {
    if text <= s && Matches(p, s[|text|..]) { ThenMatches(Literal(text), p, s, |text|); }
  }

  /** A machine name is a bounded string that its pattern matches. */
  lemma MachineNamesExactly(s: string, maximum: nat)
    ensures IsMachineName(s, maximum) <==> |s| <= maximum && Matches(MACHINE_NAME, s)
  {
    hide In, Matches;
    var group := Separated(LOWER_DIGITS, PUNCTUATION, LOWER_DIGITS);
    AllBrackets();
    FirstThen(LOWER, Then(Any(LOWER_DIGITS), Star(group)), s);
    if s != "" { TailMatches(LOWER_DIGITS, PUNCTUATION, LOWER_DIGITS, s[1..]); }
    assert s != "" ==> forall i | 1 <= i < |s| :: s[i] == s[1..][i - 1];
  }

  /** An error code is a string of at most 128 characters that one of the two patterns matches. */
  lemma ErrorCodesExactly(s: string)
    ensures IsErrorCode(s) <==> |s| <= 128 && Matches(Either(UPPER_CODE, DOTTED_CODE), s)
  {
    hide IsUpperCode, IsDottedCode, UPPER_CODE, DOTTED_CODE;
    UpperCodesExactly(s);
    DottedCodesExactly(s);
    assert Matches(Either(UPPER_CODE, DOTTED_CODE), s) <==> Matches(UPPER_CODE, s) || Matches(DOTTED_CODE, s);
  }

  lemma UpperCodesExactly(s: string)
    ensures s != "" && IsUpperCode(s) <==> Matches(UPPER_CODE, s)
  {
    hide In, Matches;
    var group := Separated(UPPER_DIGITS, UNDERSCORE, UPPER_DIGITS);
    var tail := Then(Any(UPPER_DIGITS), Star(group));
    AllBrackets();
    LiteralThen("MH_", Then(One(UPPER), tail), s);
    if "MH_" <= s {
      FirstThen(UPPER, tail, s[3..]);
      if |s| > 3 {
        TailMatches(UPPER_DIGITS, UNDERSCORE, UPPER_DIGITS, s[3..][1..]);
        assert s[3..][1..] == s[4..];
        assert forall i | 4 <= i < |s| :: s[i] == s[4..][i - 4];
      }
    }
  }

  lemma DottedCodesExactly(s: string)
    ensures s != "" && IsDottedCode(s) <==> Matches(DOTTED_CODE, s)
  {
    hide In, Matches;
    var group := Separated(LOWER_DIGITS_UNDERSCORE, DOT, LOWER);
    AllBrackets();
    FirstThen(LOWER, Then(Any(LOWER_DIGITS_UNDERSCORE), Then(group, Star(group))), s);
    if s != "" {
      TailMatches(LOWER_DIGITS_UNDERSCORE, DOT, LOWER, s[1..]);
      assert forall i | 1 <= i < |s| :: s[i] == s[1..][i - 1];
    }
  }

  // ---- fingerprints -------------------------------------------------------------------------------------------------

  /** `mh_fp1_e`, one to ten digits without a leading zero, `_`, a kind of one to 32 characters, `_` and 52 base32 symbols. */
  ghost predicate FingerprintParts(s: string, epoch: string, kind: string, digest: string) {
    && s == "mh_fp1_e" + epoch + "_" + kind + "_" + digest
    && 1 <= |epoch| <= 10 && epoch[0] != '0' && (forall i | 0 <= i < |epoch| :: '0' <= epoch[i] <= '9')
    && 1 <= |kind| <= 32 && 'a' <= kind[0] <= 'z'
    && (forall i | 0 <= i < |kind| ::
         'a' <= kind[i] <= 'z' || '0' <= kind[i] <= '9' || kind[i] == '_' || kind[i] == '-')
    && |digest| == 52 && forall i | 0 <= i < |digest| :: 'a' <= digest[i] <= 'z' || '2' <= digest[i] <= '7'
  }

  /** A fingerprint has a kind exactly when it is made of such parts, and then it is that part. */
  lemma FingerprintsExactly(s: string, kind: string)
    ensures FingerprintKind(s) == Some(kind) <==> exists epoch, digest :: FingerprintParts(s, epoch, kind, digest)
  {
    if FingerprintKind(s) == Some(kind) { FingerprintSplits(s, kind); }
    forall epoch, digest | FingerprintParts(s, epoch, kind, digest) ensures FingerprintKind(s) == Some(kind) {
      FingerprintJoins(s, epoch, kind, digest);
    }
  }

  lemma FingerprintSplits(s: string, kind: string)
    requires FingerprintKind(s) == Some(kind)
    ensures exists epoch, digest :: FingerprintParts(s, epoch, kind, digest)
  {
    hide IndexOf;
    var n := IndexOf(s[8..], '_');
    IndexOfLands(s[8..], '_');
    var end := |s| - 53;
    var epoch, digest := s[8..8 + n], s[end + 1..];
    assert s[8 + n] == '_' && s[end] == '_';
    assert s == s[..8] + epoch + [s[8 + n]] + s[8 + n + 1..end] + [s[end]] + digest;
    assert FingerprintParts(s, epoch, kind, digest);
  }

  lemma FingerprintJoins(s: string, epoch: string, kind: string, digest: string)
    requires FingerprintParts(s, epoch, kind, digest)
    ensures FingerprintKind(s) == Some(kind)
  {
    hide IndexOf;
    var n := |epoch|;
    assert s[8..] == epoch + "_" + kind + "_" + digest;
    assert s[8..][n] == '_' && forall i | 0 <= i < n :: s[8..][i] == epoch[i];
    FirstAt(s[8..], n);
    assert s[..8] == "mh_fp1_e" && s[8..8 + n] == epoch && s[8] == epoch[0];
    var start, end := 8 + n + 1, |s| - 53;
    assert end == start + |kind| && s[start..end] == kind && s[end] == '_';
    assert forall i | start <= i < end :: s[i] == kind[i - start];
    assert forall i | end < i < |s| :: s[i] == digest[i - end - 1];
  }

  lemma FirstAt(s: string, n: nat)
    requires n < |s| && s[n] == '_' && forall i | 0 <= i < n :: s[i] != '_'
    ensures IndexOf(s, '_') == n
  {
  }

  // ---- valid events -------------------------------------------------------------------------------------------------

  /** The value fits the kind: a boolean flag, a finite gauge, whole only within 64 bits, and otherwise a 63-bit count. */
  ghost predicate Fits(kind: Kind, value: MetricValue) {
    match value
    case FlagValue(_) => kind == FLAG
    case IntValue(n) =>
      kind != FLAG && (if kind == GAUGE then -9_223_372_036_854_775_808 else 0) <= n <= 9_223_372_036_854_775_807
    case FloatValue(f) =>
      && kind == GAUGE && f != NonFinite
      && (f.Integral? ==> -9_223_372_036_854_775_808 <= f.n <= 9_223_372_036_854_775_807)
  }

  ghost predicate Named(s: string, maximum: nat) { |s| <= maximum && Matches(MACHINE_NAME, s) }

  /** An event is valid exactly when its instant is before the year 10000, its name and those of its at most 32 metrics
      match within their bounds, the metrics' names rise and their values fit, and its error code and fingerprint match. */
  lemma ValidEventsExactly(e: Event)
    ensures e.Valid() <==>
      && e.ts < 315_537_897_600_000 && Named(e.name, 128) && |e.metrics| <= 32
      && (forall m <- e.metrics :: Named(m.name, 64) && Fits(m.kind, m.value))
      && (forall i | 0 < i < |e.metrics| :: Before(e.metrics[i - 1].name, e.metrics[i].name))
      && (e.error.Some? ==> |e.error.value| <= 128 && Matches(Either(UPPER_CODE, DOTTED_CODE), e.error.value))
      && (e.fingerprint.Some? ==>
            exists epoch, kind, digest :: FingerprintParts(e.fingerprint.value, epoch, kind, digest))
  {
    hide InRange, IsMachineName, Matches, Before, IsErrorCode, FingerprintKind, FingerprintParts, ValueAllowed, Fits;
    hide MACHINE_NAME, UPPER_CODE, DOTTED_CODE;
    RangeEnds(e.ts);
    MachineNamesExactly(e.name, 128);
    forall m <- e.metrics ensures MetricValid(m) <==> Named(m.name, 64) && Fits(m.kind, m.value) {
      MachineNamesExactly(m.name, 64);
      FitsExactly(m.kind, m.value);
    }
    if e.error.Some? { ErrorCodesExactly(e.error.value); }
    if e.fingerprint.Some? { HasKind(e.fingerprint.value); }
  }

  lemma FitsExactly(kind: Kind, value: MetricValue)
    ensures ValueAllowed(kind, value) <==> Fits(kind, value)
  {
  }

  lemma HasKind(s: string)
    ensures FingerprintKind(s).Some? <==> exists epoch, kind, digest :: FingerprintParts(s, epoch, kind, digest)
  {
    hide FingerprintKind, FingerprintParts;
    if FingerprintKind(s).Some? { FingerprintsExactly(s, FingerprintKind(s).value); }
    forall epoch, kind, digest | FingerprintParts(s, epoch, kind, digest) ensures FingerprintKind(s).Some? {
      FingerprintsExactly(s, kind);
    }
  }
}

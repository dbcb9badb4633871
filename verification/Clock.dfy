/** UTC instants in whole milliseconds since 0001-01-01T00:00:00Z and their canonical text. */
module Clock {
  import opened Common
  import opened Decimals

  type Instant = nat

  const DAY: nat := 86_400_000

  predicate Leap(year: nat) { year % 4 == 0 && (year % 100 != 0 || year % 400 == 0) }

  function DaysInYear(year: nat): nat { if Leap(year) then 366 else 365 }

  function DaysInMonth(year: nat, month: nat): nat {
    if month == 2 then (if Leap(year) then 29 else 28)
    else if month in {4, 6, 9, 11} then 30 else 31
  }

  datatype YearDay = YearDay(year: nat, day: nat)
  datatype MonthDay = MonthDay(month: nat, day: nat)

  /** The year `n` days after the first of January of `year`, and the day within it. */
  function SplitYear(n: nat, year: nat): (r: YearDay)
    ensures r.year >= year && r.day < DaysInYear(r.year)
    decreases n
  {
    if n < DaysInYear(year) then YearDay(year, n) else SplitYear(n - DaysInYear(year), year + 1)
  }

  function SplitMonth(n: nat, year: nat, month: nat): (r: MonthDay)
    requires 1 <= month <= 12 && n < DaysFromMonth(year, month)
    ensures month <= r.month <= 12 && r.day < DaysInMonth(year, r.month)
    decreases 12 - month
  {
    if n < DaysInMonth(year, month) then MonthDay(month, n)
    else SplitMonth(n - DaysInMonth(year, month), year, month + 1)
  }

  function DaysFromMonth(year: nat, month: nat): nat
    decreases 13 - month
  {
    if month > 12 then 0 else DaysInMonth(year, month) + DaysFromMonth(year, month + 1)
  }

  lemma YearLength(year: nat)
    ensures DaysFromMonth(year, 1) == DaysInYear(year)
  {
    assert DaysFromMonth(year, 7) == 184;
  }

  /** Days from the first of January of `from` to the first of January of `year`. */
  function YearsAsDays(from: nat, year: nat): nat
    decreases year - from
  {
    if year <= from then 0 else DaysInYear(from) + YearsAsDays(from + 1, year)
  }

  function MonthsAsDays(year: nat, from: nat, month: nat): nat
    decreases month - from
  {
    if month <= from then 0 else DaysInMonth(year, from) + MonthsAsDays(year, from + 1, month)
  }

  lemma {:induction false} JoinYear(n: nat, year: nat)
    ensures var r := SplitYear(n, year); YearsAsDays(year, r.year) + r.day == n
    decreases n
  {
    if n >= DaysInYear(year) { JoinYear(n - DaysInYear(year), year + 1); }
  }

  lemma {:induction false} JoinMonth(n: nat, year: nat, month: nat)
    requires 1 <= month <= 12 && n < DaysFromMonth(year, month)
    ensures var r := SplitMonth(n, year, month); MonthsAsDays(year, month, r.month) + r.day == n
    decreases 12 - month
  {
    if n >= DaysInMonth(year, month) { JoinMonth(n - DaysInMonth(year, month), year, month + 1); }
  }

  datatype Civil = Civil(year: nat, month: nat, day: nat, hour: nat, minute: nat, second: nat, milli: nat) {
    predicate Valid() {
      && 1 <= year <= 9999 && 1 <= month <= 12 && 1 <= day <= DaysInMonth(year, month)
      && hour < 24 && minute < 60 && second < 60 && milli < 1000
    }
  }

  function ToCivil(t: Instant): Civil {
    var yd := SplitYear(t / DAY, 1);
    YearLength(yd.year);
    var md := SplitMonth(yd.day, yd.year, 1);
    var ms := t % DAY;
    Civil(yd.year, md.month, md.day + 1, ms / 3_600_000, ms / 60_000 % 60, ms / 1_000 % 60, ms % 1_000)
  }

  function FromCivil(c: Civil): Instant
    requires c.Valid()
  {
    (YearsAsDays(1, c.year) + MonthsAsDays(c.year, 1, c.month) + c.day - 1) * DAY
    + c.hour * 3_600_000 + c.minute * 60_000 + c.second * 1_000 + c.milli
  }

  /** The instants `datetime` can hold: years 1 through 9999. */
  predicate InRange(t: Instant) { SplitYear(t / DAY, 1).year <= 9999 }

  lemma CivilRoundTrip(t: Instant)
    requires InRange(t)
    ensures ToCivil(t).Valid() && FromCivil(ToCivil(t)) == t
  {
    var n := t / DAY;
    JoinYear(n, 1);
    var yd := SplitYear(n, 1);
    YearLength(yd.year);
    JoinMonth(yd.day, yd.year, 1);
    TimeOfDay(t % DAY);
  }

  lemma TimeOfDay(ms: nat)
    requires ms < DAY
    ensures ms / 3_600_000 < 24
    ensures ms == ms / 3_600_000 * 3_600_000 + ms / 60_000 % 60 * 60_000 + ms / 1_000 % 60 * 1_000 + ms % 1_000
  {
  }

  lemma {:induction false} SplitJoined(year: nat, last: nat, day: nat)
    requires year <= last && day < DaysInYear(last)
    ensures SplitYear(YearsAsDays(year, last) + day, year) == YearDay(last, day)
    decreases last - year
  {
    if year < last { SplitJoined(year + 1, last, day); }
  }

  lemma {:induction false} MonthsBound(year: nat, from: nat, month: nat)
    requires 1 <= from <= month <= 12
    ensures MonthsAsDays(year, from, month) + DaysFromMonth(year, month) == DaysFromMonth(year, from)
    decreases month - from
  {
    if from < month { MonthsBound(year, from + 1, month); }
  }

  lemma FromCivilInRange(c: Civil)
    requires c.Valid()
    ensures InRange(FromCivil(c))
  {
    var day := MonthsAsDays(c.year, 1, c.month) + c.day - 1;
    MonthsBound(c.year, 1, c.month);
    YearLength(c.year);
    SplitJoined(1, c.year, day);
    assert FromCivil(c) / DAY == YearsAsDays(1, c.year) + day;
  }

  /** `format_timestamp`: RFC 3339 UTC with milliseconds. */
  function FormatTimestamp(t: Instant): string {
    var c := ToCivil(t);
    Pad(c.year, 4) + "-" + Pad(c.month, 2) + "-" + Pad(c.day, 2) + "T"
    + Pad(c.hour, 2) + ":" + Pad(c.minute, 2) + ":" + Pad(c.second, 2) + "." + Pad(c.milli, 3) + "Z"
  }

  function ParseTimestamp(s: string): Option<Instant> {
    if |s| != 24 || s[4] != '-' || s[7] != '-' || s[10] != 'T' || s[13] != ':' || s[16] != ':' || s[19] != '.'
       || s[23] != 'Z'
    then None
    else if !(AllDigits(s[0..4]) && AllDigits(s[5..7]) && AllDigits(s[8..10]) && AllDigits(s[11..13])
              && AllDigits(s[14..16]) && AllDigits(s[17..19]) && AllDigits(s[20..23]))
    then None
    else
      var c := Civil(Value(s[0..4]), Value(s[5..7]), Value(s[8..10]), Value(s[11..13]), Value(s[14..16]),
                     Value(s[17..19]), Value(s[20..23]));
      if c.Valid() then Some(FromCivil(c)) else None
  }

  lemma FormatShape(c: Civil, s: string)
    requires s == Pad(c.year, 4) + "-" + Pad(c.month, 2) + "-" + Pad(c.day, 2) + "T"
             + Pad(c.hour, 2) + ":" + Pad(c.minute, 2) + ":" + Pad(c.second, 2) + "." + Pad(c.milli, 3) + "Z"
    ensures |s| == 24 && s[4] == '-' && s[7] == '-' && s[10] == 'T' && s[13] == ':' && s[16] == ':' && s[19] == '.'
    ensures s[23] == 'Z'
    ensures s[0..4] == Pad(c.year, 4) && s[5..7] == Pad(c.month, 2) && s[8..10] == Pad(c.day, 2)
    ensures s[11..13] == Pad(c.hour, 2) && s[14..16] == Pad(c.minute, 2) && s[17..19] == Pad(c.second, 2)
    ensures s[20..23] == Pad(c.milli, 3)
  {
    hide Pad;
    var date := Pad(c.year, 4) + "-" + Pad(c.month, 2) + "-" + Pad(c.day, 2) + "T";
    var time := Pad(c.hour, 2) + ":" + Pad(c.minute, 2) + ":" + Pad(c.second, 2) + "." + Pad(c.milli, 3) + "Z";
    assert s == date + time;
    assert forall i, j | 0 <= i <= j <= |time| :: s[|date| + i..|date| + j] == time[i..j];
    assert time[0..2] == Pad(c.hour, 2) && time[3..5] == Pad(c.minute, 2) && time[6..8] == Pad(c.second, 2);
    assert time[9..12] == Pad(c.milli, 3);
  }

  /** Every in-range instant is read back from its text. */
  lemma ParseFormat(t: Instant)
    requires InRange(t)
    ensures ParseTimestamp(FormatTimestamp(t)) == Some(t)
  {
    hide Pad, Value, FromCivil, ToCivil, DaysInMonth;
    var c := ToCivil(t);
    CivilRoundTrip(t);
    FormatShape(c, FormatTimestamp(t));
    CivilBounds(c);
    ValueOfPad(c.year, 4); ValueOfPad(c.month, 2); ValueOfPad(c.day, 2);
    ValueOfPad(c.hour, 2); ValueOfPad(c.minute, 2); ValueOfPad(c.second, 2); ValueOfPad(c.milli, 3);
  }

  /** A parsed timestamp is an instant `datetime` can hold. */
  lemma ParsedInRange(s: string)
    ensures ParseTimestamp(s).Some? ==> InRange(ParseTimestamp(s).value)
  {
    hide FromCivil, InRange, Value;
    if ParseTimestamp(s).Some? {
      FromCivilInRange(Civil(Value(s[0..4]), Value(s[5..7]), Value(s[8..10]), Value(s[11..13]), Value(s[14..16]),
                             Value(s[17..19]), Value(s[20..23])));
    }
  }

  lemma CivilBounds(c: Civil)
    requires c.Valid()
    ensures c.year < Pow10(4) && c.month < Pow10(2) && c.day < Pow10(2) && c.hour < Pow10(2)
    ensures c.minute < Pow10(2) && c.second < Pow10(2) && c.milli < Pow10(3)
  {
    assert Pow10(2) == 100;
    assert Pow10(4) == 100 * Pow10(2);
  }

  lemma FormatLength(t: Instant)
    ensures |FormatTimestamp(t)| == 24
    ensures forall i | 0 <= i < 24 :: var ch := FormatTimestamp(t)[i]; IsDigit(ch) || ch in "-T:.Z"
  {
    FormatShape(ToCivil(t), FormatTimestamp(t));
  }

  lemma FormatInjective(a: Instant, b: Instant)
    requires InRange(a) && InRange(b) && FormatTimestamp(a) == FormatTimestamp(b)
    ensures a == b
  {
    ParseFormat(a);
    ParseFormat(b);
  }

  /** The UTC calendar day, `datetime.date()`. */
  function Date(t: Instant): nat { t / DAY }
}

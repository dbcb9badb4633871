/** The Gregorian calendar, said without the functions that count by it. */
module Calendar {
  import opened Decimals
  import opened Clock

  /** A year that four divides, but no century that 400 does not. */
  predicate Intercalary(year: int) { year % 4 == 0 && !(year % 100 == 0 && year % 400 != 0) }

  /** The days before the first of January of `year`, counted from that of year 1. */
  function DaysBefore(year: int): int
    requires year >= 1
  {
    365 * (year - 1) + (year - 1) / 4 - (year - 1) / 100 + (year - 1) / 400
  }

  lemma OneYearMore(year: int)
    requires year >= 1
    ensures DaysBefore(year + 1) == DaysBefore(year) + if Intercalary(year) then 366 else 365
  {
    Quotient(year, 4);
    Quotient(year, 100);
    Quotient(year, 400);
    Divides(year, 4, 25);
    Divides(year, 100, 4);
    hide DaysBefore;
    DaysBeforeNext(year);
  }

  lemma DaysBeforeNext(year: int)
    requires year >= 1
    ensures DaysBefore(year) == 365 * (year - 1) + (year - 1) / 4 - (year - 1) / 100 + (year - 1) / 400
    ensures DaysBefore(year + 1) == 365 * year + year / 4 - year / 100 + year / 400
  {
  }

  /** What a product divides, its factors divide. */
  lemma Divides(n: int, k: int, m: int)
    requires k >= 1 && m >= 1
    ensures n % (k * m) == 0 ==> n % k == 0
  {
    if n % (k * m) == 0 {
      var q := n / (k * m);
      assert n == k * m * q == k * (m * q);
      DivideBy(n, k, m * q, 0);
    }
  }

  lemma Quotient(n: int, k: int)
    requires n >= 1 && k >= 2
    ensures n / k == (n - 1) / k + if n % k == 0 then 1 else 0
  {
    var q, r := n / k, n % k;
    assert n == k * q + r;
    if r == 0 { DivideBy(n - 1, k, q - 1, k - 1); } else { DivideBy(n - 1, k, q, r - 1); }
  }

  lemma DivideBy(n: int, k: int, q: int, r: int)
    requires k > 0 && n == k * q + r && 0 <= r < k
    ensures n / k == q
  {
    var d := n / k - q;
    assert k * d == r - n % k;
    assert d >= 1 ==> k * d >= k;
    assert d <= -1 ==> k * d <= -k;
  }

  lemma {:induction false} YearsCounted(year: nat)
    requires year >= 1
    ensures YearsAsDays(1, year) == DaysBefore(year)
  {
    if year > 1 {
      YearsCounted(year - 1);
      LastYear(1, year);
      OneYearMore(year - 1);
    }
  }

  lemma {:induction false} LastYear(from: nat, year: nat)
    requires from < year
    ensures YearsAsDays(from, year) == YearsAsDays(from, year - 1) + if Intercalary(year - 1) then 366 else 365
    decreases year - from
  {
    if from + 1 < year { LastYear(from + 1, year); }
  }

  /** The days of a common year before each month. */
  const BEFORE_MONTH: seq<nat> := [0, 31, 59, 90, 120, 151, 181, 212, 243, 273, 304, 334]

  lemma MonthsCounted(year: nat, month: nat)
    requires 1 <= month <= 12
    ensures MonthsAsDays(year, 1, month) == BEFORE_MONTH[month - 1] + if month > 2 && Intercalary(year) then 1 else 0
  {
    hide MonthsAsDays;
    UnfoldMonths(year, 1, month);
    UnfoldMonths(year, 2, month);
    UnfoldMonths(year, 3, month);
    UnfoldMonths(year, 4, month);
    UnfoldMonths(year, 5, month);
    UnfoldMonths(year, 6, month);
    UnfoldMonths(year, 7, month);
    UnfoldMonths(year, 8, month);
    UnfoldMonths(year, 9, month);
    UnfoldMonths(year, 10, month);
    UnfoldMonths(year, 11, month);
    UnfoldMonths(year, 12, month);
  }

  lemma UnfoldMonths(year: nat, from: nat, month: nat)
    ensures MonthsAsDays(year, from, month) ==
      if month <= from then 0 else DaysInMonth(year, from) + MonthsAsDays(year, from + 1, month)
  {
  }

  /** The instant of a civil time: by the year's and the month's length as the calendar has them. */
  lemma InstantOf(c: Civil)
    requires c.Valid()
    ensures FromCivil(c) ==
      (DaysBefore(c.year) + BEFORE_MONTH[c.month - 1] + (if c.month > 2 && Intercalary(c.year) then 1 else 0) + c.day - 1)
        * 86_400_000
      + c.hour * 3_600_000 + c.minute * 60_000 + c.second * 1_000 + c.milli
  {
    hide YearsAsDays, MonthsAsDays;
    YearsCounted(c.year);
    MonthsCounted(c.year, c.month);
  }

  lemma {:induction false} DaysGrow(year: int, last: int)
    requires 1 <= year <= last
    ensures DaysBefore(year) <= DaysBefore(last)
    decreases last - year
  {
    hide DaysBefore, Intercalary;
    if year < last {
      OneYearMore(last - 1);
      DaysGrow(year, last - 1);
    }
  }

  lemma SameLeap(year: nat)
    ensures Intercalary(year) <==> Leap(year)
  {
  }

  lemma LastDay()
    ensures DaysBefore(10_000) == 3_652_059
  {
  }

  lemma WholeDays(t: Instant, days: nat)
    ensures t / DAY < days <==> t < days * DAY
  {
    assert t == t / DAY * DAY + t % DAY;
  }

  /** The range ends with the year 9999. */
  lemma RangeEnds(t: Instant)
    ensures InRange(t) <==> t < 315_537_897_600_000
  {
    hide SplitYear, YearsAsDays, Intercalary, DaysBefore, Leap;
    var r := SplitYear(t / DAY, 1);
    JoinYear(t / DAY, 1);
    YearsCounted(r.year);
    OneYearMore(r.year);
    SameLeap(r.year);
    LastDay();
    WholeDays(t, 3_652_059);
    if r.year <= 9999 { DaysGrow(r.year + 1, 10_000); } else { DaysGrow(10_000, r.year); }
  }

  /** A civil time is valid exactly within its month. */
  lemma ValidDays(c: Civil)
    ensures c.Valid() <==>
      && 1 <= c.year <= 9999 && 1 <= c.month <= 12 && c.hour < 24 && c.minute < 60 && c.second < 60 && c.milli < 1000
      && 1 <= c.day
      && c.day <= if c.month == 2 then (if Intercalary(c.year) then 29 else 28)
                  else if c.month == 4 || c.month == 6 || c.month == 9 || c.month == 11 then 30 else 31
  {
  }

  /** Two instants lie on the same UTC day exactly if their timestamps have the same date. */
  lemma SameDaySameDate(t: Instant, u: Instant)
    requires InRange(t) && InRange(u)
    ensures t / 86_400_000 == u / 86_400_000 <==> FormatTimestamp(t)[..10] == FormatTimestamp(u)[..10]
  {
    hide SplitYear, SplitMonth, Pad, YearsAsDays, MonthsAsDays, FromCivil;
    CivilRoundTrip(t);
    CivilRoundTrip(u);
    var c, d := ToCivil(t), ToCivil(u);
    DateText(t);
    DateText(u);
    if FormatTimestamp(t)[..10] == FormatTimestamp(u)[..10] {
      SameDateText(c, d);
      DayOf(c);
      DayOf(d);
    }
  }

  /** The first ten characters of a timestamp. */
  function DateOf(c: Civil): string { Pad(c.year, 4) + "-" + Pad(c.month, 2) + "-" + Pad(c.day, 2) }

  lemma DateText(t: Instant)
    ensures FormatTimestamp(t)[..10] == DateOf(ToCivil(t))
  {
    hide Pad, ToCivil;
  }

  lemma SameDateText(c: Civil, d: Civil)
    requires c.Valid() && d.Valid() && DateOf(c) == DateOf(d)
    ensures c.year == d.year && c.month == d.month && c.day == d.day
  {
    hide Pad;
    var s, t := DateOf(c), DateOf(d);
    assert s[..4] == Pad(c.year, 4) && s[5..7] == Pad(c.month, 2) && s[8..10] == Pad(c.day, 2);
    assert t[..4] == Pad(d.year, 4) && t[5..7] == Pad(d.month, 2) && t[8..10] == Pad(d.day, 2);
    Powers();
    ValueOfPad(c.year, 4);
    ValueOfPad(d.year, 4);
    ValueOfPad(c.month, 2);
    ValueOfPad(d.month, 2);
    ValueOfPad(c.day, 2);
    ValueOfPad(d.day, 2);
  }

  lemma Powers()
    ensures Pow10(2) == 100 && Pow10(4) == 10_000
  {
    assert Pow10(1) == 10 && Pow10(2) == 100 && Pow10(3) == 1_000;
  }

  /** The day of an instant is decided by its date. */
  lemma DayOf(c: Civil)
    requires c.Valid()
    ensures FromCivil(c) / 86_400_000 == YearsAsDays(1, c.year) + MonthsAsDays(c.year, 1, c.month) + c.day - 1
  {
    hide YearsAsDays, MonthsAsDays;
    var rest := c.hour * 3_600_000 + c.minute * 60_000 + c.second * 1_000 + c.milli;
    assert 0 <= rest < 86_400_000;
    DivideBy(FromCivil(c), 86_400_000, YearsAsDays(1, c.year) + MonthsAsDays(c.year, 1, c.month) + c.day - 1, rest);
  }
}

/** The proleptic Gregorian calendar, instants, and the order of the two. */
module Calendar {

  /** A UTC date and time of day without leap seconds. */
  datatype Civil = Civil(year: nat, month: nat, day: nat, hour: nat, minute: nat, second: nat, nano: nat)

  predicate IsLeap(y: nat) { y % 4 == 0 && (y % 100 != 0 || y % 400 == 0) }

  function DaysInMonth(y: nat, m: nat): (d: nat)
    ensures 28 <= d <= 31
  {
    if m == 2 then (if IsLeap(y) then 29 else 28)
    else if m == 4 || m == 6 || m == 9 || m == 11 then 30
    else 31
  }

  function DaysInYear(y: nat): nat { if IsLeap(y) then 366 else 365 }

  function DaysBeforeYear(y: nat): (d: nat)
    ensures d >= 365 * y
  {
    if y == 0 then 0 else DaysBeforeYear(y - 1) + DaysInYear(y - 1)
  }

  function DaysBeforeMonth(y: nat, m: nat): nat {
    if m <= 1 then 0 else DaysBeforeMonth(y, m - 1) + DaysInMonth(y, m - 1)
  }

  predicate ValidDate(y: nat, m: nat, d: nat) { 1 <= m <= 12 && 1 <= d <= DaysInMonth(y, m) }

  /** Four-digit years, as every timestamp in the tables has. */
  predicate ValidCivil(c: Civil) {
    && c.year < YEARS && ValidDate(c.year, c.month, c.day)
    && c.hour < 24 && c.minute < 60 && c.second < 60 && c.nano < 1_000_000_000
  }

  function DayNumber(y: nat, m: nat, d: nat): nat
    requires d >= 1
  {
    DaysBeforeYear(y) + DaysBeforeMonth(y, m) + d - 1
  }

  function SecondOfDay(c: Civil): nat { 3600 * c.hour + 60 * c.minute + c.second }

  /** Nanoseconds since the start of year 0. */
  function ToInstant(c: Civil): nat
    requires ValidCivil(c)
  {
    (DayNumber(c.year, c.month, c.day) * 86_400 + SecondOfDay(c)) * 1_000_000_000 + c.nano
  }

  /** Field-by-field comparison, most significant first. */
  predicate Before(a: Civil, b: Civil) {
    a.year < b.year || (a.year == b.year && (
    a.month < b.month || (a.month == b.month && (
    a.day < b.day || (a.day == b.day && (
    a.hour < b.hour || (a.hour == b.hour && (
    a.minute < b.minute || (a.minute == b.minute && (
    a.second < b.second || (a.second == b.second && a.nano < b.nano)))))))))))
  }

  lemma {:induction false} YearsGrow(y: nat, z: nat)
    requires y < z
    ensures DaysBeforeYear(y) + DaysInYear(y) <= DaysBeforeYear(z)
    decreases z
  {
    if y < z - 1 { YearsGrow(y, z - 1); }
  }

  lemma {:induction false} MonthsGrow(y: nat, m: nat, n: nat)
    requires 1 <= m < n
    ensures DaysBeforeMonth(y, m) + DaysInMonth(y, m) <= DaysBeforeMonth(y, n)
    decreases n
  {
    if m < n - 1 { MonthsGrow(y, m, n - 1); }
  }

  const MONTH_STARTS: seq<nat> := [0, 31, 59, 90, 120, 151, 181, 212, 243, 273, 304, 334, 365]

  /** Where the months begin in a common year; from March on a leap year is a day later. */
  lemma MonthStarts(y: nat, m: nat)
    requires 1 <= m <= 13
    ensures DaysBeforeMonth(y, m) == MONTH_STARTS[m - 1] + if IsLeap(y) && m > 2 then 1 else 0
  {
    if m > 1 { MonthStarts(y, m - 1); }
  }

  lemma MonthsFillYear(y: nat)
    ensures DaysBeforeMonth(y, 13) == DaysInYear(y)
  {
    MonthStarts(y, 13);
  }

  lemma FourYears(y: nat)
    requires y % 4 == 0
    ensures DaysBeforeYear(y + 4) == DaysBeforeYear(y) + 1460 + if IsLeap(y) then 1 else 0
  {
    assert DaysBeforeYear(y + 4) == DaysBeforeYear(y + 3) + DaysInYear(y + 3);
    assert DaysBeforeYear(y + 3) == DaysBeforeYear(y + 2) + DaysInYear(y + 2);
    assert DaysBeforeYear(y + 2) == DaysBeforeYear(y + 1) + DaysInYear(y + 1);
  }

  lemma Remainders(q: nat, r: nat)
    ensures r < 4 ==> (4 * q + r) % 4 == r
    ensures r < 100 ==> (100 * q + r) % 100 == r
    ensures r < 400 ==> (400 * q + r) % 400 == r
  {
  }

  lemma LeapInCentury(c: nat, k: nat)
    requires k < 25
    ensures (100 * c + 4 * k) % 4 == 0
    ensures IsLeap(100 * c + 4 * k) <==> k > 0 || c % 4 == 0
  {
    var y, q, r := 100 * c + 4 * k, c / 4, c % 4;
    Remainders(25 * c + k, 0);
    Remainders(c, 4 * k);
    Remainders(q, 100 * r + 4 * k);
    assert c == 4 * q + r;
    assert y == 4 * (25 * c + k) + 0 && y == 400 * q + (100 * r + 4 * k);
  }

  lemma LeapAgain(y: nat)
    ensures IsLeap(y + 400) == IsLeap(y)
  {
    var q, r := y / 400, y % 400;
    assert y == 400 * q + r && y + 400 == 400 * (q + 1) + r;
    Remainders(q + 1, r);
    SmallerRemainders(q, r);
    SmallerRemainders(q + 1, r);
  }

  lemma SmallerRemainders(q: nat, r: nat)
    requires r < 400
    ensures (400 * q + r) % 4 == r % 4 && (400 * q + r) % 100 == r % 100
  {
    Remainders(100 * q + r / 4, r % 4);
    Remainders(4 * q + r / 100, r % 100);
    assert 400 * q + r == 4 * (100 * q + r / 4) + r % 4;
    assert 400 * q + r == 100 * (4 * q + r / 100) + r % 100;
  }

  /** Within a century every fourth year is a leap year, but for the first. */
  lemma {:induction false} InCentury(c: nat, k: nat)
    requires k <= 25
    ensures DaysBeforeYear(100 * c + 4 * k)
            == DaysBeforeYear(100 * c) + 1461 * k - if k > 0 && c % 4 != 0 then 1 else 0
  {
    hide DaysBeforeYear, IsLeap;
    if k > 0 {
      InCentury(c, k - 1);
      LeapInCentury(c, k - 1);
      FourYears(100 * c + 4 * (k - 1));
      assert 100 * c + 4 * (k - 1) + 4 == 100 * c + 4 * k;
    }
  }

  lemma {:induction false} Century(c: nat)
    ensures DaysBeforeYear(100 * (c + 1)) == DaysBeforeYear(100 * c) + 36_524 + if c % 4 == 0 then 1 else 0
  {
    InCentury(c, 25);
    assert 100 * c + 4 * 25 == 100 * (c + 1);
  }

  /** The calendar repeats after 400 years of 146097 days. */
  lemma {:induction false} GregorianCycle(y: nat)
    ensures DaysBeforeYear(y + 400) == DaysBeforeYear(y) + 146_097
  {
    hide IsLeap;
    if y == 0 {
      Century(0);
      Century(1);
      Century(2);
      Century(3);
    } else {
      GregorianCycle(y - 1);
      LeapAgain(y - 1);
      assert DaysBeforeYear(y + 400) == DaysBeforeYear(y + 399) + DaysInYear(y + 399);
    }
  }

  lemma DayInYear(y: nat, m: nat, d: nat)
    requires ValidDate(y, m, d)
    ensures DaysBeforeMonth(y, m) + d <= DaysInYear(y)
  {
    MonthsGrow(y, m, 13);
    MonthsFillYear(y);
  }

  lemma DateOrder(a: Civil, b: Civil)
    requires ValidCivil(a) && ValidCivil(b)
    requires a.year < b.year || (a.year == b.year && (a.month < b.month || (a.month == b.month && a.day < b.day)))
    ensures DayNumber(a.year, a.month, a.day) < DayNumber(b.year, b.month, b.day)
  {
    if a.year < b.year {
      DayInYear(a.year, a.month, a.day);
      YearsGrow(a.year, b.year);
    } else if a.month < b.month {
      MonthsGrow(a.year, a.month, b.month);
    }
  }

  lemma BeforeIsEarlier(a: Civil, b: Civil)
    requires ValidCivil(a) && ValidCivil(b) && Before(a, b)
    ensures ToInstant(a) < ToInstant(b)
  {
    var p, q := DayNumber(a.year, a.month, a.day), DayNumber(b.year, b.month, b.day);
    if a.year != b.year || a.month != b.month || a.day != b.day {
      DateOrder(a, b);
      assert p < q;
    }
  }

  /** Field order is chronological order. */
  lemma FieldOrder(a: Civil, b: Civil)
    requires ValidCivil(a) && ValidCivil(b)
    ensures Before(a, b) <==> ToInstant(a) < ToInstant(b)
  {
    if Before(a, b) {
      BeforeIsEarlier(a, b);
    } else if a != b {
      BeforeIsEarlier(b, a);
    }
  }

  const YEARS: nat := 10_000
  const END: nat := DaysBeforeYear(YEARS) * 86_400 * 1_000_000_000

  /** The instants whose year has four digits. */
  type Instant = t: nat | t < END

  function YearFrom(day: nat, y: nat): (r: nat)
    requires DaysBeforeYear(y) <= day
    ensures DaysBeforeYear(r) <= day < DaysBeforeYear(r + 1)
    decreases day - DaysBeforeYear(y)
  {
    if day < DaysBeforeYear(y + 1) then y else YearFrom(day, y + 1)
  }

  function MonthFrom(y: nat, day: nat, m: nat): (r: nat)
    requires 1 <= m <= 12 && DaysBeforeMonth(y, m) <= day < DaysBeforeMonth(y, 13)
    ensures 1 <= r <= 12 && DaysBeforeMonth(y, r) <= day < DaysBeforeMonth(y, r + 1)
    decreases 12 - m
  {
    if day < DaysBeforeMonth(y, m + 1) then m else MonthFrom(y, day, m + 1)
  }

  lemma YearFits(y: nat, day: nat)
    requires DaysBeforeYear(y) <= day < DaysBeforeYear(YEARS)
    ensures y < YEARS
  {
    YearsGrow(YEARS, if y <= YEARS then YEARS + 1 else y);
  }

  function DateOf(day: nat): (r: (nat, nat, nat))
    requires day < DaysBeforeYear(YEARS)
    ensures r.0 < YEARS && ValidDate(r.0, r.1, r.2) && DayNumber(r.0, r.1, r.2) == day
  {
    var year := YearFrom(day, 0);
    YearFits(year, day);
    var dayOfYear := day - DaysBeforeYear(year);
    MonthsFillYear(year);
    var month := MonthFrom(year, dayOfYear, 1);
    (year, month, dayOfYear - DaysBeforeMonth(year, month) + 1)
  }

  lemma TimeOfDay(rest: nat)
    requires rest < 86_400
    ensures rest / 3600 < 24 && rest % 3600 / 60 < 60 && rest % 60 < 60
    ensures rest == 3600 * (rest / 3600) + 60 * (rest % 3600 / 60) + rest % 60
  {
  }

  /** The date and time of an instant. */
  function ToCivil(t: Instant): (c: Civil)
    ensures ValidCivil(c) && ToInstant(c) == t
  {
    var second, nano := t / 1_000_000_000, t % 1_000_000_000;
    var day, rest := second / 86_400, second % 86_400;
    TimeOfDay(rest);
    var (year, month, dayOfMonth) := DateOf(day);
    Civil(year, month, dayOfMonth, rest / 3600, rest % 3600 / 60, rest % 60, nano)
  }
}

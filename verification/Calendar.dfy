/** The UTC calendar behind `Date.UTC` and the `getUTC*` accessors: sections 21.4.1 and 21.4.3.4 of
    ECMA-262, for instants from 1970 on.  Time values are milliseconds since the epoch. */
module Calendar {

  const MS_PER_DAY := 86_400_000

  function Day(t: int): int {
    t / MS_PER_DAY
  }

  function TimeWithinDay(t: int): int {
    t % MS_PER_DAY
  }

  /** Sunday is 0; the epoch was a Thursday. */
  function WeekDay(t: int): int {
    (Day(t) + 4) % 7
  }

  predicate Leap(y: int) {
    y % 4 == 0 && (y % 100 != 0 || y % 400 == 0)
  }

  function DaysInYear(y: int): int {
    if Leap(y) then 366 else 365
  }

  function DayFromYear(y: int): int {
    365 * (y - 1970) + (y - 1969) / 4 - (y - 1901) / 100 + (y - 1601) / 400
  }

  lemma QuotientIs(n: int, d: int, q: int, r: int)
    requires d > 0 && n == q * d + r && 0 <= r < d
    ensures n / d == q && n % d == r
  {
    var p, s := n / d, n % d;
    assert n == p * d + s;
    SameQuotient(p, q, d, s, r);
  }

  lemma SameQuotient(p: int, q: int, d: int, s: int, r: int)
    requires d > 0 && p * d + s == q * d + r && 0 <= s < d && 0 <= r < d
    ensures p == q && s == r
  {
    if p > q { Above(p, q, d); }
    if p < q { Above(q, p, d); }
  }

  lemma Above(p: int, q: int, d: int)
    requires d > 0 && p > q
    ensures p * d >= q * d + d
  {
    assert (p - q - 1) * d >= 0;
    assert (p - q - 1) * d == p * d - q * d - d;
  }

  lemma QuotientStep(n: int, d: int)
    requires d > 0
    ensures (n + 1) / d == n / d + (if (n + 1) % d == 0 then 1 else 0)
  {
    var q, r := n / d, n % d;
    assert n == q * d + r;
    if r + 1 < d {
      QuotientIs(n + 1, d, q, r + 1);
    } else {
      assert (q + 1) * d == q * d + d;
      QuotientIs(n + 1, d, q + 1, 0);
    }
  }

  lemma CenturyDivides(y: int)
    ensures y % 400 == 0 ==> y % 100 == 0
    ensures y % 100 == 0 ==> y % 4 == 0
  {}

  /** The first day of each year follows the last day of the year before. */
  lemma YearLength(y: int)
    ensures DayFromYear(y + 1) == DayFromYear(y) + DaysInYear(y)
  {
    QuotientStep(y - 1969, 4);
    QuotientStep(y - 1901, 100);
    QuotientStep(y - 1601, 400);
    CenturyDivides(y);
    LeapTerms(y);
  }

  lemma LeapTerms(y: int)
    ensures (y - 1968) % 4 == 0 <==> y % 4 == 0
    ensures (y - 1900) % 100 == 0 <==> y % 100 == 0
    ensures (y - 1600) % 400 == 0 <==> y % 400 == 0
  {}

  /** The year a day belongs to, searched upwards from a year that does not start after it. */
  function YearFrom(day: int, y: int): (r: int)
    requires DayFromYear(y) <= day
    ensures DayFromYear(r) <= day < DayFromYear(r + 1)
    decreases day - DayFromYear(y)
  {
    YearLength(y);
    if day < DayFromYear(y + 1) then y else YearFrom(day, y + 1)
  }

  function YearFromDay(day: int): (r: int)
    requires day >= 0
    ensures DayFromYear(r) <= day < DayFromYear(r + 1)
  {
    YearFrom(day, 1970)
  }

  lemma {:induction false} YearsAscend(y: int, z: int)
    requires y < z
    ensures DayFromYear(y + 1) <= DayFromYear(z)
    decreases z - y
  {
    if y + 1 < z {
      YearLength(z - 1);
      YearsAscend(y, z - 1);
    }
  }

  /** A day lies in one year only. */
  lemma YearUnique(day: int, y: int)
    requires day >= 0 && DayFromYear(y) <= day < DayFromYear(y + 1)
    ensures YearFromDay(day) == y
  {
    var r := YearFromDay(day);
    if r < y { YearsAscend(r, y); }
    if y < r { YearsAscend(y, r); }
  }

  /** Days of the year before the first of month m (0 is January); 12 stands for the whole year. */
  function DaysBefore(m: int, leap: bool): int
    requires 0 <= m <= 12
  {
    var common := [0, 31, 59, 90, 120, 151, 181, 212, 243, 273, 304, 334, 365];
    common[m] + (if leap && m >= 2 then 1 else 0)
  }

  function DayWithinYear(day: int): (d: int)
    requires day >= 0
    ensures 0 <= d < DaysInYear(YearFromDay(day))
  {
    YearLength(YearFromDay(day));
    day - DayFromYear(YearFromDay(day))
  }

  function MonthOf(d: int, leap: bool, m: int): (r: int)
    requires 0 <= m <= 11 && DaysBefore(m, leap) <= d < DaysBefore(12, leap)
    ensures m <= r <= 11 && DaysBefore(r, leap) <= d < DaysBefore(r + 1, leap)
    decreases 12 - m
  {
    if d < DaysBefore(m + 1, leap) then m else MonthOf(d, leap, m + 1)
  }

  function MonthFromDay(day: int): (m: int)
    requires day >= 0
    ensures 0 <= m <= 11
  {
    MonthOf(DayWithinYear(day), Leap(YearFromDay(day)), 0)
  }

  function DateFromDay(day: int): (date: int)
    requires day >= 0
    ensures 1 <= date
  {
    DayWithinYear(day) - DaysBefore(MonthFromDay(day), Leap(YearFromDay(day))) + 1
  }

  /** MakeDay with a month in range: the first of that month, moved by date - 1 days. */
  function MakeDay(year: int, month: int, date: int): int
    requires 0 <= month <= 11
  {
    DayFromYear(year) + DaysBefore(month, Leap(year)) + date - 1
  }

  /** Date.UTC without a time of day; years 0 to 99, which mean 1900 to 1999, do not arise here. */
  function UTC(year: int, month: int, date: int): int
    requires 0 <= month <= 11
  {
    MakeDay(year, month, date) * MS_PER_DAY
  }

  lemma {:induction false} MonthUnique(d: int, leap: bool, from: int, m: int)
    requires 0 <= from <= m <= 11 && DaysBefore(m, leap) <= d < DaysBefore(m + 1, leap)
    requires DaysBefore(from, leap) <= d < DaysBefore(12, leap)
    ensures MonthOf(d, leap, from) == m
    decreases m - from
  {
    if from < m {
      MonthUnique(d, leap, from + 1, m);
    }
  }

  /** MakeDay of the first of a month is a day of that year and month with date 1, as the standard
      asks of it. */
  lemma MakeDayFindsMonth(year: int, month: int)
    requires year >= 1970 && 0 <= month <= 11
    ensures MakeDay(year, month, 1) >= 0
    ensures YearFromDay(MakeDay(year, month, 1)) == year
    ensures MonthFromDay(MakeDay(year, month, 1)) == month
    ensures DateFromDay(MakeDay(year, month, 1)) == 1
  {
    var day, leap := MakeDay(year, month, 1), Leap(year);
    YearLength(year);
    if year > 1970 { YearsAscend(1969, year); }
    YearUnique(day, year);
    MonthUnique(day - DayFromYear(year), leap, 0, month);
  }

  /** The epoch is the first of January 1970, and four centuries have 146097 days. */
  lemma Epoch(y: int)
    ensures MakeDay(1970, 0, 1) == 0
    ensures DayFromYear(y + 400) == DayFromYear(y) + 146_097
  {
    QuotientIs(y - 1569, 4, (y - 1969) / 4 + 100, (y - 1969) % 4);
    QuotientIs(y - 1501, 100, (y - 1901) / 100 + 4, (y - 1901) % 100);
    QuotientIs(y - 1201, 400, (y - 1601) / 400 + 1, (y - 1601) % 400);
  }

  /** How long each month is. */
  lemma MonthLength(year: int, month: int)
    requires 0 <= month <= 11
    ensures DaysBefore(month + 1, Leap(year)) - DaysBefore(month, Leap(year))
         == if month in {3, 5, 8, 10} then 30
            else if month == 1 then (if year % 4 == 0 && (year % 100 != 0 || year % 400 == 0) then 29 else 28)
            else 31
  {}

  /** Taking a day apart and putting it together again, moved by any number of days. */
  lemma RoundTrip(day: int, shift: int)
    requires day >= 0
    ensures MakeDay(YearFromDay(day), MonthFromDay(day), DateFromDay(day) + shift) == day + shift
  {}
}

/** The weekly settlement windows of the worker: Saturday to Saturday at a fixed offset of three hours. */
module WeeklyWindows {
  import opened Calendar

  const CAIRO_OFFSET := 3 * 60 * 60 * 1_000
  const WEEK := 7 * MS_PER_DAY

  datatype Bounds = Bounds(periodStart: int, periodEnd: int, dueAt: int)

  /** Midnight of the Saturday on or before an instant of the offset clock. */
  function StartCairo(cairo: int): int
    requires cairo >= 0
  {
    var daysSinceSaturday := (WeekDay(cairo) + 1) % 7;
    UTC(YearFromDay(Day(cairo)), MonthFromDay(Day(cairo)), DateFromDay(Day(cairo)) - daysSinceSaturday)
  }

  function WeeklyBounds(now: int, graceDays: int): Bounds
    requires now >= 0
  {
    var periodStart := StartCairo(now + CAIRO_OFFSET) - CAIRO_OFFSET;
    var periodEnd := periodStart + 7 * MS_PER_DAY;
    Bounds(periodStart, periodEnd, periodEnd + graceDays * MS_PER_DAY)
  }

  /** The first instant of the k-th week; week 0 contains the epoch. */
  function WeekStart(k: int): int {
    (7 * k - 5) * MS_PER_DAY - CAIRO_OFFSET
  }

  lemma SaturdayBefore(day: int)
    ensures day - ((day + 4) % 7 + 1) % 7 == 7 * ((day + 5) / 7) - 5
  {}

  lemma WeekOfDay(u: int, day: int, k: int)
    requires day == u / MS_PER_DAY && k == (day + 5) / 7
    ensures WeekStart(k) <= u - CAIRO_OFFSET < WeekStart(k + 1)
  {}

  lemma WeekFacts(k: int)
    ensures WeekStart(k + 1) == WeekStart(k) + WEEK
    ensures WeekDay(WeekStart(k) + CAIRO_OFFSET) == 6
    ensures TimeWithinDay(WeekStart(k) + CAIRO_OFFSET) == 0
  {
    QuotientIs(WeekStart(k) + CAIRO_OFFSET, MS_PER_DAY, 7 * k - 5, 0);
  }

  lemma StartCairoIs(cairo: int)
    requires cairo >= 0
    ensures StartCairo(cairo) == (Day(cairo) - (WeekDay(cairo) + 1) % 7) * MS_PER_DAY
  {
    RoundTrip(Day(cairo), -((WeekDay(cairo) + 1) % 7));
  }

  lemma SaturdayIsWeekStart(cairo: int)
    ensures (Day(cairo) - (WeekDay(cairo) + 1) % 7) * MS_PER_DAY == WeekStart((Day(cairo) + 5) / 7) + CAIRO_OFFSET
  {
    SaturdayBefore(Day(cairo));
  }

  lemma StartOfWeek(cairo: int)
    requires cairo >= 0
    ensures StartCairo(cairo) == WeekStart((Day(cairo) + 5) / 7) + CAIRO_OFFSET
  {
    StartCairoIs(cairo);
    SaturdayIsWeekStart(cairo);
  }

  /** Every window is one of the weeks that start at Saturday midnight of the offset clock. */
  lemma WindowIsWeek(now: int, graceDays: int) returns (k: int)
    requires now >= 0
    ensures WeeklyBounds(now, graceDays).periodStart == WeekStart(k)
    ensures WeeklyBounds(now, graceDays).periodEnd == WeekStart(k) + WEEK
    ensures WeekStart(k) <= now < WeekStart(k) + WEEK
  {
    k := (Day(now + CAIRO_OFFSET) + 5) / 7;
    StartOfWeek(now + CAIRO_OFFSET);
    WeekOfDay(now + CAIRO_OFFSET, Day(now + CAIRO_OFFSET), k);
    WeekFacts(k);
  }

  lemma WeeksAscend(k: int, m: int)
    requires k < m
    ensures WeekStart(k) + WEEK <= WeekStart(m)
  {}

  /** A window holds its instant, lasts seven days and starts on a Saturday at 00:00 of the offset clock. */
  lemma WindowHoldsNow(now: int, graceDays: int)
    requires now >= 0
    ensures var w := WeeklyBounds(now, graceDays);
            w.periodStart <= now < w.periodEnd && w.periodEnd == w.periodStart + WEEK &&
            WeekDay(w.periodStart + CAIRO_OFFSET) == 6 && TimeWithinDay(w.periodStart + CAIRO_OFFSET) == 0
  {
    var k := WindowIsWeek(now, graceDays);
    WeekFacts(k);
  }

  /** In milliseconds: the Saturday is the third day of 1970 and every seventh from it, its midnight is three hours
      behind that of UTC, and the week and the grace period are whole days. */
  lemma SaturdayStart(now: int, graceDays: int)
    requires now >= 0
    ensures var w := WeeklyBounds(now, graceDays);
            (w.periodStart + 10_800_000) % 604_800_000 == 172_800_000 &&
            w.periodEnd == w.periodStart + 604_800_000 && w.dueAt == w.periodEnd + graceDays * 86_400_000
  {
    var k := WindowIsWeek(now, graceDays);
    QuotientIs(WeekStart(k) + 10_800_000, 604_800_000, k - 1, 172_800_000);
  }

  /** Two instants have the same window exactly when each lies in the window of the other; otherwise
      their windows do not meet.  The grace period plays no part. */
  lemma WindowsPartitionTime(t: int, u: int, g: int, h: int)
    requires t >= 0 && u >= 0
    ensures var v, w := WeeklyBounds(t, g), WeeklyBounds(u, h);
            if v.periodStart <= u < v.periodEnd
            then v.periodStart == w.periodStart && v.periodEnd == w.periodEnd
            else v.periodEnd <= w.periodStart || w.periodEnd <= v.periodStart
  {
    var k := WindowIsWeek(t, g);
    var m := WindowIsWeek(u, h);
    if k < m { WeeksAscend(k, m); }
    if m < k { WeeksAscend(m, k); }
  }

  /** The instant a window ends at is the start of the next window: no gap, no overlap. */
  lemma WindowsAreContiguous(now: int, g: int, h: int)
    requires now >= 0
    ensures WeeklyBounds(now, g).periodEnd >= 0
    ensures WeeklyBounds(WeeklyBounds(now, g).periodEnd, h).periodStart == WeeklyBounds(now, g).periodEnd
  {
    var k := WindowIsWeek(now, g);
    WeekFacts(k);
    var m := WindowIsWeek(WeeklyBounds(now, g).periodEnd, h);
    if k + 1 < m { WeeksAscend(k + 1, m); }
    if m < k + 1 { WeeksAscend(m, k + 1); }
  }

  /** Settlements fall due at a midnight of the offset clock, the grace period after their window ends. */
  lemma DueAtMidnight(now: int, graceDays: int)
    requires now >= 0
    ensures var w := WeeklyBounds(now, graceDays);
            TimeWithinDay(w.dueAt + CAIRO_OFFSET) == 0 &&
            Day(w.dueAt + CAIRO_OFFSET) == Day(w.periodEnd + CAIRO_OFFSET) + graceDays
  {
    var k := WindowIsWeek(now, graceDays);
    QuotientIs(WeekStart(k) + WEEK + CAIRO_OFFSET, MS_PER_DAY, 7 * k + 2, 0);
    QuotientIs(WeekStart(k) + WEEK + CAIRO_OFFSET + graceDays * MS_PER_DAY, MS_PER_DAY, 7 * k + 2 + graceDays, 0);
  }
}

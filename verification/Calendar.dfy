/** The proleptic Gregorian calendar in UTC, as the Go time package computes with it.

    An instant counts nanoseconds and a day number counts days, both from 0000-01-01T00:00:00Z. Months are
    numbered through: month `m` of year `y`, with `m` from 1, has number `12 * y + m - 1`. */
module Calendar {
  type Instant = int

  const NANOS_PER_HOUR: int := 3_600_000_000_000
  const NANOS_PER_DAY: int := 86_400_000_000_000

  function DayOf(t: Instant): int {
    t / NANOS_PER_DAY
  }

  function Midnight(day: int): Instant {
    day * NANOS_PER_DAY
  }

  function HourOf(t: Instant): (h: int)
    ensures 0 <= h < 24
  {
    (t % NANOS_PER_DAY) / NANOS_PER_HOUR
  }

  /** Sunday is 0, as in Go; 0000-01-01 was a Saturday. */
  function Weekday(day: int): int {
    (day + 6) % 7
  }

  // ----- Months and years -----

  predicate Leap(y: int) {
    y % 4 == 0 && (y % 100 != 0 || y % 400 == 0)
  }

  function DaysInMonth(y: int, m: int): (n: int)
    requires 1 <= m <= 12
    ensures 28 <= n <= 31
  {
    if m == 2 then (if Leap(y) then 29 else 28)
    else if m == 4 || m == 6 || m == 9 || m == 11 then 30
    else 31
  }

  function MonthLength(k: int): (n: int)
    ensures 28 <= n <= 31
  {
    DaysInMonth(k / 12, k % 12 + 1)
  }

  /** First day of month number `k`. */
  function MonthStart(k: int): int
    decreases if k < 0 then -k else k
  {
    if k == 0 then 0
    else if k > 0 then MonthStart(k - 1) + MonthLength(k - 1)
    else MonthStart(k + 1) - MonthLength(k)
  }

  lemma MonthStartNext(k: int)
    ensures MonthStart(k + 1) == MonthStart(k) + MonthLength(k)
  {
  }

  lemma {:induction false} MonthsOrdered(j: int, k: int)
    requires j < k
    ensures MonthStart(j) + 28 * (k - j) <= MonthStart(k)
    decreases k - j
  {
    MonthStartNext(k - 1);
    if j < k - 1 {
      MonthsOrdered(j, k - 1);
    }
  }

  /** Every day belongs to some month. */
  lemma {:induction false} MonthExists(day: int, k: int) returns (r: int)
    ensures MonthStart(r) <= day < MonthStart(r + 1)
    decreases day < MonthStart(k), if day < MonthStart(k) then MonthStart(k) - day else day - MonthStart(k)
  {
    MonthStartNext(k);
    MonthStartNext(k - 1);
    if day < MonthStart(k) {
      r := MonthExists(day, k - 1);
    } else if MonthStart(k + 1) <= day {
      r := MonthExists(day, k + 1);
    } else {
      r := k;
    }
  }

  /** Number of the month that contains `day`. */
  ghost function MonthOf(day: int): (k: int)
    ensures MonthStart(k) <= day < MonthStart(k + 1)
  {
    assert exists k :: MonthStart(k) <= day < MonthStart(k + 1) by {
      var k := MonthExists(day, 0);
    }
    var k :| MonthStart(k) <= day < MonthStart(k + 1);
    k
  }

  /** A day belongs to one month only. */
  lemma MonthUnique(day: int, k: int)
    requires MonthStart(k) <= day < MonthStart(k + 1)
    ensures MonthOf(day) == k
  {
    var r := MonthOf(day);
    if r < k {
      MonthsOrdered(r, k);
      if r + 1 < k { MonthsOrdered(r + 1, k); }
    } else if k < r {
      MonthsOrdered(k, r);
      if k + 1 < r { MonthsOrdered(k + 1, r); }
    }
  }

  datatype Date = Date(year: int, month: int, day: int)

  /** The calendar date of a day number. */
  ghost function DateOf(day: int): (d: Date)
    ensures 1 <= d.month <= 12 && 1 <= d.day <= 31
  {
    MonthStartNext(MonthOf(day));
    var k := MonthOf(day);
    Date(k / 12, k % 12 + 1, day - MonthStart(k) + 1)
  }

  /** Day number of a date. */
  function DayNumber(d: Date): int {
    MonthStart(12 * d.year + d.month - 1) + d.day - 1
  }

  predicate ValidDate(d: Date) {
    1 <= d.month <= 12 && 1 <= d.day <= DaysInMonth(d.year, d.month)
  }

  /** Days have dates, and a date determines its day. */
  lemma DateRoundTrip(day: int)
    ensures ValidDate(DateOf(day)) && DayNumber(DateOf(day)) == day
  {
    MonthStartNext(MonthOf(day));
  }

  /** Every date of the calendar is the date of its day. */
  lemma DayRoundTrip(d: Date)
    requires ValidDate(d)
    ensures DateOf(DayNumber(d)) == d
  {
    var k := 12 * d.year + d.month - 1;
    assert k / 12 == d.year && k % 12 == d.month - 1;
    MonthStartNext(k);
    MonthUnique(DayNumber(d), k);
  }

  function YearStart(y: int): int {
    MonthStart(12 * y)
  }

  function YearLength(y: int): int {
    if Leap(y) then 366 else 365
  }

  lemma MonthStep(y: int, i: int)
    requires 0 <= i < 12
    ensures MonthStart(12 * y + i + 1) == MonthStart(12 * y + i) + DaysInMonth(y, i + 1)
  {
    var k := 12 * y + i;
    assert k / 12 == y && k % 12 == i;
    MonthStartNext(k);
  }

  lemma QuarterLength(y: int, i: int)
    requires 0 <= i <= 9
    ensures MonthStart(12 * y + i + 3) ==
            MonthStart(12 * y + i) + DaysInMonth(y, i + 1) + DaysInMonth(y, i + 2) + DaysInMonth(y, i + 3)
  {
    MonthStep(y, i);
    MonthStep(y, i + 1);
    MonthStep(y, i + 2);
  }

  /** Twelve months make a year. */
  lemma YearStartNext(y: int)
    ensures YearStart(y + 1) == YearStart(y) + YearLength(y)
  {
    QuarterLength(y, 0);
    QuarterLength(y, 3);
    QuarterLength(y, 6);
    QuarterLength(y, 9);
  }

  lemma MonthWithinYear(k: int, y: int)
    requires 12 * y <= k < 12 * (y + 1)
    ensures YearStart(y) <= MonthStart(k) && MonthStart(k + 1) <= YearStart(y + 1)
  {
    if 12 * y < k { MonthsOrdered(12 * y, k); }
    if k + 1 < 12 * (y + 1) { MonthsOrdered(k + 1, 12 * (y + 1)); }
  }

  lemma MonthInYear(day: int, k: int)
    requires MonthStart(k) <= day < MonthStart(k + 1)
    ensures YearStart(k / 12) <= day < YearStart(k / 12 + 1)
  {
    MonthWithinYear(k, k / 12);
  }

  lemma YearBounds(day: int)
    ensures var y := DateOf(day).year; YearStart(y) <= day < YearStart(y + 1)
  {
    MonthInYear(day, MonthOf(day));
  }

  lemma YearUnique(day: int, y: int)
    requires YearStart(y) <= day < YearStart(y + 1)
    ensures DateOf(day).year == y
  {
    YearBounds(day);
    var z := DateOf(day).year;
    if y < z {
      if y + 1 < z { MonthsOrdered(12 * (y + 1), 12 * z); }
    } else if z < y {
      if z + 1 < y { MonthsOrdered(12 * (z + 1), 12 * y); }
    }
  }

  /** Leap years from year 0 to before year `y`. */
  function LeapYearsBefore(y: int): int {
    (y + 3) / 4 - (y + 99) / 100 + (y + 399) / 400
  }

  /** Rounding `y` up to a multiple of `n` moves on exactly at multiples of `n`. */
  lemma RoundUpStep(y: int, n: int)
    requires 1 < n
    ensures (y + n) / n == (y + n - 1) / n + if y % n == 0 then 1 else 0
  {
    var q, r := y / n, y % n;
    assert y == n * q + r;
    if r == 0 {
      QuotientIs(y + n, n, q + 1, 0);
      QuotientIs(y + n - 1, n, q, n - 1);
    } else {
      QuotientIs(y + n, n, q + 1, r);
      QuotientIs(y + n - 1, n, q + 1, r - 1);
    }
  }

  lemma QuotientIs(x: int, n: int, q: int, r: int)
    requires 0 < n && 0 <= r < n && x == n * q + r
    ensures x / n == q
  {
    var d := x / n;
    assert n * d <= x < n * d + n;
    if d < q {
      ProductMonotone(n, d + 1, q);
    } else if q < d {
      ProductMonotone(n, q + 1, d);
    }
  }

  lemma ProductMonotone(n: int, a: int, b: int)
    requires 0 < n && a <= b
    ensures n * a <= n * b
  {
  }

  /** A century year is a multiple of four, and every fourth century of four centuries. */
  lemma Centuries(y: int)
    ensures y % 100 == 0 ==> y % 4 == 0
    ensures y % 400 == 0 ==> y % 100 == 0
  {
  }

  lemma LeapYearsStep(y: int)
    ensures LeapYearsBefore(y + 1) == LeapYearsBefore(y) + (if Leap(y) then 1 else 0)
  {
    RoundUpStep(y, 4);
    RoundUpStep(y, 100);
    RoundUpStep(y, 400);
    Centuries(y);
  }

  /** The month lengths add up to the usual closed form. */
  lemma {:induction false} YearStartClosed(y: int)
    requires 0 <= y
    ensures YearStart(y) == 365 * y + LeapYearsBefore(y)
  {
    if 0 < y {
      var z := y - 1;
      YearStartClosed(z);
      YearStartNext(z);
      LeapYearsStep(z);
    }
  }

  // ----- Instants within days -----

  lemma DayUnique(t: Instant, day: int)
    requires Midnight(day) <= t < Midnight(day + 1)
    ensures DayOf(t) == day
  {
  }

  lemma DayBounds(t: Instant)
    ensures Midnight(DayOf(t)) <= t < Midnight(DayOf(t) + 1)
    ensures var h := HourOf(t);
            Midnight(DayOf(t)) + h * NANOS_PER_HOUR <= t < Midnight(DayOf(t)) + (h + 1) * NANOS_PER_HOUR
  {
  }

  lemma DayWithin(t: Instant, from: int, to: int)
    requires Midnight(from) <= t < Midnight(to)
    ensures from <= DayOf(t) < to
  {
  }
}

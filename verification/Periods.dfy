/** Billing windows: period strings and the window that contains an instant. */
module Periods {
  import opened Options
  import opened Calendar
  import opened Numbers

  // ----- Period strings -----

  datatype Period = Monthly | Weekly | Daily | Days(n: int) | Hours(n: int)

  datatype PeriodError = DayDurationOutOfRange(n: int) | HourDurationOutOfRange(n: int) | Unsupported(period: string)

  /** White space as Unicode defines it for Go's strings.TrimSpace. */
  predicate IsSpace(c: char) {
    || '\t' <= c <= '\r' || c == ' ' || c == '\U{85}' || c == '\U{A0}' || c == '\U{1680}'
    || '\U{2000}' <= c <= '\U{200A}' || c == '\U{2028}' || c == '\U{2029}' || c == '\U{202F}'
    || c == '\U{205F}' || c == '\U{3000}'
  }

  function TrimSpace(s: string): string {
    if s == [] then s
    else if IsSpace(s[0]) then TrimSpace(s[1..])
    else if IsSpace(s[|s| - 1]) then TrimSpace(s[..|s| - 1])
    else s
  }

  predicate IsDigit(c: char) {
    '0' <= c <= '9'
  }

  predicate AllDigits(s: string) {
    forall i :: 0 <= i < |s| ==> IsDigit(s[i])
  }

  function DigitsValue(s: string): int {
    if s == [] then 0 else 10 * DigitsValue(s[..|s| - 1]) + (s[|s| - 1] as int - '0' as int)
  }

  const MAX_INT64: int := 0x7FFF_FFFF_FFFF_FFFF

  /** Go's strconv.Atoi on a 64-bit platform. */
  function Atoi(s: string): Option<int> {
    var negative := s != [] && s[0] == '-';
    var digits := if s != [] && (s[0] == '-' || s[0] == '+') then s[1..] else s;
    if digits == [] || !AllDigits(digits) then None
    else
      var n := if negative then -DigitsValue(digits) else DigitsValue(digits);
      if -MAX_INT64 - 1 <= n <= MAX_INT64 then Some(n) else None
  }

  /** An integer followed by `unit`, with surrounding white space ignored. */
  function ParseDuration(s: string, unit: char): Option<int> {
    var t := TrimSpace(s);
    if t == [] || t[|t| - 1] != unit then None else Atoi(t[..|t| - 1])
  }

  function ParsePeriod(period: string): Result<Period, PeriodError> {
    if period == "monthly" || period == "" then Ok(Monthly)
    else if period == "weekly" then Ok(Weekly)
    else if period == "daily" then Ok(Daily)
    else match ParseDuration(period, 'd')
      case Some(days) => if days <= 0 || days > 31 then Err(DayDurationOutOfRange(days)) else Ok(Days(days))
      case None =>
        match ParseDuration(period, 'h')
        case Some(hours) => if hours <= 0 || hours > 24 then Err(HourDurationOutOfRange(hours)) else Ok(Hours(hours))
        case None => Err(Unsupported(period))
  }

  predicate InRange(p: Period) {
    match p
    case Days(n) => 1 <= n <= 31
    case Hours(n) => 1 <= n <= 24
    case _ => true
  }

  lemma ParsedInRange(period: string)
    ensures ParsePeriod(period).Ok? ==> InRange(ParsePeriod(period).value)
  {
  }

  // ----- Windows -----

  /** The half-open time interval from `start` to `end`. */
  datatype Window = Window(start: Instant, end: Instant) {
    predicate Contains(t: Instant) {
      start <= t < end
    }
  }

  /** Start of the slot of size `n` that holds `x`, slots counted from 0. */
  function SlotStart(x: int, n: int): int
    requires 0 < n
    decreases x
  {
    if x < n then 0 else n + SlotStart(x - n, n)
  }

  /** The slot of size `n` that holds `first + x`, slots counted from `first` and cut off at `next`. */
  function SlotSpan(first: int, next: int, x: int, n: int): (int, int)
    requires 0 < n
  {
    var slot := SlotStart(x, n);
    (first + slot, MinInt(first + slot + n, next))
  }

  /** First day, and first day past the end, of the window of a day-aligned period that contains `day`. */
  ghost function DaySpan(p: Period, day: int): (int, int)
    requires InRange(p) && !p.Hours?
  {
    match p
    case Monthly =>
      var k := MonthOf(day);
      (MonthStart(k), MonthStart(k + 1))
    case Weekly =>
      var weekday := if Weekday(day) == 0 then 7 else Weekday(day);
      var monday := day - (weekday - 1);
      (monday, monday + 7)
    case Daily =>
      (day, day + 1)
    case Days(n) =>
      var k := MonthOf(day);
      SlotSpan(MonthStart(k), MonthStart(k + 1), day - MonthStart(k), n)
  }

  /** The window of period `p` that contains `ref`. */
  ghost function WindowOf(p: Period, ref: Instant): Window
    requires InRange(p)
  {
    if p.Hours? then
      var midnight, nextMidnight := Midnight(DayOf(ref)), Midnight(DayOf(ref) + 1);
      var slot := SlotStart(HourOf(ref), p.n);
      Window(midnight + slot * NANOS_PER_HOUR, MinInt(midnight + (slot + p.n) * NANOS_PER_HOUR, nextMidnight))
    else
      var (from, to) := DaySpan(p, DayOf(ref));
      Window(Midnight(from), Midnight(to))
  }

  ghost function ResolvePeriod(period: string, ref: Instant): Result<Window, PeriodError> {
    ParsedInRange(period);
    match ParsePeriod(period)
    case Ok(p) => Ok(WindowOf(p, ref))
    case Err(e) => Err(e)
  }

  // ----- Windows tile time -----

  lemma {:induction false} SlotContains(x: int, n: int)
    requires 0 < n && 0 <= x
    ensures 0 <= SlotStart(x, n) <= x < SlotStart(x, n) + n
    decreases x
  {
    if n <= x {
      SlotContains(x - n, n);
    }
  }

  lemma ScaleMonotone(a: int, b: int, n: int)
    requires a <= b && 0 < n
    ensures a * n <= b * n
  {
  }

  lemma QuotientUnique(y: int, n: int, q: int, r: int)
    requires 0 < n && q * n <= y < q * n + n && r * n <= y < r * n + n
    ensures q == r
  {
    if q < r {
      ScaleMonotone(q + 1, r, n);
    } else if r < q {
      ScaleMonotone(r + 1, q, n);
    }
  }

  lemma QuotientBounds(x: int, n: int)
    requires 0 < n
    ensures (x / n) * n <= x < (x / n) * n + n
  {
  }

  lemma {:induction false} SlotStartIsMultiple(x: int, n: int) returns (q: int)
    requires 0 < n && 0 <= x
    ensures SlotStart(x, n) == q * n
    decreases x
  {
    if x < n {
      q := 0;
    } else {
      var r := SlotStartIsMultiple(x - n, n);
      q := r + 1;
    }
  }

  /** The slot start is the number of whole slots before `x` times their size, as the source writes it. */
  lemma SlotStartIsQuotient(x: int, n: int)
    requires 0 < n && 0 <= x
    ensures SlotStart(x, n) == (x / n) * n
  {
    var q := SlotStartIsMultiple(x, n);
    SlotContains(x, n);
    QuotientBounds(x, n);
    QuotientUnique(x, n, q, x / n);
  }

  lemma {:induction false} SlotUnique(x: int, y: int, n: int)
    requires 0 < n && 0 <= x && SlotStart(x, n) <= y < SlotStart(x, n) + n
    ensures SlotStart(y, n) == SlotStart(x, n)
    decreases x
  {
    if n <= x {
      SlotContains(x - n, n);
      SlotUnique(x - n, y - n, n);
    }
  }

  lemma SlotSpanContains(first: int, next: int, x: int, n: int)
    requires 0 < n && 0 <= x < next - first
    ensures var (from, to) := SlotSpan(first, next, x, n);
            first <= from <= first + x < to <= next
  {
    SlotContains(x, n);
  }

  lemma SlotSpanStable(first: int, next: int, x: int, y: int, n: int)
    requires 0 < n && 0 <= x < next - first
    requires SlotSpan(first, next, x, n).0 <= first + y < SlotSpan(first, next, x, n).1
    ensures SlotSpan(first, next, y, n) == SlotSpan(first, next, x, n)
  {
    SlotContains(x, n);
    SlotUnique(x, y, n);
  }

  lemma DaySpanContains(p: Period, day: int)
    requires InRange(p) && !p.Hours?
    ensures DaySpan(p, day).0 <= day < DaySpan(p, day).1
  {
    if p.Days? {
      var k := MonthOf(day);
      SlotSpanContains(MonthStart(k), MonthStart(k + 1), day - MonthStart(k), p.n);
    }
  }

  lemma DaySlotOf(n: int, day: int, k: int)
    requires InRange(Days(n)) && MonthStart(k) <= day < MonthStart(k + 1)
    ensures DaySpan(Days(n), day) == SlotSpan(MonthStart(k), MonthStart(k + 1), day - MonthStart(k), n)
  {
    MonthUnique(day, k);
  }

  /** Two days in one slot of a month that starts at `first` and ends before `next`. */
  lemma SlotShared(first: int, next: int, day: int, other: int, n: int)
    requires 0 < n && first <= day < next
    requires SlotSpan(first, next, day - first, n).0 <= other < SlotSpan(first, next, day - first, n).1
    ensures first <= other < next && SlotSpan(first, next, other - first, n) == SlotSpan(first, next, day - first, n)
  {
    SlotSpanContains(first, next, day - first, n);
    SlotSpanStable(first, next, day - first, other - first, n);
  }

  lemma DaySlotStable(n: int, day: int, other: int)
    requires InRange(Days(n)) && DaySpan(Days(n), day).0 <= other < DaySpan(Days(n), day).1
    ensures DaySpan(Days(n), other) == DaySpan(Days(n), day)
  {
    var k := MonthOf(day);
    DaySlotOf(n, day, k);
    SlotShared(MonthStart(k), MonthStart(k + 1), day, other, n);
    DaySlotOf(n, other, k);
  }

  lemma DaySpanStable(p: Period, day: int, other: int)
    requires InRange(p) && !p.Hours?
    requires DaySpan(p, day).0 <= other < DaySpan(p, day).1
    ensures DaySpan(p, other) == DaySpan(p, day)
  {
    match p
    case Monthly => MonthUnique(other, MonthOf(day));
    case Weekly =>
    case Daily =>
    case Days(n) => DaySlotStable(n, day, other);
  }

  lemma WindowContainsRef(p: Period, ref: Instant)
    requires InRange(p)
    ensures WindowOf(p, ref).Contains(ref)
  {
    DayBounds(ref);
    if p.Hours? {
      SlotContains(HourOf(ref), p.n);
    } else {
      DaySpanContains(p, DayOf(ref));
    }
  }

  lemma HoursWindowStable(n: int, ref: Instant, t: Instant)
    requires InRange(Hours(n)) && WindowOf(Hours(n), ref).Contains(t)
    ensures WindowOf(Hours(n), t) == WindowOf(Hours(n), ref)
  {
    SlotContains(HourOf(ref), n);
    DayUnique(t, DayOf(ref));
    DayBounds(t);
    SlotUnique(HourOf(ref), HourOf(t), n);
  }

  lemma WindowStable(p: Period, ref: Instant, t: Instant)
    requires InRange(p) && WindowOf(p, ref).Contains(t)
    ensures WindowOf(p, t) == WindowOf(p, ref)
  {
    if p.Hours? {
      HoursWindowStable(p.n, ref, t);
    } else {
      var (from, to) := DaySpan(p, DayOf(ref));
      DayWithin(t, from, to);
      DaySpanStable(p, DayOf(ref), DayOf(t));
    }
  }

  /** The window after a window starts where that one ends. */
  lemma WindowAdjacent(p: Period, ref: Instant)
    requires InRange(p)
    ensures WindowOf(p, WindowOf(p, ref).end).start == WindowOf(p, ref).end
  {
    var w := WindowOf(p, ref);
    var next := WindowOf(p, w.end);
    WindowContainsRef(p, ref);
    WindowContainsRef(p, w.end);
    if next.start < w.end {
      WindowStable(p, ref, w.end - 1);
      WindowStable(p, w.end, w.end - 1);
    }
  }

  /** Windows tile time: for every valid period, the window contains its reference time, every instant
      in it resolves to the same window, and its end starts the next one. */
  lemma WindowsTileTime(period: string, ref: Instant, w: Window)
    requires ResolvePeriod(period, ref) == Ok(w)
    ensures w.Contains(ref)
    ensures forall t :: w.Contains(t) ==> ResolvePeriod(period, t) == Ok(w)
    ensures exists next :: ResolvePeriod(period, w.end) == Ok(next) && next.start == w.end
  {
    ParsedInRange(period);
    var p := ParsePeriod(period).value;
    WindowContainsRef(p, ref);
    forall t | w.Contains(t) ensures ResolvePeriod(period, t) == Ok(w) {
      WindowStable(p, ref, t);
    }
    WindowAdjacent(p, ref);
    assert ResolvePeriod(period, w.end) == Ok(WindowOf(p, w.end));
  }

  /** Day slots never cross a month, and hour slots never cross a day. */
  lemma SlotsStayInside(n: int, ref: Instant)
    ensures InRange(Days(n)) ==>
              var slot, month := WindowOf(Days(n), ref), WindowOf(Monthly, ref);
              month.start <= slot.start < slot.end <= month.end
    ensures InRange(Hours(n)) ==>
              var slot, day := WindowOf(Hours(n), ref), WindowOf(Daily, ref);
              day.start <= slot.start < slot.end <= day.end
  {
    if InRange(Days(n)) {
      var k := MonthOf(DayOf(ref));
      SlotSpanContains(MonthStart(k), MonthStart(k + 1), DayOf(ref) - MonthStart(k), n);
    }
    if InRange(Hours(n)) {
      SlotContains(HourOf(ref), n);
    }
  }

  /** Day slots are counted from the start of the month and hour slots from midnight: a slot starts a multiple of
      its size after that, and is as long as its size unless the month or the day ends first. */
  lemma DaySlotsAreAligned(n: int, ref: Instant) returns (q: int)
    requires InRange(Days(n))
    ensures var slot, month := WindowOf(Days(n), ref), WindowOf(Monthly, ref);
            && slot.start == month.start + Midnight(q * n)
            && slot.end == MinInt(slot.start + Midnight(n), month.end)
  {
    var k := MonthOf(DayOf(ref));
    q := SlotStartIsMultiple(DayOf(ref) - MonthStart(k), n);
    MidnightMin(MonthStart(k) + q * n + n, MonthStart(k + 1));
  }

  lemma MidnightMin(a: int, b: int)
    ensures Midnight(MinInt(a, b)) == MinInt(Midnight(a), Midnight(b))
  {
  }

  lemma HourSlotsAreAligned(n: int, ref: Instant) returns (q: int)
    requires InRange(Hours(n))
    ensures var slot, day := WindowOf(Hours(n), ref), WindowOf(Daily, ref);
            && slot.start == day.start + q * n * NANOS_PER_HOUR
            && slot.end == MinInt(slot.start + n * NANOS_PER_HOUR, day.end)
  {
    q := SlotStartIsMultiple(HourOf(ref), n);
  }
}

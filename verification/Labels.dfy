/** Labels of billing windows: how they are written, and when two windows share one. */
module Labels {
  import opened Options
  import opened Calendar
  import opened Numbers
  import opened Periods

  // ----- Formatting -----

  function Digit(n: int): char
    requires 0 <= n < 10
  {
    '0' + n as char
  }

  function Two(n: int): (s: string)
    requires 0 <= n < 100
    ensures |s| == 2
  {
    [Digit(n / 10), Digit(n % 10)]
  }

  function Decimal(n: int): (s: string)
    requires 0 <= n
  {
    if n < 10 then [Digit(n)] else Decimal(n / 10) + [Digit(n % 10)]
  }

  function AtLeastFour(n: int): string
    requires 0 <= n
  {
    if n <= 9999 then Two(n / 100) + Two(n % 100) else Decimal(n)
  }

  /** A year as Go writes it: at least four digits, with a sign before a negative year. */
  function YearText(y: int): (s: string)
    ensures 0 <= y <= 9999 ==> |s| == 4
  {
    if y < 0 then "-" + AtLeastFour(-y) else AtLeastFour(y)
  }

  function MonthText(d: Date): string
    requires 1 <= d.month <= 12
  {
    YearText(d.year) + "-" + Two(d.month)
  }

  function DateText(d: Date): string
    requires 1 <= d.month <= 12 && 1 <= d.day <= 31
  {
    MonthText(d) + "-" + Two(d.day)
  }

  function ClockText(t: Instant): (s: string)
    ensures |s| == 5
  {
    Two(HourOf(t)) + ":" + Two((t % NANOS_PER_HOUR) / 60_000_000_000)
  }

  /** Day of the year, from 0. */
  ghost function YearDay(day: int): (n: int)
    ensures 0 <= n < 366
  {
    YearBounds(day);
    YearStartNext(DateOf(day).year);
    day - YearStart(DateOf(day).year)
  }

  /** ISO 8601 week number: a week belongs to the year of its Thursday. */
  ghost function IsoWeek(day: int): (week: int)
    ensures 1 <= week <= 53
  {
    YearDay(day + 3 - (Weekday(day) + 6) % 7) / 7 + 1
  }

  function WeekText(year: int, week: int): string
    requires 1 <= week <= 53
  {
    YearText(year) + "-W" + Two(week)
  }

  function SpanText(first: Date, last: Date): string
    requires 1 <= first.month <= 12 && 1 <= first.day <= 31 && 1 <= last.month <= 12 && 1 <= last.day <= 31
  {
    DateText(first) + "/" + DateText(last)
  }

  function SlotText(d: Date, start: Instant, end: Instant): string
    requires 1 <= d.month <= 12 && 1 <= d.day <= 31
  {
    DateText(d) + "/" + ClockText(start) + "-" + ClockText(end)
  }

  ghost function MonthlyLabel(w: Window): string {
    MonthText(DateOf(DayOf(w.start)))
  }

  ghost function DailyLabel(w: Window): string {
    DateText(DateOf(DayOf(w.start)))
  }

  ghost function WeeklyLabel(w: Window): string {
    WeekText(DateOf(DayOf(w.start)).year, IsoWeek(DayOf(w.start)))
  }

  ghost function SpanLabel(w: Window): string {
    SpanText(DateOf(DayOf(w.start)), DateOf(DayOf(w.end - NANOS_PER_DAY)))
  }

  ghost function SlotLabel(w: Window): string {
    SlotText(DateOf(DayOf(w.start)), w.start, w.end)
  }

  ghost function LabelOf(p: Period, w: Window): string {
    match p
    case Monthly => MonthlyLabel(w)
    case Weekly => WeeklyLabel(w)
    case Daily => DailyLabel(w)
    case Days(_) => SpanLabel(w)
    case Hours(_) => SlotLabel(w)
  }

  /** Label of the window that contains `ref`; an invalid period falls back to the month. */
  ghost function PeriodLabel(period: string, ref: Instant): string {
    ParsedInRange(period);
    match ParsePeriod(period)
    case Ok(p) => LabelOf(p, WindowOf(p, ref))
    case Err(_) => MonthText(DateOf(DayOf(ref)))
  }

  // ----- Labels of non-weekly periods determine their windows -----

  /** The window starts and ends in years of four digits. */
  ghost predicate FourDigit(w: Window) {
    0 <= DateOf(DayOf(w.start)).year <= 9999 && 0 <= DateOf(DayOf(w.end - 1)).year <= 9999
  }

  lemma ConcatInjective(a: string, b: string, c: string, d: string)
    requires a + b == c + d && |a| == |c|
    ensures a == c && b == d
  {
    assert a == (a + b)[..|a|] && c == (c + d)[..|c|];
    assert b == (a + b)[|a|..] && d == (c + d)[|c|..];
  }

  lemma TwoInjective(a: int, b: int)
    requires 0 <= a < 100 && 0 <= b < 100 && Two(a) == Two(b)
    ensures a == b
  {
    assert Two(a)[0] == Two(b)[0] && Two(a)[1] == Two(b)[1];
    assert Digit(a / 10) as int == '0' as int + a / 10 && Digit(b / 10) as int == '0' as int + b / 10;
    assert Digit(a % 10) as int == '0' as int + a % 10 && Digit(b % 10) as int == '0' as int + b % 10;
  }

  lemma YearTextInjective(y: int, z: int)
    requires 0 <= y <= 9999 && 0 <= z <= 9999 && YearText(y) == YearText(z)
    ensures y == z
  {
    ConcatInjective(Two(y / 100), Two(y % 100), Two(z / 100), Two(z % 100));
    TwoInjective(y / 100, z / 100);
    TwoInjective(y % 100, z % 100);
  }

  lemma DigitValue(n: int)
    requires 0 <= n < 10
    ensures DigitsValue([Digit(n)]) == n && IsDigit(Digit(n))
  {
    assert [Digit(n)][..0] == [];
  }

  lemma TwoReadsBack(n: int)
    requires 0 <= n < 100
    ensures DigitsValue(Two(n)) == n
  {
    assert Two(n)[..1] == [Digit(n / 10)];
    DigitValue(n / 10);
    DigitValue(n % 10);
  }

  lemma YearReadsBack(y: int)
    requires 0 <= y <= 9999
    ensures DigitsValue(YearText(y)) == y
  {
    var s := YearText(y);
    assert s[..3][..2] == Two(y / 100) && s[..3] == Two(y / 100) + [Digit(y % 100 / 10)];
    TwoReadsBack(y / 100);
    DigitValue(y % 100 / 10);
    DigitValue(y % 100 % 10);
  }

  /** A date as labels write it: a year of four digits. */
  predicate Writable(d: Date) {
    0 <= d.year <= 9999 && 1 <= d.month <= 12 && 1 <= d.day <= 31
  }

  lemma MonthTextInjective(d: Date, e: Date)
    requires Writable(d) && Writable(e) && MonthText(d) == MonthText(e)
    ensures d.year == e.year && d.month == e.month
  {
    ConcatInjective(YearText(d.year) + "-", Two(d.month), YearText(e.year) + "-", Two(e.month));
    ConcatInjective(YearText(d.year), "-", YearText(e.year), "-");
    YearTextInjective(d.year, e.year);
    TwoInjective(d.month, e.month);
  }

  lemma DateTextLength(d: Date)
    requires Writable(d)
    ensures |MonthText(d)| == 7 && |DateText(d)| == 10
  {
  }

  /** A written date reads back: year, month and day stand in this order, apart by dashes. */
  lemma DateTextReadsBack(d: Date)
    requires Writable(d)
    ensures var s := DateText(d);
            && |s| == 10 && s[4] == s[7] == '-'
            && DigitsValue(s[..4]) == d.year && DigitsValue(s[5..7]) == d.month && DigitsValue(s[8..]) == d.day
  {
    var s := DateText(d);
    DateTextLength(d);
    assert s[..4] == YearText(d.year) && s[5..7] == Two(d.month) && s[8..] == Two(d.day);
    YearReadsBack(d.year);
    TwoReadsBack(d.month);
    TwoReadsBack(d.day);
  }

  lemma DateTextInjective(d: Date, e: Date)
    requires Writable(d) && Writable(e) && DateText(d) == DateText(e)
    ensures d == e
  {
    DateTextLength(d);
    DateTextLength(e);
    ConcatInjective(MonthText(d) + "-", Two(d.day), MonthText(e) + "-", Two(e.day));
    ConcatInjective(MonthText(d), "-", MonthText(e), "-");
    MonthTextInjective(d, e);
    TwoInjective(d.day, e.day);
  }

  lemma TwoDatesInjective(a: Date, b: Date, c: Date, d: Date)
    requires Writable(a) && Writable(b) && Writable(c) && Writable(d)
    requires SpanText(a, b) == SpanText(c, d)
    ensures a == c && b == d
  {
    DateTextLength(a);
    DateTextLength(c);
    ConcatInjective(DateText(a) + "/", DateText(b), DateText(c) + "/", DateText(d));
    ConcatInjective(DateText(a), "/", DateText(c), "/");
    DateTextInjective(a, c);
    DateTextInjective(b, d);
  }

  /** What a label of period kind `p` can express: whole months, whole days, or full hours of one day. */
  ghost predicate Expressible(p: Period, w: Window) {
    match p
    case Monthly => exists k :: w == MonthWindow(k)
    case Weekly => exists monday :: w == Week(monday) && Weekday(monday) == 1
    case Daily => exists day :: w == DayWindow(day)
    case Days(_) => exists from, to :: from < to && w == DaysWindow(from, to)
    case Hours(_) => exists day, from, to :: 0 <= from < to <= 24 && w == HourSlot(day, from, to)
  }

  /** The window of the days from `from` to before `to`. */
  function DaysWindow(from: int, to: int): Window {
    Window(Midnight(from), Midnight(to))
  }

  function DayWindow(day: int): Window {
    DaysWindow(day, day + 1)
  }

  /** The window of month number `k`. */
  function MonthWindow(k: int): Window {
    DaysWindow(MonthStart(k), MonthStart(k + 1))
  }

  /** The window of the week that starts on `monday`. */
  function Week(monday: int): Window {
    Window(Midnight(monday), Midnight(monday + 7))
  }

  function HourSlot(day: int, from: int, to: int): Window {
    Window(Midnight(day) + from * NANOS_PER_HOUR, Midnight(day) + to * NANOS_PER_HOUR)
  }

  lemma WindowsExpressible(p: Period, r: Instant)
    requires InRange(p)
    ensures Expressible(p, WindowOf(p, r))
  {
    match p
    case Monthly => assert WindowOf(p, r) == MonthWindow(MonthOf(DayOf(r)));
    case Weekly =>
      var monday := DaySpan(p, DayOf(r)).0;
      assert WindowOf(p, r) == Week(monday) && Weekday(monday) == 1;
    case Daily => assert WindowOf(p, r) == DayWindow(DayOf(r));
    case Days(n) =>
      DaySpanContains(p, DayOf(r));
      assert WindowOf(p, r) == DaysWindow(DaySpan(p, DayOf(r)).0, DaySpan(p, DayOf(r)).1);
    case Hours(n) =>
      SlotContains(HourOf(r), n);
      var from := SlotStart(HourOf(r), n);
      assert WindowOf(p, r) == HourSlot(DayOf(r), from, MinInt(from + n, 24));
  }

  // What a label shows of its window.

  lemma MidnightDay(day: int)
    ensures DayOf(Midnight(day)) == day && DayOf(Midnight(day) - NANOS_PER_DAY) == day - 1 == DayOf(Midnight(day) - 1)
  {
  }

  lemma DateInjective(a: int, b: int)
    requires DateOf(a) == DateOf(b)
    ensures a == b
  {
    DateRoundTrip(a);
    DateRoundTrip(b);
  }

  /** Date `d` is the first of month number `k`. */
  predicate IsFirst(d: Date, k: int) {
    1 <= d.month <= 12 && d.day == 1 && k == 12 * d.year + d.month - 1
  }

  lemma MonthFirst(k: int)
    ensures IsFirst(DateOf(MonthStart(k)), k)
  {
    MonthStartNext(k);
    MonthUnique(MonthStart(k), k);
  }

  /** The date on which a window of four-digit years starts. */
  lemma StartWritable(w: Window, day: int)
    requires FourDigit(w) && DayOf(w.start) == day
    ensures Writable(DateOf(day))
  {
  }

  lemma MonthShown(w: Window) returns (k: int, d: Date)
    requires Expressible(Monthly, w) && FourDigit(w)
    ensures w == MonthWindow(k) && IsFirst(d, k)
    ensures Writable(d) && MonthlyLabel(w) == MonthText(d)
  {
    k :| w == MonthWindow(k);
    d := DateOf(MonthStart(k));
    MonthFirst(k);
    MonthLabelIs(w, MonthStart(k), d);
  }

  lemma MonthLabelIs(w: Window, day: int, d: Date)
    requires FourDigit(w) && w.start == Midnight(day) && d == DateOf(day)
    ensures Writable(d) && MonthlyLabel(w) == MonthText(d)
  {
    MidnightDay(day);
    StartWritable(w, day);
  }

  lemma DayShown(w: Window) returns (day: int)
    requires Expressible(Daily, w) && FourDigit(w)
    ensures w == DayWindow(day)
    ensures Writable(DateOf(day)) && DailyLabel(w) == DateText(DateOf(day))
  {
    day :| w == DayWindow(day);
    MidnightDay(day);
    StartWritable(w, day);
  }

  lemma SpanDays(n: int, w: Window) returns (from: int, to: int)
    requires Expressible(Days(n), w)
    ensures w == DaysWindow(from, to) && DayOf(w.start) == from
    ensures DayOf(w.end - NANOS_PER_DAY) == to - 1 == DayOf(w.end - 1)
  {
    from, to :| from < to && w == DaysWindow(from, to);
    MidnightDay(from);
    MidnightDay(to);
  }

  lemma EndWritable(w: Window, day: int)
    requires FourDigit(w) && DayOf(w.end - 1) == day
    ensures Writable(DateOf(day))
  {
  }

  lemma SpanShown(n: int, w: Window) returns (from: int, to: int)
    requires Expressible(Days(n), w) && FourDigit(w)
    ensures w == DaysWindow(from, to)
    ensures Writable(DateOf(from)) && Writable(DateOf(to - 1)) && SpanLabel(w) == SpanText(DateOf(from), DateOf(to - 1))
  {
    from, to := SpanDays(n, w);
    StartWritable(w, from);
    EndWritable(w, to - 1);
  }

  lemma HourWithin(day: int, h: int)
    requires 0 <= h <= 24
    ensures var t := Midnight(day) + h * NANOS_PER_HOUR;
            HourOf(t) == (if h == 24 then 0 else h) && (h < 24 ==> DayOf(t) == day)
  {
  }

  lemma SlotHours(n: int, w: Window) returns (day: int, from: int, to: int)
    requires Expressible(Hours(n), w)
    ensures w == HourSlot(day, from, to) && 0 <= from < to <= 24 && DayOf(w.start) == day
    ensures HourOf(w.start) == from && HourOf(w.end) == (if to == 24 then 0 else to)
  {
    day, from, to :| 0 <= from < to <= 24 && w == HourSlot(day, from, to);
    HourWithin(day, from);
    HourWithin(day, to);
  }

  lemma SlotShown(n: int, w: Window) returns (day: int, from: int, to: int)
    requires Expressible(Hours(n), w) && FourDigit(w)
    ensures w == HourSlot(day, from, to) && 0 <= from < to <= 24
    ensures HourOf(w.start) == from && HourOf(w.end) == (if to == 24 then 0 else to)
    ensures Writable(DateOf(day)) && SlotLabel(w) == SlotText(DateOf(day), w.start, w.end)
  {
    day, from, to := SlotHours(n, w);
    StartWritable(w, day);
  }

  lemma ClockTextInjective(t: Instant, u: Instant)
    requires ClockText(t) == ClockText(u)
    ensures HourOf(t) == HourOf(u)
  {
    assert ClockText(t)[..2] == Two(HourOf(t)) && ClockText(u)[..2] == Two(HourOf(u));
    TwoInjective(HourOf(t), HourOf(u));
  }

  lemma ThreePartsInjective(a: string, b: string, c: string, d: string, e: string, f: string)
    requires |a| == |d| && |b| == |e| && |c| == |f|
    requires a + "/" + b + "-" + c == d + "/" + e + "-" + f
    ensures a == d && b == e && c == f
  {
    ConcatInjective(a + "/" + b + "-", c, d + "/" + e + "-", f);
    ConcatInjective(a + "/" + b, "-", d + "/" + e, "-");
    ConcatInjective(a + "/", b, d + "/", e);
    ConcatInjective(a, "/", d, "/");
  }

  lemma SlotTextInjective(d: Date, e: Date, v: Window, w: Window)
    requires Writable(d) && Writable(e)
    requires SlotText(d, v.start, v.end) == SlotText(e, w.start, w.end)
    ensures d == e && HourOf(v.start) == HourOf(w.start) && HourOf(v.end) == HourOf(w.end)
  {
    DateTextLength(d);
    DateTextLength(e);
    ThreePartsInjective(DateText(d), ClockText(v.start), ClockText(v.end),
                        DateText(e), ClockText(w.start), ClockText(w.end));
    DateTextInjective(d, e);
    ClockTextInjective(v.start, w.start);
    ClockTextInjective(v.end, w.end);
  }

  /** Each kind of period has its own label length. */
  function LabelLength(p: Period): int {
    match p
    case Monthly => 7
    case Weekly => 8
    case Daily => 10
    case Days(_) => 21
    case Hours(_) => 22
  }

  lemma LabelHasLength(p: Period, w: Window)
    requires Expressible(p, w) && FourDigit(w) && !p.Weekly?
    ensures |LabelOf(p, w)| == LabelLength(p)
  {
    match p
    case Monthly =>
      var k, d := MonthShown(w);
      DateTextLength(d);
    case Daily =>
      var day := DayShown(w);
      DateTextLength(DateOf(day));
    case Days(n) =>
      var from, to := SpanShown(n, w);
      DateTextLength(DateOf(from));
      DateTextLength(DateOf(to - 1));
    case Hours(n) =>
      var day, from, to := SlotShown(n, w);
      DateTextLength(DateOf(day));
  }

  lemma MonthlyLabelsInjective(v: Window, w: Window)
    requires Expressible(Monthly, v) && Expressible(Monthly, w) && FourDigit(v) && FourDigit(w)
    requires MonthlyLabel(v) == MonthlyLabel(w)
    ensures v == w
  {
    var j, d := MonthShown(v);
    var k, e := MonthShown(w);
    MonthTextInjective(d, e);
  }

  lemma DailyLabelsInjective(v: Window, w: Window)
    requires Expressible(Daily, v) && Expressible(Daily, w) && FourDigit(v) && FourDigit(w)
    requires DailyLabel(v) == DailyLabel(w)
    ensures v == w
  {
    var a := DayShown(v);
    var b := DayShown(w);
    DateTextInjective(DateOf(a), DateOf(b));
    DateInjective(a, b);
  }

  lemma SpanLabelsInjective(m: int, n: int, v: Window, w: Window)
    requires Expressible(Days(m), v) && Expressible(Days(n), w) && FourDigit(v) && FourDigit(w)
    requires SpanLabel(v) == SpanLabel(w)
    ensures v == w
  {
    var a, b := SpanShown(m, v);
    var c, d := SpanShown(n, w);
    TwoDatesInjective(DateOf(a), DateOf(b - 1), DateOf(c), DateOf(d - 1));
    DateInjective(a, c);
    DateInjective(b - 1, d - 1);
  }

  lemma SlotLabelsInjective(m: int, n: int, v: Window, w: Window)
    requires Expressible(Hours(m), v) && Expressible(Hours(n), w) && FourDigit(v) && FourDigit(w)
    requires SlotLabel(v) == SlotLabel(w)
    ensures v == w
  {
    var a, b, c := SlotShown(m, v);
    var d, e, f := SlotShown(n, w);
    SlotTextInjective(DateOf(a), DateOf(d), v, w);
    DateInjective(a, d);
  }

  lemma LabelsInjective(p: Period, q: Period, v: Window, w: Window)
    requires Expressible(p, v) && Expressible(q, w) && !p.Weekly? && !q.Weekly?
    requires FourDigit(v) && FourDigit(w) && LabelOf(p, v) == LabelOf(q, w)
    ensures v == w
  {
    LabelHasLength(p, v);
    LabelHasLength(q, w);
    match p
    case Monthly => MonthlyLabelsInjective(v, w);
    case Daily => DailyLabelsInjective(v, w);
    case Days(m) => SpanLabelsInjective(m, q.n, v, w);
    case Hours(m) => SlotLabelsInjective(m, q.n, v, w);
  }

  /** Two windows of non-weekly periods with the same label are the same window, even when the period
      strings differ. */
  lemma LabelsDetermineWindows(period: string, other: string, r: Instant, s: Instant, v: Window, w: Window)
    requires ResolvePeriod(period, r) == Ok(v) && ResolvePeriod(other, s) == Ok(w)
    requires period != "weekly" && other != "weekly" && FourDigit(v) && FourDigit(w)
    requires PeriodLabel(period, r) == PeriodLabel(other, s)
    ensures v == w
  {
    ParsedInRange(period);
    ParsedInRange(other);
    var p, q := ParsePeriod(period).value, ParsePeriod(other).value;
    WindowsExpressible(p, r);
    WindowsExpressible(q, s);
    LabelsInjective(p, q, v, w);
  }

  // ----- Weekly labels -----

  lemma YearDayIs(day: int, y: int)
    requires YearStart(y) <= day < YearStart(y + 1)
    ensures DateOf(day).year == y && YearDay(day) == day - YearStart(y)
  {
    YearUnique(day, y);
  }

  /** Week number of the week of a Monday with day-of-year `n` in a year of `length` days. */
  function MondayWeek(n: int, length: int): int {
    if n + 3 < length then (n + 3) / 7 + 1 else 1
  }

  /** Day `a` is the Monday with day-of-year `n` of year `y`. */
  predicate MondayAt(a: int, y: int, n: int) {
    Weekday(a) == 1 && 0 <= n < YearLength(y) && a == YearStart(y) + n
  }

  lemma WeekOfThursday(monday: int)
    requires Weekday(monday) == 1
    ensures IsoWeek(monday) == YearDay(monday + 3) / 7 + 1
  {
    assert (Weekday(monday) + 6) % 7 == 0;
  }

  /** Day-of-year of the Thursday after the Monday with day-of-year `n`. */
  lemma ThursdayDay(a: int, y: int, n: int)
    requires 0 <= n < YearLength(y) && a == YearStart(y) + n
    ensures YearDay(a + 3) == if n + 3 < YearLength(y) then n + 3 else n + 3 - YearLength(y)
  {
    YearStartNext(y);
    if n + 3 < YearLength(y) {
      YearDayIs(a + 3, y);
    } else {
      YearStartNext(y + 1);
      YearDayIs(a + 3, y + 1);
    }
  }

  lemma WeekNumberOfMonday(a: int, y: int, n: int)
    requires MondayAt(a, y, n)
    ensures DateOf(a).year == y && IsoWeek(a) == MondayWeek(n, YearLength(y))
  {
    YearStartNext(y);
    YearUnique(a, y);
    WeekOfThursday(a);
    ThursdayDay(a, y, n);
  }

  lemma MondayWeekCollision(m: int, n: int, length: int)
    requires 0 <= m < length && 0 <= n < length && (m - n) % 7 == 0 && 365 <= length
    ensures MondayWeek(m, length) == MondayWeek(n, length) <==>
            m == n || (m <= 3 && length <= n + 3) || (n <= 3 && length <= m + 3)
  {
  }

  lemma WeekTextInjective(y: int, v: int, z: int, w: int)
    requires 0 <= y <= 9999 && 0 <= z <= 9999 && 1 <= v <= 53 && 1 <= w <= 53
    ensures WeekText(y, v) == WeekText(z, w) <==> y == z && v == w
  {
    if WeekText(y, v) == WeekText(z, w) {
      ConcatInjective(YearText(y) + "-W", Two(v), YearText(z) + "-W", Two(w));
      ConcatInjective(YearText(y), "-W", YearText(z), "-W");
      YearTextInjective(y, z);
      TwoInjective(v, w);
    }
  }

  lemma SameWeekday(a: int, b: int)
    requires Weekday(a) == Weekday(b)
    ensures (a - b) % 7 == 0
  {
  }

  /** The label of the week that starts on `monday`. */
  ghost function WeekLabel(monday: int): string {
    WeekText(DateOf(monday).year, IsoWeek(monday))
  }

  /** Two weeks share a label if and only if they are the same week, or one starts in the first four and
      the other in the last three days of the same calendar year. */
  lemma WeeklyLabelCollision(a: int, y: int, m: int, b: int, z: int, n: int)
    requires MondayAt(a, y, m) && MondayAt(b, z, n) && 0 <= y <= 9999 && 0 <= z <= 9999
    ensures WeekLabel(a) == WeekLabel(b) <==>
            || a == b
            || (y == z && ((m <= 3 && YearLength(y) <= n + 3) || (n <= 3 && YearLength(y) <= m + 3)))
  {
    WeekNumberOfMonday(a, y, m);
    WeekNumberOfMonday(b, z, n);
    WeekTextInjective(y, IsoWeek(a), z, IsoWeek(b));
    SameWeekday(a, b);
    if y == z {
      MondayWeekCollision(m, n, YearLength(y));
    } else {
      assert a != b;
    }
  }

  lemma PlaceInYear(day: int)
    ensures var y := DateOf(day).year; 0 <= YearDay(day) < YearLength(y) && day == YearStart(y) + YearDay(day)
  {
    YearBounds(day);
    YearStartNext(DateOf(day).year);
  }

  lemma WeekShown(ref: Instant, monday: int)
    requires monday == DaySpan(Weekly, DayOf(ref)).0
    ensures Weekday(monday) == 1 && WindowOf(Weekly, ref) == Week(monday)
    ensures WeeklyLabel(Week(monday)) == WeekLabel(monday)
  {
    MidnightDay(monday);
  }

  /** The Monday of the week that contains an instant. */
  ghost function MondayOf(ref: Instant): int {
    DaySpan(Weekly, DayOf(ref)).0
  }

  /** The week that contains an instant, and where its Monday lies in the year. */
  lemma WeekOfInstant(ref: Instant)
    ensures var monday := MondayOf(ref);
            && MondayAt(monday, DateOf(monday).year, YearDay(monday))
            && ResolvePeriod("weekly", ref) == Ok(Week(monday)) && PeriodLabel("weekly", ref) == WeekLabel(monday)
  {
    WeekShown(ref, MondayOf(ref));
    PlaceInYear(MondayOf(ref));
    assert ParsePeriod("weekly") == Ok(Weekly);
  }

  /** One Monday is among the first four and the other among the last three days of the same calendar year. */
  ghost predicate EdgeWeeks(a: int, b: int) {
    var y := DateOf(a).year;
    && y == DateOf(b).year
    && ((YearDay(a) <= 3 && YearLength(y) <= YearDay(b) + 3) || (YearDay(b) <= 3 && YearLength(y) <= YearDay(a) + 3))
  }

  /** Two instants have the same weekly label if and only if they are in the same week or in such weeks. */
  lemma WeeklyLabelsShared(r: Instant, t: Instant)
    requires 0 <= DateOf(MondayOf(r)).year <= 9999 && 0 <= DateOf(MondayOf(t)).year <= 9999
    ensures PeriodLabel("weekly", r) == PeriodLabel("weekly", t) <==>
            MondayOf(r) == MondayOf(t) || EdgeWeeks(MondayOf(r), MondayOf(t))
  {
    WeekOfInstant(r);
    WeekOfInstant(t);
    var a, b := MondayOf(r), MondayOf(t);
    WeeklyLabelCollision(a, DateOf(a).year, YearDay(a), b, DateOf(b).year, YearDay(b));
  }

  /** Same window, same label. */
  lemma SameWindowSameLabel(period: string, r: Instant, t: Instant)
    requires ResolvePeriod(period, r) == ResolvePeriod(period, t) && ResolvePeriod(period, r).Ok?
    ensures PeriodLabel(period, r) == PeriodLabel(period, t)
  {
  }

  /** The weeks of two instants are different but written alike; weekly periods only. */
  ghost predicate LabelsCollide(period: string, r: Instant, t: Instant) {
    period == "weekly" && EdgeWeeks(MondayOf(r), MondayOf(t))
  }

  lemma WeeklyYear(r: Instant, w: Window)
    requires ResolvePeriod("weekly", r) == Ok(w) && FourDigit(w)
    ensures w == Week(MondayOf(r)) && 0 <= DateOf(MondayOf(r)).year <= 9999
  {
    WeekOfInstant(r);
    MidnightDay(MondayOf(r));
  }

  /** For every period and years of four digits, two instants have the same label if and only if they are in the
      same window or their weeks collide. */
  lemma LabelsSharedExactly(period: string, r: Instant, t: Instant, v: Window, w: Window)
    requires ResolvePeriod(period, r) == Ok(v) && ResolvePeriod(period, t) == Ok(w) && FourDigit(v) && FourDigit(w)
    ensures PeriodLabel(period, r) == PeriodLabel(period, t) <==> v == w || LabelsCollide(period, r, t)
  {
    if period == "weekly" {
      WeeklyYear(r, v);
      WeeklyYear(t, w);
      MidnightDay(MondayOf(r));
      MidnightDay(MondayOf(t));
      WeeklyLabelsShared(r, t);
    } else if PeriodLabel(period, r) == PeriodLabel(period, t) {
      LabelsDetermineWindows(period, period, r, t, v, w);
    } else if v == w {
      SameWindowSameLabel(period, r, t);
    }
  }

  /** In every year that begins on a Monday, the week of 1 January and the week that starts 364 days later
      share a label. */
  lemma YearsFromMondayShareALabel(a: int, y: int)
    requires 0 <= y <= 9999 && MondayAt(a, y, 0)
    ensures WeekLabel(a) == WeekLabel(a + 364)
  {
    var b, n := a + 364, 364;
    SameWeekdayAfter(a, b);
    WeeklyLabelCollision(a, y, 0, b, y, n);
  }

  lemma SameWeekdayAfter(a: int, b: int)
    requires b == a + 364
    ensures Weekday(b) == Weekday(a)
  {
  }

  /** Such are 2024 and every 400th year after it. */
  lemma YearsLike2024StartOnMonday(y: int, c: int)
    requires 0 <= y == 400 * c + 24
    ensures Weekday(YearStart(y)) == 1
  {
    YearStartClosed(y);
    LeapYearsOfCycle(c, y);
    DivisibleBySeven(20871 * c + 1252, YearStart(y));
  }

  lemma LeapYearsOfCycle(c: int, y: int)
    requires y == 400 * c + 24
    ensures LeapYearsBefore(y) == 97 * c + 6
  {
    QuotientIs(y + 3, 4, 100 * c + 6, 3);
    QuotientIs(y + 99, 100, 4 * c + 1, 23);
    QuotientIs(y + 399, 400, c + 1, 23);
  }

  lemma DivisibleBySeven(q: int, day: int)
    requires day == 7 * q + 2
    ensures Weekday(day) == 1
  {
  }
}

/** Period strings: which strings are periods, and the window and label each of them gives. */
module PeriodStrings {
  import opened Options
  import opened Calendar
  import opened Numbers
  import opened Periods
  import opened Labels

  // ----- How durations are written -----

  predicate AllSpace(s: string) {
    forall i :: 0 <= i < |s| ==> IsSpace(s[i])
  }

  predicate DigitsOnly(s: string) {
    forall i :: 0 <= i < |s| ==> '0' <= s[i] <= '9'
  }

  /** The string is white space, a sign or none, digits, the unit, and white space; its number is `n`. */
  predicate Spelled(s: string, pre: string, sign: string, digits: string, unit: char, post: string, n: int) {
    && s == pre + (sign + digits + [unit]) + post
    && AllSpace(pre) && AllSpace(post) && digits != [] && DigitsOnly(digits)
    && (sign == "" || sign == "+" || sign == "-")
    && n == if sign == "-" then -DigitsValue(digits) else DigitsValue(digits)
  }

  /** The string is a number `n` of units. */
  ghost predicate Duration(s: string, unit: char, n: int) {
    exists pre, sign, digits, post :: Spelled(s, pre, sign, digits, unit, post, n)
  }

  predicate Fits64(n: int) {
    -0x8000_0000_0000_0000 <= n < 0x8000_0000_0000_0000
  }

  // ----- Reading numbers -----

  lemma {:induction false} DecimalReadsBack(n: int)
    requires 0 <= n
    ensures Decimal(n) != [] && DigitsOnly(Decimal(n)) && DigitsValue(Decimal(n)) == n
    decreases n
  {
    if 10 <= n {
      DecimalReadsBack(n / 10);
      var s := Decimal(n);
      assert s[..|s| - 1] == Decimal(n / 10);
    } else {
      assert Decimal(n)[..0] == [];
    }
  }

  /** The digits of a number and a unit are that many units. */
  lemma DecimalIsDuration(n: int, unit: char)
    requires 0 <= n
    ensures Duration(Decimal(n) + [unit], unit, n)
  {
    DecimalReadsBack(n);
    assert Spelled(Decimal(n) + [unit], "", "", Decimal(n), unit, "", n);
  }

  lemma AtoiReads(sign: string, digits: string, n: int)
    requires digits != [] && DigitsOnly(digits) && (sign == "" || sign == "+" || sign == "-")
    requires n == if sign == "-" then -DigitsValue(digits) else DigitsValue(digits)
    ensures Atoi(sign + digits) == if Fits64(n) then Some(n) else None
  {
    var s := sign + digits;
    assert sign != "" ==> s[1..] == digits;
    assert sign == "" ==> s == digits && '0' <= s[0] <= '9';
    assert sign != "" ==> s[0] == sign[0];
    assert AllDigits(digits);
  }

  lemma AtoiSplits(s: string) returns (sign: string, digits: string)
    requires Atoi(s).Some?
    ensures s == sign + digits && digits != [] && DigitsOnly(digits) && (sign == "" || sign == "+" || sign == "-")
    ensures Atoi(s).value == if sign == "-" then -DigitsValue(digits) else DigitsValue(digits)
  {
    if s[0] == '-' || s[0] == '+' {
      sign, digits := s[..1], s[1..];
    } else {
      sign, digits := "", s;
    }
    assert AllDigits(digits);
  }

  // ----- Trimming -----

  /** The string starts and ends with something that is not white space. */
  predicate Solid(s: string) {
    s != [] && !IsSpace(s[0]) && !IsSpace(s[|s| - 1])
  }

  lemma {:induction false} TrimEnd(core: string, post: string)
    requires Solid(core) && AllSpace(post)
    ensures TrimSpace(core + post) == core
    decreases |post|
  {
    var s := core + post;
    assert s[0] == core[0];
    if post == [] {
      assert s == core;
    } else {
      assert s[|s| - 1] == post[|post| - 1] && s[..|s| - 1] == core + post[..|post| - 1];
      TrimEnd(core, post[..|post| - 1]);
    }
  }

  lemma {:induction false} TrimBoth(pre: string, core: string, post: string)
    requires Solid(core) && AllSpace(pre) && AllSpace(post)
    ensures TrimSpace(pre + core + post) == core
    decreases |pre|
  {
    if pre == [] {
      assert pre + core + post == core + post;
      TrimEnd(core, post);
    } else {
      assert (pre + core + post)[1..] == pre[1..] + core + post;
      TrimBoth(pre[1..], core, post);
    }
  }

  predicate Splits(s: string, pre: string, core: string, post: string) {
    s == pre + core + post && AllSpace(pre) && AllSpace(post)
  }

  lemma SplitBefore(s: string, pre: string, core: string, post: string)
    requires s != [] && IsSpace(s[0]) && Splits(s[1..], pre, core, post)
    ensures Splits(s, [s[0]] + pre, core, post)
  {
    assert s == [s[0]] + s[1..];
  }

  lemma SplitAfter(s: string, pre: string, core: string, post: string)
    requires s != [] && IsSpace(s[|s| - 1]) && Splits(s[..|s| - 1], pre, core, post)
    ensures Splits(s, pre, core, post + [s[|s| - 1]])
  {
    assert s == s[..|s| - 1] + [s[|s| - 1]];
  }

  /** What trimming takes off is white space. */
  lemma {:induction false} TrimSplits(s: string) returns (pre: string, post: string)
    ensures Splits(s, pre, TrimSpace(s), post)
    decreases |s|
  {
    if s == [] || Solid(s) {
      pre, post := "", "";
    } else if IsSpace(s[0]) {
      var inner, outer := TrimSplits(s[1..]);
      SplitBefore(s, inner, TrimSpace(s), outer);
      pre, post := [s[0]] + inner, outer;
    } else {
      var outer, inner := TrimSplits(s[..|s| - 1]);
      SplitAfter(s, outer, TrimSpace(s), inner);
      pre, post := outer, inner + [s[|s| - 1]];
    }
  }

  // ----- Durations are exactly what parses -----

  lemma SpelledParses(s: string, pre: string, sign: string, digits: string, unit: char, post: string, n: int)
    requires Spelled(s, pre, sign, digits, unit, post, n) && (unit == 'd' || unit == 'h')
    ensures ParseDuration(s, unit) == if Fits64(n) then Some(n) else None
    ensures forall other :: other != unit ==> ParseDuration(s, other).None?
  {
    var core := sign + digits + [unit];
    assert core[0] == if sign == "" then digits[0] else sign[0];
    assert core[|core| - 1] == unit && core[..|core| - 1] == sign + digits;
    TrimBoth(pre, core, post);
    AtoiReads(sign, digits, n);
  }

  lemma SplitIsSpelled(s: string, pre: string, t: string, number: string, sign: string, digits: string, unit: char,
                       post: string, n: int)
    requires Splits(s, pre, t, post) && t != [] && t[|t| - 1] == unit && t[..|t| - 1] == number
    requires number == sign + digits && digits != [] && DigitsOnly(digits)
    requires sign == "" || sign == "+" || sign == "-"
    requires n == if sign == "-" then -DigitsValue(digits) else DigitsValue(digits)
    ensures Spelled(s, pre, sign, digits, unit, post, n)
  {
    assert t == number + [unit];
  }

  lemma ParsedIsDuration(s: string, unit: char)
    requires ParseDuration(s, unit).Some?
    ensures Duration(s, unit, ParseDuration(s, unit).value)
  {
    var pre, post := TrimSplits(s);
    var t := TrimSpace(s);
    var sign, digits := AtoiSplits(t[..|t| - 1]);
    SplitIsSpelled(s, pre, t, t[..|t| - 1], sign, digits, unit, post, ParseDuration(s, unit).value);
  }

  lemma DurationParses(s: string, unit: char, n: int)
    requires Duration(s, unit, n) && (unit == 'd' || unit == 'h')
    ensures ParseDuration(s, unit) == if Fits64(n) then Some(n) else None
    ensures forall other :: other != unit ==> ParseDuration(s, other).None?
  {
    var pre, sign, digits, post :| Spelled(s, pre, sign, digits, unit, post, n);
    SpelledParses(s, pre, sign, digits, unit, post, n);
  }

  predicate Named(s: string) {
    s == "" || s == "monthly" || s == "weekly" || s == "daily"
  }

  lemma DigitIsNoName(s: string, i: int)
    requires 0 <= i < |s| && '0' <= s[i] <= '9'
    ensures !Named(s)
  {
  }

  /** The names of periods are not durations. */
  lemma NamesAreNotDurations(s: string, unit: char, n: int)
    requires Duration(s, unit, n) && (unit == 'd' || unit == 'h')
    ensures !Named(s)
  {
    var pre, sign, digits, post :| Spelled(s, pre, sign, digits, unit, post, n);
    assert s[|pre| + |sign|] == digits[0];
    DigitIsNoName(s, |pre| + |sign|);
  }

  /** Every period string: the three names, the empty string for months, a number of days from 1 to 31, or a number
      of hours from 1 to 24. Everything else is an error. */
  lemma PeriodsAreExactly(s: string)
    ensures ParsePeriod(s).Ok? <==>
            || Named(s)
            || (exists n :: 1 <= n <= 31 && Duration(s, 'd', n))
            || (exists n :: 1 <= n <= 24 && Duration(s, 'h', n))
    ensures forall n :: Duration(s, 'd', n) && 1 <= n <= 31 ==> ParsePeriod(s) == Ok(Days(n))
    ensures forall n :: Duration(s, 'h', n) && 1 <= n <= 24 ==> ParsePeriod(s) == Ok(Hours(n))
    ensures forall n :: Duration(s, 'd', n) && Fits64(n) && !(1 <= n <= 31) ==>
              ParsePeriod(s) == Err(DayDurationOutOfRange(n))
    ensures forall n :: Duration(s, 'h', n) && Fits64(n) && !(1 <= n <= 24) ==>
              ParsePeriod(s) == Err(HourDurationOutOfRange(n))
  {
    forall n | Duration(s, 'd', n)
      ensures !Named(s) && ParseDuration(s, 'd') == if Fits64(n) then Some(n) else None
    {
      NamesAreNotDurations(s, 'd', n);
      DurationParses(s, 'd', n);
    }
    forall n | Duration(s, 'h', n)
      ensures !Named(s) && ParseDuration(s, 'd').None? && ParseDuration(s, 'h') == if Fits64(n) then Some(n) else None
    {
      NamesAreNotDurations(s, 'h', n);
      DurationParses(s, 'h', n);
    }
    if ParseDuration(s, 'd').Some? {
      ParsedIsDuration(s, 'd');
    }
    if ParseDuration(s, 'h').Some? {
      ParsedIsDuration(s, 'h');
    }
  }

  // ----- The windows and labels of period strings -----

  lemma MonthNumber(y: int, m: int, k: int)
    requires 1 <= m <= 12 && k == 12 * y + m - 1
    ensures k / 12 == y && k % 12 == m - 1
  {
  }

  lemma MonthDays(y: int, m: int)
    requires 1 <= m <= 12
    ensures DaysInMonth(y, m) ==
            if m != 2 then 30 + (m + m / 8) % 2
            else if y % 400 == 0 || (y % 4 == 0 && y % 100 != 0) then 29 else 28
  {
  }

  /** The lengths of the months by a formula: 31 and 30 by turns, which shifts in August, and February apart. */
  lemma MonthLengthIs(y: int, m: int)
    requires 1 <= m <= 12
    ensures MonthLength(12 * y + m - 1) ==
            if m != 2 then 30 + (m + m / 8) % 2
            else if y % 400 == 0 || (y % 4 == 0 && y % 100 != 0) then 29 else 28
  {
    MonthNumber(y, m, 12 * y + m - 1);
    MonthDays(y, m);
  }

  /** A written week reads back: its year and its number. */
  lemma WeekTextReadsBack(year: int, week: int)
    requires 0 <= year <= 9999 && 1 <= week <= 53
    ensures var s := WeekText(year, week);
            && |s| == 8 && s[4..6] == "-W"
            && DigitsValue(s[..4]) == year && DigitsValue(s[6..]) == week
  {
    var s := WeekText(year, week);
    assert s[..4] == YearText(year) && s[6..] == Two(week);
    YearReadsBack(year);
    TwoReadsBack(week);
  }

  /** Day windows are calendar days. */
  lemma DailyWindow(t: Instant)
    ensures var day := DayOf(t);
            && ResolvePeriod("daily", t) == Ok(Window(Midnight(day), Midnight(day + 1)))
            && PeriodLabel("daily", t) == DateText(DateOf(day))
  {
    MidnightDay(DayOf(t));
  }

  lemma SameMonth(k: int, day: int, other: int)
    requires MonthStart(k) <= day < MonthStart(k + 1) && MonthStart(k) <= other < MonthStart(k + 1)
    ensures DateOf(day).year == DateOf(other).year && DateOf(day).month == DateOf(other).month
  {
    MonthUnique(day, k);
    MonthUnique(other, k);
  }

  lemma MonthLabelAt(first: int, next: int, d: Date, e: Date)
    requires d == DateOf(first) && d.year == e.year && d.month == e.month && 1 <= e.month <= 12
    ensures MonthlyLabel(DaysWindow(first, next)) == MonthText(e)
  {
    MidnightDay(first);
  }

  lemma MonthLabelOf(k: int, day: int)
    requires MonthStart(k) <= day < MonthStart(k + 1)
    ensures MonthlyLabel(MonthWindow(k)) == MonthText(DateOf(day))
  {
    MonthStartNext(k);
    SameMonth(k, MonthStart(k), day);
    MonthLabelAt(MonthStart(k), MonthStart(k + 1), DateOf(MonthStart(k)), DateOf(day));
  }

  lemma MonthWindowIs(t: Instant, k: int)
    requires MonthStart(k) <= DayOf(t) < MonthStart(k + 1)
    ensures WindowOf(Monthly, t) == MonthWindow(k)
  {
    MonthUnique(DayOf(t), k);
  }

  /** Month windows are calendar months, by name and by the empty string. */
  lemma MonthlyWindow(t: Instant, k: int)
    requires MonthStart(k) <= DayOf(t) < MonthStart(k + 1)
    ensures var w := Window(Midnight(MonthStart(k)), Midnight(MonthStart(k + 1)));
            && ResolvePeriod("monthly", t) == Ok(w) && ResolvePeriod("", t) == Ok(w)
            && PeriodLabel("monthly", t) == PeriodLabel("", t) == MonthText(DateOf(DayOf(t)))
  {
    MonthWindowIs(t, k);
    MonthLabelOf(k, DayOf(t));
  }

  lemma SlotSpanIs(first: int, next: int, x: int, n: int, from: int, to: int)
    requires 0 < n && 0 <= x && from == first + x / n * n && to == MinInt(from + n, next)
    ensures SlotSpan(first, next, x, n) == (from, to)
  {
    SlotStartIsQuotient(x, n);
  }

  lemma DaySpanIs(n: int, day: int, k: int, from: int, to: int)
    requires 1 <= n <= 31 && MonthStart(k) <= day < MonthStart(k + 1)
    requires from == MonthStart(k) + (day - MonthStart(k)) / n * n && to == MinInt(from + n, MonthStart(k + 1))
    ensures DaySpan(Days(n), day) == (from, to)
  {
    SlotSpanIs(MonthStart(k), MonthStart(k + 1), day - MonthStart(k), n, from, to);
    DaySlotOf(n, day, k);
  }

  lemma SpanLabelAt(w: Window, first: Date, last: Date)
    requires first == DateOf(DayOf(w.start)) && last == DateOf(DayOf(w.end - NANOS_PER_DAY))
    ensures SpanLabel(w) == DateText(first) + "/" + DateText(last)
  {
  }

  lemma SpanLabelOf(from: int, to: int)
    ensures SpanLabel(DaysWindow(from, to)) == DateText(DateOf(from)) + "/" + DateText(DateOf(to - 1))
  {
    MidnightDay(from);
    MidnightDay(to);
    SpanLabelAt(DaysWindow(from, to), DateOf(from), DateOf(to - 1));
  }

  lemma DaysWindowIs(s: string, n: int, t: Instant, from: int, to: int)
    requires ParsePeriod(s) == Ok(Days(n)) && 1 <= n <= 31 && DaySpan(Days(n), DayOf(t)) == (from, to)
    ensures ResolvePeriod(s, t) == Ok(DaysWindow(from, to)) && PeriodLabel(s, t) == SpanLabel(DaysWindow(from, to))
  {
  }

  /** A number of days from 1 to 31: slots of that many days counted from the start of the month, the last one cut
      off at its end, labelled by their first and last day. */
  lemma DaysWindows(s: string, n: int, t: Instant, k: int, from: int, to: int)
    requires Duration(s, 'd', n) && 1 <= n <= 31 && MonthStart(k) <= DayOf(t) < MonthStart(k + 1)
    requires from == MonthStart(k) + (DayOf(t) - MonthStart(k)) / n * n && to == MinInt(from + n, MonthStart(k + 1))
    ensures ResolvePeriod(s, t) == Ok(Window(Midnight(from), Midnight(to)))
    ensures PeriodLabel(s, t) == DateText(DateOf(from)) + "/" + DateText(DateOf(to - 1))
  {
    PeriodsAreExactly(s);
    DaySpanIs(n, DayOf(t), k, from, to);
    DaysWindowIs(s, n, t, from, to);
    SpanLabelOf(from, to);
  }

  lemma HoursWindowIs(n: int, t: Instant, from: int, to: int)
    requires 1 <= n <= 24 && from == HourOf(t) / n * n && to == MinInt(from + n, 24)
    ensures 0 <= from < to <= 24 && WindowOf(Hours(n), t) == HourSlot(DayOf(t), from, to)
  {
    SlotContains(HourOf(t), n);
    SlotStartIsQuotient(HourOf(t), n);
  }

  lemma FullHours(x: int, hours: int)
    requires x == hours * NANOS_PER_HOUR
    ensures x / NANOS_PER_HOUR == hours && x % NANOS_PER_HOUR == 0
  {
  }

  lemma HourAt(day: int, hour: int, t: Instant)
    requires 0 <= hour < 24 && t == Midnight(day) + hour * NANOS_PER_HOUR
    ensures DayOf(t) == day && HourOf(t) == hour && t % NANOS_PER_HOUR == 0
  {
    DayUnique(t, day);
    assert t % NANOS_PER_DAY == hour * NANOS_PER_HOUR;
    FullHours(hour * NANOS_PER_HOUR, hour);
    FullHours(t, 24 * day + hour);
  }

  lemma FullHourText(t: Instant, hour: int)
    requires HourOf(t) == hour && t % NANOS_PER_HOUR == 0
    ensures ClockText(t) == Two(hour) + ":00"
  {
    assert Two(0) == "00";
  }

  lemma ClockAt(day: int, hour: int, t: Instant)
    requires 0 <= hour < 24 && t == Midnight(day) + hour * NANOS_PER_HOUR
    ensures DayOf(t) == day && ClockText(t) == Two(hour) + ":00"
  {
    HourAt(day, hour, t);
    FullHourText(t, hour);
  }

  lemma HourSlotEdges(day: int, from: int, to: int)
    requires 0 <= from < to <= 24
    ensures var w := HourSlot(day, from, to);
            && DayOf(w.start) == day && ClockText(w.start) == Two(from) + ":00"
            && ClockText(w.end) == Two(if to == 24 then 0 else to) + ":00"
  {
    var w := HourSlot(day, from, to);
    ClockAt(day, from, w.start);
    if to == 24 {
      ClockAt(day + 1, 0, w.end);
    } else {
      ClockAt(day, to, w.end);
    }
  }

  lemma HoursLabelIs(s: string, n: int, t: Instant, w: Window, d: Date, start: string, end: string)
    requires ParsePeriod(s) == Ok(Hours(n)) && 1 <= n <= 24 && WindowOf(Hours(n), t) == w
    requires d == DateOf(DayOf(w.start)) && start == ClockText(w.start) && end == ClockText(w.end)
    ensures ResolvePeriod(s, t) == Ok(w) && PeriodLabel(s, t) == DateText(d) + "/" + start + "-" + end
  {
  }

  /** A number of hours from 1 to 24: slots of that many hours counted from midnight, the last one cut off at the
      next midnight, labelled by their day and hours. */
  lemma HoursWindows(s: string, n: int, t: Instant, from: int, to: int)
    requires Duration(s, 'h', n) && 1 <= n <= 24 && from == HourOf(t) / n * n && to == MinInt(from + n, 24)
    ensures 0 <= from < to <= 24 && ResolvePeriod(s, t) == Ok(HourSlot(DayOf(t), from, to))
    ensures PeriodLabel(s, t) ==
            DateText(DateOf(DayOf(t))) + "/" + (Two(from) + ":00") + "-" + (Two(if to == 24 then 0 else to) + ":00")
  {
    PeriodsAreExactly(s);
    HoursWindowIs(n, t, from, to);
    HourSlotEdges(DayOf(t), from, to);
    HoursLabelIs(s, n, t, HourSlot(DayOf(t), from, to), DateOf(DayOf(t)), Two(from) + ":00",
                 Two(if to == 24 then 0 else to) + ":00");
  }

  /** Anything else is an error, and is labelled by the month. */
  lemma OtherStringsFail(s: string, t: Instant)
    requires s != "" && s != "monthly" && s != "weekly" && s != "daily"
    requires forall n :: Duration(s, 'd', n) ==> !(1 <= n <= 31)
    requires forall n :: Duration(s, 'h', n) ==> !(1 <= n <= 24)
    ensures ResolvePeriod(s, t).Err? && PeriodLabel(s, t) == MonthText(DateOf(DayOf(t)))
  {
    PeriodsAreExactly(s);
  }
}

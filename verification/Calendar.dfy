/**
 * Proleptic Gregorian day arithmetic, in the terms of section 21.4.1 of ECMA-262, and the
 * billing-cycle steps built on it. A time is a number of milliseconds since the epoch, a day
 * a number of days since the epoch, and a month the number 12 * year + month.
 */
module Calendar {
  import opened Common

  const DAY_MS := 86_400_000

  datatype Interval = NoInterval | Monthly | Quarterly | SixMonth | Yearly

  function Day(time: int): int { time / DAY_MS }

  function DayFromYear(y: int): int {
    365 * (y - 1970) + (y - 1969) / 4 - (y - 1901) / 100 + (y - 1601) / 400
  }

  predicate IsLeap(y: int) { y % 4 == 0 && (y % 100 != 0 || y % 400 == 0) }

  /** Days of the year that precede month `k` (0 is January). */
  function DaysBefore(k: int, leap: bool): int
    requires 0 <= k < 12
  {
    (367 * k + 5) / 12 - if k < 2 then 0 else if leap then 1 else 2
  }

  function FirstDay(month: int): int {
    DayFromYear(month / 12) + DaysBefore(month % 12, IsLeap(month / 12))
  }

  function DaysInMonth(month: int): int {
    var k := month % 12;
    if k == 1 then if IsLeap(month / 12) then 29 else 28
    else if k in {3, 5, 8, 10} then 30 else 31
  }

  lemma Carry4(y: int)
    ensures (y - 1968) / 4 == (y - 1969) / 4 + if y % 4 == 0 then 1 else 0
  {}

  lemma Carry100(y: int)
    ensures (y - 1900) / 100 == (y - 1901) / 100 + if y % 100 == 0 then 1 else 0
  {}

  lemma Carry400(y: int)
    ensures (y - 1600) / 400 == (y - 1601) / 400 + if y % 400 == 0 then 1 else 0
  {}

  lemma LeapYears(y: int)
    ensures y % 100 == 0 ==> y % 4 == 0
    ensures y % 400 == 0 ==> y % 100 == 0
  {
    assert y % 100 == 0 ==> y == 4 * (25 * (y / 100));
    assert y % 400 == 0 ==> y == 100 * (4 * (y / 400));
  }

  /** `DayFromYear` leaves room for exactly the days of the year. */
  lemma YearLength(y: int)
    ensures DayFromYear(y + 1) == DayFromYear(y) + if IsLeap(y) then 366 else 365
  {
    Carry4(y); Carry100(y); Carry400(y); LeapYears(y);
  }

  lemma TableStep(k: int, leap: bool)
    requires 0 <= k < 11
    ensures DaysBefore(k + 1, leap) == DaysBefore(k, leap) +
            if k == 1 then if leap then 29 else 28 else if k in {3, 5, 8, 10} then 30 else 31
  {}

  /** Months tile the day line: each begins where the previous one's days run out. */
  lemma MonthTiles(month: int)
    ensures FirstDay(month + 1) == FirstDay(month) + DaysInMonth(month)
    ensures 28 <= DaysInMonth(month) <= 31
  {
    hide DayFromYear, IsLeap, DaysBefore;
    var y, k := month / 12, month % 12;
    if k == 11 {
      assert (month + 1) / 12 == y + 1 && (month + 1) % 12 == 0;
      YearLength(y);
      YearEnds();
    } else {
      assert (month + 1) / 12 == y && (month + 1) % 12 == k + 1;
      TableStep(k, IsLeap(y));
    }
  }

  lemma YearEnds()
    ensures DaysBefore(11, true) == 335 && DaysBefore(11, false) == 334
    ensures DaysBefore(0, true) == DaysBefore(0, false) == 0
  {}

  lemma {:induction false} FirstDayMonotone(a: int, b: int)
    requires a <= b
    ensures FirstDay(a) + 28 * (b - a) <= FirstDay(b) <= FirstDay(a) + 31 * (b - a)
    decreases b - a
  {
    hide FirstDay, DaysInMonth;
    if a < b {
      FirstDayMonotone(a, b - 1);
      MonthTiles(b - 1);
    }
  }

  /** The month a day falls in, found by walking from `guess`. */
  function MonthFrom(day: int, guess: int): (month: int)
    ensures FirstDay(month) <= day < FirstDay(month + 1)
    decreases day < FirstDay(guess), if day < FirstDay(guess) then FirstDay(guess) - day else day - FirstDay(guess)
  {
    hide FirstDay, DaysInMonth;
    MonthTiles(guess); MonthTiles(guess - 1);
    if day < FirstDay(guess) then MonthFrom(day, guess - 1)
    else if FirstDay(guess + 1) <= day then MonthFrom(day, guess + 1)
    else guess
  }

  function MonthOf(day: int): (month: int)
    ensures FirstDay(month) <= day < FirstDay(month + 1)
  {
    MonthFrom(day, 12 * 1970)
  }

  lemma MonthOfUnique(day: int, month: int)
    requires FirstDay(month) <= day < FirstDay(month + 1)
    ensures MonthOf(day) == month
  {
    hide FirstDay;
    var m := MonthOf(day);
    if m < month { FirstDayMonotone(m + 1, month); }
    if month < m { FirstDayMonotone(month + 1, m); }
  }

  function MonthStart(month: int): int { FirstDay(month) * DAY_MS }

  function StartOfMonth(now: int): int { MonthStart(MonthOf(Day(now))) }

  lemma MonthStartsBefore(now: int)
    ensures StartOfMonth(now) <= now < MonthStart(MonthOf(Day(now)) + 1)
  {
    hide FirstDay;
  }

  lemma MonthStartsIncrease(a: int, b: int)
    requires a < b
    ensures MonthStart(a) < MonthStart(b)
  {
    hide FirstDay;
    FirstDayMonotone(a, b);
  }

  /** `addMonthsClamped`: same day of month where it exists, else the month's last day. */
  function AddMonthsClamped(from: int, months: int): int {
    var day := Day(from);
    var target := MonthOf(day) + months;
    var dayOfMonth := day - FirstDay(MonthOf(day));
    (FirstDay(target) + Min(dayOfMonth, DaysInMonth(target) - 1)) * DAY_MS + from % DAY_MS
  }

  /** `addInterval`: every interval that is not longer is one month. */
  function AddInterval(from: int, interval: Interval): int {
    match interval
    case Yearly => AddMonthsClamped(from, 12)
    case SixMonth => AddMonthsClamped(from, 6) + 15 * DAY_MS
    case Quarterly => AddMonthsClamped(from, 3)
    case _ => AddMonthsClamped(from, 1)
  }

  /**
   * A cycle step never skips a month: it lands in exactly the month asked for, on the same
   * day of the month or that month's last day, at the same time of day.
   */
  lemma AddMonthsLands(from: int, months: int)
    ensures var to := AddMonthsClamped(from, months);
            var day, day' := Day(from), Day(to);
            && MonthOf(day') == MonthOf(day) + months
            && to % DAY_MS == from % DAY_MS
            && (day' - FirstDay(MonthOf(day')) == day - FirstDay(MonthOf(day))
                || (day' + 1 == FirstDay(MonthOf(day') + 1) && day' - FirstDay(MonthOf(day')) < day - FirstDay(MonthOf(day))))
  {
    hide FirstDay, DaysInMonth;
    var day := Day(from);
    var target := MonthOf(day) + months;
    var landed := FirstDay(target) + Min(day - FirstDay(MonthOf(day)), DaysInMonth(target) - 1);
    MonthTiles(target);
    assert Day(AddMonthsClamped(from, months)) == landed;
    MonthOfUnique(landed, target);
  }

  /**
   * The calendar in full: a day is 24 hours, 1 January 1970 is day 0, and the months have the
   * lengths of the Gregorian calendar, whatever the year.
   */
  lemma GregorianCalendar(y: int, k: nat, time: int)
    requires k < 12
    ensures 24 * 60 * 60 * 1000 * Day(time) <= time < 24 * 60 * 60 * 1000 * (Day(time) + 1)
    ensures FirstDay(12 * 1970) == 0
    ensures FirstDay(12 * y + k + 1) - FirstDay(12 * y + k) ==
            [31, if y % 4 == 0 && (y % 100 != 0 || y % 400 == 0) then 29 else 28, 31, 30, 31, 30, 31, 31, 30, 31, 30, 31][k]
  {
    EpochIsDayZero();
    MonthTiles(12 * y + k);
    MonthLengths(y, k);
    hide FirstDay, DaysInMonth;
  }

  lemma MonthLengths(y: int, k: nat)
    requires k < 12
    ensures DaysInMonth(12 * y + k) ==
            [31, if y % 4 == 0 && (y % 100 != 0 || y % 400 == 0) then 29 else 28, 31, 30, 31, 30, 31, 31, 30, 31, 30, 31][k]
  {
    assert (12 * y + k) / 12 == y && (12 * y + k) % 12 == k;
  }

  lemma EpochIsDayZero()
    ensures FirstDay(12 * 1970) == 0
  {}

  /** Days into the month, from 0, and milliseconds into the day. */
  function DayOfMonth(time: int): (day: nat)
    ensures day <= 30
  {
    hide FirstDay;
    FirstDayMonotone(MonthOf(Day(time)), MonthOf(Day(time)) + 1);
    Day(time) - FirstDay(MonthOf(Day(time)))
  }

  function TimeOfDay(time: int): int { time - 24 * 60 * 60 * 1000 * Day(time) }

  /** A month starts at midnight of its first day. */
  lemma MonthBegins(now: int)
    ensures var start := StartOfMonth(now);
            MonthOf(Day(start)) == MonthOf(Day(now)) && DayOfMonth(start) == 0 == TimeOfDay(start)
  {
    hide FirstDay;
    var month := MonthOf(Day(now));
    FirstDayMonotone(month, month + 1);
    assert Day(StartOfMonth(now)) == FirstDay(month);
    MonthOfUnique(FirstDay(month), month);
  }

  /**
   * `to` is `months` months after `from`: on the same day of the month, or on the month's last
   * day when it has no such day, at the same time of day.
   */
  ghost predicate Lands(from: int, months: int, to: int) {
    var month := MonthOf(Day(from)) + months;
    && MonthOf(Day(to)) == month
    && DayOfMonth(to) == Min(DayOfMonth(from), FirstDay(month + 1) - FirstDay(month) - 1)
    && TimeOfDay(to) == TimeOfDay(from)
  }

  /** There is only one such time. */
  lemma LandsOnce(from: int, months: int, to: int, other: int)
    requires Lands(from, months, to) && Lands(from, months, other)
    ensures to == other
  {
    hide FirstDay, MonthOf;
  }

  lemma ClampedLands(from: int, months: int)
    ensures Lands(from, months, AddMonthsClamped(from, months))
  {
    AddMonthsLands(from, months);
    hide FirstDay, DaysInMonth, MonthOf;
    MonthTiles(MonthOf(Day(from)) + months);
  }

  /** What each billing interval adds: 12, 3 or 1 months, or 6 months and 15 days. */
  lemma IntervalLands(from: int, interval: Interval)
    ensures interval == Yearly ==> Lands(from, 12, AddInterval(from, interval))
    ensures interval == Quarterly ==> Lands(from, 3, AddInterval(from, interval))
    ensures interval == Monthly || interval == NoInterval ==> Lands(from, 1, AddInterval(from, interval))
    ensures interval == SixMonth ==> Lands(from, 6, AddInterval(from, interval) - 15 * 24 * 60 * 60 * 1000)
  {
    hide Lands, AddMonthsClamped;
    forall months { ClampedLands(from, months); }
  }

  /** A paid cycle is never empty: every interval moves time forward by at least 28 days less clamping. */
  lemma AddIntervalAdvances(from: int, interval: Interval)
    ensures AddInterval(from, interval) > from
  {
    hide FirstDay, DaysInMonth;
    var months := match interval case Yearly => 12 case SixMonth => 6 case Quarterly => 3 case _ => 1;
    var day := Day(from);
    var m := MonthOf(day);
    AddMonthsLands(from, months);
    FirstDayMonotone(m + 1, m + months);
    var to := AddMonthsClamped(from, months);
    assert Day(to) >= FirstDay(m + months) > day;
  }

  /** `n` billing cycles after `from`. */
  function Cycles(from: int, interval: Interval, n: nat): int {
    if n == 0 then from else AddInterval(Cycles(from, interval, n - 1), interval)
  }

  lemma {:induction false} CyclesIncrease(from: int, interval: Interval, a: nat, b: nat)
    requires a < b
    ensures Cycles(from, interval, a) < Cycles(from, interval, b)
    decreases b
  {
    hide AddInterval;
    AddIntervalAdvances(Cycles(from, interval, b - 1), interval);
    if a < b - 1 { CyclesIncrease(from, interval, a, b - 1); }
  }

  /**
   * `n` cycles end in the month `n` intervals on, at the same time of day, and never on a later
   * day of the month; a half-yearly cycle's 15 days may carry each of its landings one month further.
   */
  lemma {:induction false} CyclesLand(from: int, interval: Interval, n: nat)
    ensures var m, to := MonthOf(Day(from)), Cycles(from, interval, n);
            && TimeOfDay(to) == TimeOfDay(from)
            && (interval == Yearly ==> MonthOf(Day(to)) == m + 12 * n)
            && (interval == Quarterly ==> MonthOf(Day(to)) == m + 3 * n)
            && (interval == Monthly || interval == NoInterval ==> MonthOf(Day(to)) == m + n)
            && (interval == SixMonth ==> m + 6 * n <= MonthOf(Day(to)) <= m + 7 * n)
            && (interval != SixMonth ==> DayOfMonth(to) <= DayOfMonth(from))
            && (interval != SixMonth && DayOfMonth(from) < 28 ==> DayOfMonth(to) == DayOfMonth(from))
  {
    hide FirstDay, MonthOf, AddInterval, Lands, DayOfMonth, TimeOfDay;
    if n > 0 {
      var before := Cycles(from, interval, n - 1);
      CyclesLand(from, interval, n - 1);
      IntervalLands(before, interval);
      var to := Cycles(from, interval, n);
      if interval == SixMonth {
        var landed := to - 15 * 24 * 60 * 60 * 1000;
        LandsIn(before, 6, landed);
        FifteenDays(landed);
      } else {
        LandsIn(before, match interval case Yearly => 12 case Quarterly => 3 case _ => 1, to);
      }
    }
  }

  lemma LandsIn(from: int, months: int, to: int)
    requires Lands(from, months, to)
    ensures MonthOf(Day(to)) == MonthOf(Day(from)) + months && TimeOfDay(to) == TimeOfDay(from)
    ensures DayOfMonth(to) <= DayOfMonth(from) && (DayOfMonth(from) < 28 ==> DayOfMonth(to) == DayOfMonth(from))
  {
    hide FirstDay, MonthOf, DayOfMonth;
    MonthTiles(MonthOf(Day(to)));
  }

  lemma FifteenDays(time: int)
    ensures var later := time + 15 * 24 * 60 * 60 * 1000;
            MonthOf(Day(time)) <= MonthOf(Day(later)) <= MonthOf(Day(time)) + 1 && TimeOfDay(later) == TimeOfDay(time)
  {
    hide FirstDay, DaysInMonth;
    var later := time + 15 * 24 * 60 * 60 * 1000;
    var m, m' := MonthOf(Day(time)), MonthOf(Day(later));
    assert Day(later) == Day(time) + 15;
    if m' < m { FirstDayMonotone(m' + 1, m); }
    if m + 1 < m' { FirstDayMonotone(m + 2, m'); MonthTiles(m + 1); }
  }
}

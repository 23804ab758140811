/** internal/service/email_report.go: the period a weekly or monthly report covers, for a site at a
    fixed offset from UTC. Times are counted in seconds; a local time is the UTC time plus the offset. */
module ReportPeriods {
  import opened Calendar

  const HOUR := 3600
  const DAY := 86400
  const ANCHOR := 14 * HOUR   // reportAnchorOffset

  datatype Interval = Weekly | Monthly | AdHoc

  /** A period with both ends included, in local time. */
  datatype Range = Range(from: int, to: int)

  /** The local calendar day of a local time. */
  function DayOf(t: int): int {
    t / DAY
  }

  /** time.Date: the local time with this date and clock. */
  function At(d: Date, clock: int): int
    requires 1 <= d.month <= 12
  {
    DayNumber(d) * DAY + clock
  }

  /** AddDate(0, 0, days): rebuilds the time from its date with the day moved. */
  function AddDays(t: int, days: int): int
    requires 1 <= DateOf(DayOf(t)).month <= 12
  {
    var d := DateOf(DayOf(t));
    At(d.(day := d.day + days), t % DAY)
  }

  const LAST_SECOND := 23 * HOUR + 59 * 60 + 59

  /** Days since the last Monday, from the weekday counted from Sunday. */
  function SinceMonday(day: int): int {
    if Weekday(day) - 1 < 0 then Weekday(day) - 1 + 7 else Weekday(day) - 1
  }

  function WeeklyRange(now: int): Range {
    DateOfRight(DayOf(now));
    var lastMonday := AddDays(now, -(7 + SinceMonday(DayOf(now))));
    DateOfRight(DayOf(lastMonday));
    var lastSunday := AddDays(lastMonday, 6);
    DateOfRight(DayOf(lastSunday));
    Range(At(DateOf(DayOf(lastMonday)), 0), At(DateOf(DayOf(lastSunday)), LAST_SECOND))
  }

  function MonthlyRange(now: int): Range {
    DateOfRight(DayOf(now));
    var firstOfThisMonth := At(DateOf(DayOf(now)).(day := 1), 0);
    DateOfRight(DayOf(firstOfThisMonth));
    var d := DateOf(DayOf(AddDays(firstOfThisMonth, -1)));
    DateOfRight(DayOf(AddDays(firstOfThisMonth, -1)));
    Range(At(d.(day := 1), 0), At(d, LAST_SECOND))
  }

  function CalcDateRange(trigger: int, offset: int, interval: Interval): Range {
    var now := trigger + ANCHOR + offset;
    match interval
    case Weekly => WeeklyRange(now)
    case Monthly => MonthlyRange(now)
    case AdHoc =>
      var to := trigger + offset;
      DateOfRight(DayOf(to));
      Range(AddDays(to, -7), to)
  }

  // ---- The intended periods ----------------------------------------------------------

  /** The Monday on or before a day. */
  function MondayOf(day: int): int {
    day - day % 7
  }

  /** The week of seven days that starts on the Monday with number `day`. */
  function Week(day: int): Range {
    Range(day * 86_400, (day + 7) * 86_400 - 1)
  }

  datatype Month = Month(year: int, month: int)

  predicate IsMonth(m: Month) {
    1 <= m.month <= 12
  }

  function Next(m: Month): Month {
    if m.month == 12 then Month(m.year + 1, 1) else Month(m.year, m.month + 1)
  }

  function FirstDay(m: Month): int
    requires IsMonth(m)
  {
    DayNumber(Date(m.year, m.month, 1))
  }

  /** From the first second of the month to the last second of its last day. */
  function WholeMonth(m: Month): Range
    requires IsMonth(m)
  {
    Range(FirstDay(m) * 86_400, (FirstDay(m) + DaysIn(m.year, m.month)) * 86_400 - 1)
  }

  lemma SplitTime(day: int, clock: int)
    requires 0 <= clock < 86_400
    ensures DayOf(day * 86_400 + clock) == day && (day * 86_400 + clock) % 86_400 == clock
  {
    Quotient(day * 86_400 + clock, 86_400, day);
  }

  lemma DayBounds(t: int)
    ensures DayOf(t) * 86_400 <= t < DayOf(t) * 86_400 + 86_400 && t == DayOf(t) * 86_400 + t % 86_400
  {
  }

  lemma AddDaysRight(t: int, days: int)
    ensures IsDate(DateOf(DayOf(t))) && AddDays(t, days) == t + days * 86_400
    ensures DayOf(AddDays(t, days)) == DayOf(t) + days
  {
    DateOfRight(DayOf(t));
    DayBounds(t);
    SplitTime(DayOf(t) + days, t % 86_400);
  }

  lemma SinceMondayRight(day: int)
    ensures SinceMonday(day) == day % 7
  {
    var q := day / 7;
    if day % 7 == 6 {
      Quotient(day + 1, 7, q + 1);
    } else {
      Quotient(day + 1, 7, q);
    }
  }

  lemma MondayIs(day: int, monday: int)
    requires monday % 7 == 0 && monday <= day < monday + 7
    ensures MondayOf(day) == monday
  {
    Quotient(day, 7, monday / 7);
  }

  /** Months follow each other without a gap, over the turn of the year too. */
  lemma NextFirstDay(m: Month)
    requires IsMonth(m)
    ensures IsMonth(Next(m)) && FirstDay(Next(m)) == FirstDay(m) + DaysIn(m.year, m.month)
  {
    if m.month == 12 {
      MonthsOfYear(m.year);
      YearStep(m.year);
    }
  }

  /** The weekly range is the week before the local Monday of the anchor. */
  lemma WeeklyIs(now: int)
    ensures WeeklyRange(now) == Week(MondayOf(DayOf(now)) - 7)
  {
    hide DateOf;
    var day := DayOf(now);
    SinceMondayRight(day);
    AddDaysRight(now, -(7 + SinceMonday(day)));
    var lastMonday := AddDays(now, -(7 + SinceMonday(day)));
    AddDaysRight(lastMonday, 6);
    DateOfRight(DayOf(lastMonday));
    DateOfRight(DayOf(AddDays(lastMonday, 6)));
  }

  /** The monthly range is the month before the local month of the anchor. */
  lemma MonthlyIs(now: int, m: Month)
    requires IsMonth(m)
    requires var d := DateOf(DayOf(now)); Next(m) == Month(d.year, d.month)
    ensures MonthlyRange(now) == WholeMonth(m)
  {
    hide DateOf;
    DateOfRight(DayOf(now));
    NextFirstDay(m);
    var first := FirstDay(Next(m));
    SplitTime(first, 0);
    AddDaysRight(first * 86_400, -1);
    DateOfDayNumber(Date(m.year, m.month, DaysIn(m.year, m.month)));
  }

  predicate Inhabited(offset: int) {
    -12 * 3600 <= offset <= 14 * 3600
  }

  /** For every offset the run of Monday 00:00 UTC, even one up to 140 hours late, reports the Monday to
      Sunday that ended with that Monday. */
  lemma WeeklyTrigger(monday: int, late: int, offset: int)
    requires monday % 7 == 0 && Inhabited(offset) && 0 <= late < 140 * 3600
    ensures CalcDateRange(monday * 86_400 + late, offset, Weekly) == Week(monday - 7)
  {
    hide WeeklyRange;
    var now := monday * 86_400 + late + ANCHOR + offset;
    DayBounds(now);
    assert monday * 86_400 <= now < (monday + 7) * 86_400;
    MondayIs(DayOf(now), monday);
    WeeklyIs(now);
  }

  /** The exact room there is: the run reports that week exactly when what it is late by, the anchor's 14 hours and
      the offset add up to less than a week and not less than nothing. */
  lemma WeeklyRightIff(monday: int, late: int, offset: int)
    requires monday % 7 == 0
    ensures CalcDateRange(monday * 86_400 + late, offset, Weekly) == Week(monday - 7) <==>
              0 <= late + 50_400 + offset < 604_800
  {
    hide WeeklyRange;
    var now := monday * 86_400 + late + ANCHOR + offset;
    DayBounds(now);
    WeeklyIs(now);
    var day := DayOf(now);
    if monday <= day < monday + 7 {
      MondayIs(day, monday);
    }
  }

  /** The run on the first of a month at 01:00 UTC, even one up to 26 days late, reports the whole month
      before, whatever its length. */
  lemma MonthlyTrigger(m: Month, late: int, offset: int)
    requires IsMonth(m) && Inhabited(offset) && 0 <= late < 26 * 86_400
    ensures IsMonth(Next(m))
    ensures CalcDateRange(FirstDay(Next(m)) * 86_400 + 3600 + late, offset, Monthly) == WholeMonth(m)
  {
    hide MonthlyRange, DateOf;
    var n := Next(m);
    var now := FirstDay(n) * 86_400 + 3600 + late + ANCHOR + offset;
    DayBounds(now);
    var k := DayOf(now) - FirstDay(n);
    assert 0 <= k < 28;
    DateOfDayNumber(Date(n.year, n.month, 1 + k));
    MonthlyIs(now, m);
  }

  /** Consecutive runs leave no gap and do not overlap. */
  lemma ConsecutiveTile(monday: int, m: Month, late: int, late': int, offset: int)
    requires monday % 7 == 0 && IsMonth(m) && Inhabited(offset)
    requires 0 <= late < 140 * 3600 && 0 <= late' < 140 * 3600
    ensures CalcDateRange(monday * 86_400 + late, offset, Weekly).to + 1
         == CalcDateRange((monday + 7) * 86_400 + late', offset, Weekly).from
    ensures IsMonth(Next(m)) && IsMonth(Next(Next(m)))
    ensures CalcDateRange(FirstDay(Next(m)) * 86_400 + 3600 + late, offset, Monthly).to + 1
         == CalcDateRange(FirstDay(Next(Next(m))) * 86_400 + 3600 + late', offset, Monthly).from
  {
    hide CalcDateRange;
    WeeklyTrigger(monday, late, offset);
    WeeklyTrigger(monday + 7, late', offset);
    NextFirstDay(m);
    MonthlyTrigger(m, late, offset);
    MonthlyTrigger(Next(m), late', offset);
  }

  predicate In(t: int, r: Range) {
    r.from <= t <= r.to
  }

  /** Every moment is in the range of exactly one weekly run. */
  lemma InOneWeek(t: int, offset: int) returns (monday: int)
    requires Inhabited(offset)
    ensures monday % 7 == 0 && In(t, CalcDateRange(monday * 86_400, offset, Weekly))
    ensures forall n :: n % 7 == 0 && In(t, CalcDateRange(n * 86_400, offset, Weekly)) ==> n == monday
  {
    hide CalcDateRange;
    DayBounds(t);
    var day := DayOf(t);
    monday := MondayOf(day) + 7;
    Quotient(monday, 7, day / 7 + 1);
    WeeklyTrigger(monday, 0, offset);
    forall n | n % 7 == 0 && In(t, CalcDateRange(n * 86_400, offset, Weekly)) ensures n == monday {
      WeeklyTrigger(n, 0, offset);
      Quotient(n - 7, 7, n / 7 - 1);
      MondayIs(day, n - 7);
    }
  }

  lemma MonthOfDay(day: int, m: Month)
    requires IsMonth(m) && FirstDay(m) <= day < FirstDay(m) + DaysIn(m.year, m.month)
    ensures m == Month(DateOf(day).year, DateOf(day).month)
  {
    hide DateOf;
    DateOfDayNumber(Date(m.year, m.month, 1 + day - FirstDay(m)));
  }

  lemma InMonth(t: int, m: Month)
    requires IsMonth(m) && In(t, WholeMonth(m))
    ensures m == Month(DateOf(DayOf(t)).year, DateOf(DayOf(t)).month)
  {
    DayBounds(t);
    MonthOfDay(DayOf(t), m);
  }

  /** Every moment is in the range of exactly one monthly run. */
  lemma InOneMonth(t: int, offset: int) returns (m: Month)
    requires Inhabited(offset)
    ensures IsMonth(m) && IsMonth(Next(m))
    ensures In(t, CalcDateRange(FirstDay(Next(m)) * 86_400 + 3600, offset, Monthly))
    ensures forall n ::
      IsMonth(n) && IsMonth(Next(n)) && In(t, CalcDateRange(FirstDay(Next(n)) * 86_400 + 3600, offset, Monthly)) ==>
        n == m
  {
    hide CalcDateRange;
    var d := DateOf(DayOf(t));
    DateOfRight(DayOf(t));
    DayBounds(t);
    m := Month(d.year, d.month);
    MonthlyTrigger(m, 0, offset);
    forall n |
      IsMonth(n) && IsMonth(Next(n)) && In(t, CalcDateRange(FirstDay(Next(n)) * 86_400 + 3600, offset, Monthly))
      ensures n == m
    {
      MonthlyTrigger(n, 0, offset);
      InMonth(t, n);
    }
  }

  /** What the shift of the anchor is for: without it the run of Monday 00:00 UTC reports the week just
      over only for sites that are not west of UTC. */
  lemma UnshiftedRightIff(monday: int, offset: int)
    requires monday % 7 == 0 && Inhabited(offset)
    ensures WeeklyRange(monday * 86_400 + offset) == Week(monday - 7) <==> offset >= 0
  {
    hide WeeklyRange;
    var now := monday * 86_400 + offset;
    DayBounds(now);
    WeeklyIs(now);
    if offset >= 0 {
      MondayIs(DayOf(now), monday);
    } else {
      Quotient(monday - 7, 7, monday / 7 - 1);
      MondayIs(DayOf(now), monday - 7);
    }
  }

  /** Any other report covers the 168 hours before its run. */
  lemma AdHocIs(trigger: int, offset: int)
    ensures CalcDateRange(trigger, offset, AdHoc) == Range(trigger + offset - 7 * 86_400, trigger + offset)
  {
    AddDaysRight(trigger + offset, -7);
  }
}

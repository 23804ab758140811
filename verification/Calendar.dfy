/** The proleptic Gregorian calendar of Go's time package, on day numbers. Day 0 is Monday, the first
    of January of the year 1. */
module Calendar {

  datatype Date = Date(year: int, month: int, day: int)

  predicate Leap(y: int) {
    y % 4 == 0 && (y % 100 != 0 || y % 400 == 0)
  }

  function DaysIn(y: int, m: int): (n: int)
    ensures 28 <= n <= 31
  {
    if m == 2 then if Leap(y) then 29 else 28
    else if m == 4 || m == 6 || m == 9 || m == 11 then 30
    else 31
  }

  function DaysBeforeYear(y: int): int {
    365 * (y - 1) + (y - 1) / 4 - (y - 1) / 100 + (y - 1) / 400
  }

  function DaysBeforeMonth(y: int, m: int): int
    requires 1 <= m <= 13
    decreases m
  {
    if m == 1 then 0 else DaysBeforeMonth(y, m - 1) + DaysIn(y, m - 1)
  }

  predicate IsDate(d: Date) {
    1 <= d.month <= 12 && 1 <= d.day <= DaysIn(d.year, d.month)
  }

  /** The day number; a day outside the month counts on from its first day, as in time.Date. */
  function DayNumber(d: Date): int
    requires 1 <= d.month <= 12
  {
    DaysBeforeYear(d.year) + DaysBeforeMonth(d.year, d.month) + d.day - 1
  }

  // ---- From day numbers to dates -----------------------------------------------------

  /** Year and day of the year, by cycles of 400, 100, 4 and 1 years. */
  function YearOf(n: int): (r: (int, int)) {
    var n400 := n / 146097;
    var d1 := n % 146097;
    var n100 := if d1 / 36524 == 4 then 3 else d1 / 36524;
    var d2 := d1 - 36524 * n100;
    var n4 := d2 / 1461;
    var d3 := d2 % 1461;
    var n1 := if d3 / 365 == 4 then 3 else d3 / 365;
    (400 * n400 + 100 * n100 + 4 * n4 + n1 + 1, d3 - 365 * n1)
  }

  function MonthOf(y: int, yday: int, m: int): int
    requires 1 <= m <= 12
    decreases 12 - m
  {
    if m == 12 || yday < DaysBeforeMonth(y, m + 1) then m else MonthOf(y, yday, m + 1)
  }

  function DateOf(n: int): Date {
    var (y, yday) := YearOf(n);
    var m := MonthOf(y, yday, 1);
    Date(y, m, if 1 <= m <= 12 then yday - DaysBeforeMonth(y, m) + 1 else 0)
  }

  function YearLength(y: int): int {
    if Leap(y) then 366 else 365
  }

  lemma Multiples(d: int, a: int, b: int)
    requires d > 0
    ensures a <= b ==> d * a <= d * b
  {
  }

  /** The quotient is the one number that fits. */
  lemma Quotient(x: int, d: int, q: int)
    requires d > 0 && d * q <= x < d * q + d
    ensures x / d == q && x % d == x - d * q
  {
    var k := x / d;
    assert d * k + x % d == x;
    Multiples(d, k + 1, q);
    Multiples(d, q + 1, k);
  }

  lemma QuotientStep(x: int, d: int)
    requires d > 1
    ensures (x + 1) / d == x / d + if (x + 1) % d == 0 then 1 else 0
  {
    var q := x / d;
    assert d * q <= x < d * q + d;
    if x + 1 == d * q + d {
      assert d * (q + 1) == d * q + d;
      Quotient(x + 1, d, q + 1);
    } else {
      Quotient(x + 1, d, q);
    }
  }

  lemma LeapDays(y: int)
    ensures y % 400 == 0 ==> y % 100 == 0
    ensures y % 100 == 0 ==> y % 4 == 0
  {
    var a, b := y / 400, y / 100;
    if y % 400 == 0 {
      Quotient(y, 100, 4 * a);
    }
    if y % 100 == 0 {
      Quotient(y, 4, 25 * b);
    }
  }

  lemma YearStep(y: int)
    ensures DaysBeforeYear(y + 1) == DaysBeforeYear(y) + YearLength(y)
  {
    QuotientStep(y - 1, 4);
    QuotientStep(y - 1, 100);
    QuotientStep(y - 1, 400);
    LeapDays(y);
  }

  lemma MonthsOfYear(y: int)
    ensures DaysBeforeMonth(y, 13) == YearLength(y)
  {
    assert DaysBeforeMonth(y, 4) == DaysBeforeMonth(y, 3) + 31;
    assert DaysBeforeMonth(y, 7) == DaysBeforeMonth(y, 4) + 91;
    assert DaysBeforeMonth(y, 10) == DaysBeforeMonth(y, 7) + 92;
    assert DaysBeforeMonth(y, 13) == DaysBeforeMonth(y, 10) + 92;
  }

  /** The number of the last year before the one found, taken apart. */
  lemma Cycles(n400: int, n100: int, n4: int, n1: int)
    requires 0 <= n100 <= 3 && 0 <= n4 <= 24 && 0 <= n1 <= 3
    ensures var y := 400 * n400 + 100 * n100 + 4 * n4 + n1 + 1;
            && DaysBeforeYear(y) == 146097 * n400 + 36524 * n100 + 1461 * n4 + 365 * n1
            && (Leap(y) <==> n1 == 3 && (n4 < 24 || n100 == 3))
  {
    var x := 400 * n400 + 100 * n100 + 4 * n4 + n1;
    Quotient(x, 400, n400);
    Quotient(x, 100, 4 * n400 + n100);
    Quotient(x, 4, 100 * n400 + 25 * n100 + n4);
    QuotientStep(x, 400);
    QuotientStep(x, 100);
    QuotientStep(x, 4);
    if n1 == 3 {
      Quotient(x + 1, 4, 100 * n400 + 25 * n100 + n4 + 1);
      if n4 == 24 {
        Quotient(x + 1, 100, 4 * n400 + n100 + 1);
        if n100 == 3 {
          Quotient(x + 1, 400, n400 + 1);
        } else {
          Quotient(x + 1, 400, n400);
        }
      } else {
        Quotient(x + 1, 100, 4 * n400 + n100);
      }
    } else {
      Quotient(x + 1, 4, 100 * n400 + 25 * n100 + n4);
    }
  }

  lemma YearOfRight(n: int)
    ensures var (y, yday) := YearOf(n);
            n == DaysBeforeYear(y) + yday && 0 <= yday < YearLength(y)
  {
    var n400 := n / 146097;
    var d1 := n % 146097;
    var n100 := if d1 / 36524 == 4 then 3 else d1 / 36524;
    var d2 := d1 - 36524 * n100;
    var n4 := d2 / 1461;
    var d3 := d2 % 1461;
    var n1 := if d3 / 365 == 4 then 3 else d3 / 365;
    Cycles(n400, n100, n4, n1);
  }

  lemma {:induction false} MonthOfRight(y: int, yday: int, m: int)
    requires 1 <= m <= 12 && DaysBeforeMonth(y, m) <= yday < YearLength(y)
    ensures var k := MonthOf(y, yday, m);
            m <= k <= 12 && DaysBeforeMonth(y, k) <= yday < DaysBeforeMonth(y, k) + DaysIn(y, k)
    decreases 12 - m
  {
    MonthsOfYear(y);
    if m < 12 && yday >= DaysBeforeMonth(y, m + 1) {
      MonthOfRight(y, yday, m + 1);
    }
  }

  /** Every day number is the number of its date. */
  lemma DateOfRight(n: int)
    ensures IsDate(DateOf(n)) && DayNumber(DateOf(n)) == n
  {
    var (y, yday) := YearOf(n);
    YearOfRight(n);
    MonthOfRight(y, yday, 1);
  }

  lemma {:induction false} YearsApart(y: int, z: int)
    requires y < z
    ensures DaysBeforeYear(y) + YearLength(y) <= DaysBeforeYear(z)
    decreases z - y
  {
    YearStep(z - 1);
    if y < z - 1 {
      YearsApart(y, z - 1);
    }
  }

  lemma {:induction false} MonthsApart(y: int, m: int, k: int)
    requires 1 <= m < k <= 13
    ensures DaysBeforeMonth(y, m) + DaysIn(y, m) <= DaysBeforeMonth(y, k)
    decreases k - m
  {
    if m < k - 1 {
      MonthsApart(y, m, k - 1);
    }
  }

  lemma InYear(d: Date)
    requires IsDate(d)
    ensures DaysBeforeYear(d.year) <= DayNumber(d) < DaysBeforeYear(d.year) + YearLength(d.year)
  {
    MonthsOfYear(d.year);
    MonthsApart(d.year, d.month, 13);
    if d.month > 1 {
      MonthsApart(d.year, 1, d.month);
    }
  }

  /** Different dates have different numbers. */
  lemma DayNumberInjective(d: Date, e: Date)
    requires IsDate(d) && IsDate(e) && DayNumber(d) == DayNumber(e)
    ensures d == e
  {
    InYear(d);
    InYear(e);
    if d.year < e.year {
      YearsApart(d.year, e.year);
    } else if e.year < d.year {
      YearsApart(e.year, d.year);
    } else if d.month < e.month {
      MonthsApart(d.year, d.month, e.month);
    } else if e.month < d.month {
      MonthsApart(d.year, e.month, d.month);
    }
  }

  /** The other half of the round trip. */
  lemma DateOfDayNumber(d: Date)
    requires IsDate(d)
    ensures DateOf(DayNumber(d)) == d
  {
    DateOfRight(DayNumber(d));
    DayNumberInjective(DateOf(DayNumber(d)), d);
  }

  /** Dates follow each other as the Gregorian calendar has them, from the first of January of the year 1 on,
      and day 719162 is the first of January 1970. */
  lemma NextDate(n: int)
    ensures var d := DateOf(n);
            var last := if d.month == 2 then
                          if d.year % 4 == 0 && (d.year % 100 != 0 || d.year % 400 == 0) then 29 else 28
                        else if d.month in {4, 6, 9, 11} then 30
                        else 31;
            && 1 <= d.month <= 12 && 1 <= d.day <= last
            && DateOf(n + 1) == if d.day < last then Date(d.year, d.month, d.day + 1)
                                else if d.month < 12 then Date(d.year, d.month + 1, 1)
                                else Date(d.year + 1, 1, 1)
    ensures DateOf(0) == Date(1, 1, 1) && DateOf(719162) == Date(1970, 1, 1)
  {
    hide DateOf;
    DateOfRight(n);
    var d := DateOf(n);
    var e := if d.day < DaysIn(d.year, d.month) then Date(d.year, d.month, d.day + 1)
             else if d.month < 12 then Date(d.year, d.month + 1, 1)
             else Date(d.year + 1, 1, 1);
    if d.month == 12 {
      MonthsOfYear(d.year);
      YearStep(d.year);
    }
    DateOfDayNumber(e);
    DateOfDayNumber(Date(1, 1, 1));
    DateOfDayNumber(Date(1970, 1, 1));
  }

  /** 0 is Sunday, as in time.Weekday. */
  function Weekday(n: int): int {
    (n + 1) % 7
  }

  /** Weekdays follow each other, and the first of January 1970 was a Thursday. */
  lemma NextWeekday(n: int)
    ensures Weekday(n + 1) == if Weekday(n) == 6 then 0 else Weekday(n) + 1
    ensures 0 <= Weekday(n) <= 6 && Weekday(719162) == 4
  {
    var q := (n + 1) / 7;
    if (n + 1) % 7 == 6 {
      Quotient(n + 2, 7, q + 1);
    } else {
      Quotient(n + 2, 7, q);
    }
  }
}

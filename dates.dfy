/** Calendar dates in the proleptic Gregorian calendar, as Go's time package
    computes them. Times of day and time zones are not modelled; the zone
    time.Local is taken to be UTC, so the zero time.Time is the date
    0001-01-01. */
module Dates {

  datatype Date = Date(year: int, month: int, day: int)

  /** The date of Go's zero time.Time (time.Time{}.IsZero()). */
  const Zero: Date := Date(1, 1, 1)

  /** Go's leap-year rule (time.isLeap). Divisibility does not depend on the
      rounding of %, so this also holds for negative years. */
  predicate IsLeap(y: int)
  {
    y % 4 == 0 && (y % 100 != 0 || y % 400 == 0)
  }

  /** Number of days of month m of year y (time.daysIn). */
  function DaysIn(y: int, m: int): (n: int)
    requires 1 <= m <= 12
    ensures 28 <= n <= 31
    ensures n == 31 <==> m in {1, 3, 5, 7, 8, 10, 12}
    ensures n == 30 <==> m in {4, 6, 9, 11}
    ensures m == 2 ==> (n == 29 <==> IsLeap(y))
  {
    if m == 2 then (if IsLeap(y) then 29 else 28)
    else if m in {4, 6, 9, 11} then 30
    else 31
  }

  predicate ValidDate(d: Date)
  {
    1 <= d.month <= 12 && 1 <= d.day <= DaysIn(d.year, d.month)
  }

  /** Days from 1970-01-01 to the given day (the civil-from-days algorithm
      run backwards; / and % round towards minus infinity here). */
  function DaysFromCivil(y: int, m: int, d: int): int
    requires 1 <= m <= 12
  {
    var yy := if m <= 2 then y - 1 else y;
    var era := yy / 400;
    var yoe := yy - era * 400;
    var mp := if m > 2 then m - 3 else m + 9;
    var doy := (153 * mp + 2) / 5 + d - 1;
    var doe := yoe * 365 + yoe / 4 - yoe / 100 + doy;
    era * 146097 + doe - 719468
  }

  /** Day of the week, 0 = Sunday … 6 = Saturday (time.Weekday). */
  function Weekday(d: Date): (w: int)
    requires 1 <= d.month <= 12
    ensures 0 <= w < 7
  {
    (DaysFromCivil(d.year, d.month, d.day) + 4) % 7
  }

  /** Within one month, the weekday advances by one per day. */
  lemma WeekdayInMonth(y: int, m: int, d: int)
    requires 1 <= m <= 12
    ensures Weekday(Date(y, m, d)) == (Weekday(Date(y, m, 1)) + d - 1) % 7
  {
    var x := DaysFromCivil(y, m, 1) + 4;
    assert DaysFromCivil(y, m, d) == DaysFromCivil(y, m, 1) + d - 1;
    ModShift(x, d - 1);
  }

  /** Adding to a number or to its remainder leaves the same remainder. */
  lemma ModShift(x: int, k: int)
    ensures (x + k) % 7 == (x % 7 + k) % 7
  {
    var q := x / 7;
    assert x == q * 7 + x % 7;
    assert x + k == q * 7 + (x % 7 + k);
    ModMultiple(q, x % 7 + k);
  }

  lemma ModMultiple(q: int, r: int)
    ensures (q * 7 + r) % 7 == r % 7
  {
  }

  /** 1970-01-01 was a Thursday and 2024-01-01 a Monday. */
  lemma WeekdayAnchors()
    ensures Weekday(Date(1970, 1, 1)) == 4
    ensures Weekday(Date(2024, 1, 1)) == 1
    ensures Weekday(Date(2000, 2, 29)) == 2
  {
    assert DaysFromCivil(1970, 1, 1) == 0;
    assert DaysFromCivil(2024, 1, 1) == 19723;
    assert DaysFromCivil(2000, 2, 29) == 11016;
  }

  /** Index of a month on a line that counts months from year 0. */
  function MonthIndex(d: Date): int
  {
    d.year * 12 + d.month - 1
  }

  /** d.AddDate(0, 0, 1) for a valid date. */
  function NextDay(d: Date): (r: Date)
    requires ValidDate(d)
    ensures ValidDate(r)
    ensures r.year == d.year && r.month == d.month <==> d.day < DaysIn(d.year, d.month)
    ensures d.day < DaysIn(d.year, d.month) ==> r.day == d.day + 1
    ensures d.day == DaysIn(d.year, d.month) ==> r.day == 1 && MonthIndex(r) == MonthIndex(d) + 1
  {
    if d.day < DaysIn(d.year, d.month) then Date(d.year, d.month, d.day + 1)
    else if d.month == 12 then Date(d.year + 1, 1, 1)
    else Date(d.year, d.month + 1, 1)
  }

  /** d.AddDate(0, k, 0) for a valid date: the month moves by k with year
      carry, then a day beyond the end of the new month overflows into the
      following month, as time.Date normalises it. */
  function AddMonths(d: Date, k: int): (r: Date)
    requires ValidDate(d)
    ensures ValidDate(r)
  {
    var mm := d.month - 1 + k;
    var y := d.year + mm / 12;
    var m := mm % 12 + 1;
    var next := y * 12 + m;
    if d.day <= DaysIn(y, m) then Date(y, m, d.day)
    else Date(next / 12, next % 12 + 1, d.day - DaysIn(y, m))
  }

  /** On the first day of a month, AddMonths(d, k) is the first day of the
      month k months away: it never skips or repeats a month. */
  lemma {:induction false} AddMonthsFirstDay(d: Date, k: int)
    requires ValidDate(d) && d.day == 1
    ensures AddMonths(d, k).day == 1
    ensures MonthIndex(AddMonths(d, k)) == MonthIndex(d) + k
  {
    var mm := d.month - 1 + k;
    assert mm == (mm / 12) * 12 + mm % 12;
  }

  /** From the 31st of January, one month later is not in February: Go's
      normalisation of 31 February lands on 2 March (2024 is a leap year). */
  lemma AddMonthsSkipsFebruary()
    ensures ValidDate(Date(2024, 1, 31))
    ensures AddMonths(Date(2024, 1, 31), 1) == Date(2024, 3, 2)
  {
  }
}

/** The proleptic Gregorian calendar on whole days. Day number 0 is 1 January of year 0
    (a Saturday); days before it are negative. */
module Calendar {

  datatype Date = Date(year: int, month: int, day: int)

  predicate IsLeapYear(y: int) {
    y % 4 == 0 && (y % 100 != 0 || y % 400 == 0)
  }

  function DaysInYear(y: int): int {
    if IsLeapYear(y) then 366 else 365
  }

  function DaysInMonth(y: int, m: int): int
    requires 1 <= m <= 12
  {
    if m == 2 then (if IsLeapYear(y) then 29 else 28)
    else if m == 4 || m == 6 || m == 9 || m == 11 then 30
    else 31
  }

  predicate ValidDate(d: Date) {
    1 <= d.month <= 12 && 1 <= d.day <= DaysInMonth(d.year, d.month)
  }

  /** Day number of 1 January of year y: 365 days a year plus one for each leap year
      in [0, y) (counted negatively for y < 0). */
  function DaysBeforeYear(y: int): int {
    365 * y + (y + 3) / 4 - (y + 99) / 100 + (y + 399) / 400
  }

  /** Days of year y before the first of month m (m == 13 gives the whole year). */
  function DaysBeforeMonth(y: int, m: int): int
    requires 1 <= m <= 13
  {
    var leap := if IsLeapYear(y) then 1 else 0;
    match m
    case 1 => 0
    case 2 => 31
    case 3 => 59 + leap
    case 4 => 90 + leap
    case 5 => 120 + leap
    case 6 => 151 + leap
    case 7 => 181 + leap
    case 8 => 212 + leap
    case 9 => 243 + leap
    case 10 => 273 + leap
    case 11 => 304 + leap
    case 12 => 334 + leap
    case _ => 365 + leap
  }

  function DayNumber(d: Date): int
    requires ValidDate(d)
  {
    DaysBeforeYear(d.year) + DaysBeforeMonth(d.year, d.month) + d.day - 1
  }

  /** ISO 8601 weekday of a day number: 1 = Monday ... 7 = Sunday. */
  function IsoWeekday(z: int): (wd: int)
    ensures 1 <= wd <= 7
  {
    (z + 5) % 7 + 1
  }

  lemma MonthLength(y: int, m: int)
    requires 1 <= m <= 12
    ensures DaysBeforeMonth(y, m + 1) == DaysBeforeMonth(y, m) + DaysInMonth(y, m)
  {
  }

  /** The year-start formula advances by exactly the length of each year. */
  lemma YearLength(y: int)
    ensures DaysBeforeYear(y + 1) == DaysBeforeYear(y) + DaysInYear(y)
  {
    assert (y + 4) / 4 == (y + 3) / 4 + (if y % 4 == 0 then 1 else 0);
    assert (y + 100) / 100 == (y + 99) / 100 + (if y % 100 == 0 then 1 else 0);
    assert (y + 400) / 400 == (y + 399) / 400 + (if y % 400 == 0 then 1 else 0);
  }

  lemma {:induction false} DaysBeforeYearMonotone(a: int, b: int)
    requires a < b
    ensures DaysBeforeYear(a) < DaysBeforeYear(b)
    decreases b - a
  {
    YearLength(a);
    if a + 1 < b {
      DaysBeforeYearMonotone(a + 1, b);
    }
  }

  function YearDistance(z: int, y: int): nat {
    if z < DaysBeforeYear(y) then DaysBeforeYear(y) - z
    else if z >= DaysBeforeYear(y + 1) then z - DaysBeforeYear(y)
    else 0
  }

  /** The year that contains day z, found by stepping from year y. */
  function YearFrom(z: int, y: int): (r: int)
    ensures DaysBeforeYear(r) <= z < DaysBeforeYear(r + 1)
    decreases YearDistance(z, y)
  {
    if z < DaysBeforeYear(y) then
      YearLength(y - 1);
      YearFrom(z, y - 1)
    else if z >= DaysBeforeYear(y + 1) then
      YearLength(y);
      YearFrom(z, y + 1)
    else y
  }

  /** The month of year y that holds day-of-year doy (0-based). */
  function MonthOf(y: int, doy: int): (m: int)
    requires 0 <= doy < DaysInYear(y)
    ensures 1 <= m <= 12 && DaysBeforeMonth(y, m) <= doy < DaysBeforeMonth(y, m + 1)
  {
    if doy < DaysBeforeMonth(y, 2) then 1
    else if doy < DaysBeforeMonth(y, 3) then 2
    else if doy < DaysBeforeMonth(y, 4) then 3
    else if doy < DaysBeforeMonth(y, 5) then 4
    else if doy < DaysBeforeMonth(y, 6) then 5
    else if doy < DaysBeforeMonth(y, 7) then 6
    else if doy < DaysBeforeMonth(y, 8) then 7
    else if doy < DaysBeforeMonth(y, 9) then 8
    else if doy < DaysBeforeMonth(y, 10) then 9
    else if doy < DaysBeforeMonth(y, 11) then 10
    else if doy < DaysBeforeMonth(y, 12) then 11
    else 12
  }

  /** The calendar date of a day number: the (Y, n, j) that PHP's `format` prints. */
  function DateOfDay(z: int): (d: Date)
    ensures ValidDate(d) && DayNumber(d) == z
  {
    var y := YearFrom(z, 0);
    YearLength(y);
    var doy := z - DaysBeforeYear(y);
    var m := MonthOf(y, doy);
    MonthLength(y, m);
    Date(y, m, doy - DaysBeforeMonth(y, m) + 1)
  }

  /** Different valid dates have different day numbers, so DateOfDay inverts DayNumber. */
  lemma DateOfDayNumber(d: Date)
    requires ValidDate(d)
    ensures DateOfDay(DayNumber(d)) == d
  {
    var z := DayNumber(d);
    YearOfDayNumber(d);
    var doy := DaysBeforeMonth(d.year, d.month) + d.day - 1;
    MonthOfDayOfYear(d);
    assert z - DaysBeforeYear(d.year) == doy;
  }

  /** The year found for the day number of a valid date is that date's year. */
  lemma YearOfDayNumber(d: Date)
    requires ValidDate(d)
    ensures YearFrom(DayNumber(d), 0) == d.year
  {
    var z := DayNumber(d);
    MonthLength(d.year, d.month);
    MonthsOrdered(d.year, d.month, 12);
    YearLength(d.year);
    YearUnique(z, YearFrom(z, 0), d.year);
  }

  /** The month found for a day of the year of a valid date is that date's month. */
  lemma MonthOfDayOfYear(d: Date)
    requires ValidDate(d)
    ensures var doy := DaysBeforeMonth(d.year, d.month) + d.day - 1;
            0 <= doy < DaysInYear(d.year) && MonthOf(d.year, doy) == d.month
  {
    var doy := DaysBeforeMonth(d.year, d.month) + d.day - 1;
    MonthLength(d.year, d.month);
    MonthsOrdered(d.year, d.month, 12);
    MonthUnique(d.year, doy, MonthOf(d.year, doy), d.month);
  }

  /** Each day lies in exactly one year. */
  lemma YearUnique(z: int, a: int, b: int)
    requires DaysBeforeYear(a) <= z < DaysBeforeYear(a + 1)
    requires DaysBeforeYear(b) <= z < DaysBeforeYear(b + 1)
    ensures a == b
  {
    if a + 1 < b + 1 { MonotoneOrEqual(a + 1, b); }
    if b + 1 < a + 1 { MonotoneOrEqual(b + 1, a); }
  }

  lemma MonotoneOrEqual(a: int, b: int)
    requires a <= b
    ensures DaysBeforeYear(a) <= DaysBeforeYear(b)
  {
    if a < b { DaysBeforeYearMonotone(a, b); }
  }

  /** Each day of a year lies in exactly one month. */
  lemma MonthUnique(y: int, doy: int, a: int, b: int)
    requires 1 <= a <= 12 && 1 <= b <= 12
    requires DaysBeforeMonth(y, a) <= doy < DaysBeforeMonth(y, a + 1)
    requires DaysBeforeMonth(y, b) <= doy < DaysBeforeMonth(y, b + 1)
    ensures a == b
  {
    MonthsOrdered(y, a, b);
    MonthsOrdered(y, b, a);
  }

  lemma MonthsOrdered(y: int, a: int, b: int)
    requires 1 <= a <= 12 && 1 <= b <= 12
    ensures a < b ==> DaysBeforeMonth(y, a + 1) <= DaysBeforeMonth(y, b)
  {
  }
}

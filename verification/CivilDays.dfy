/** The closed formula for day numbers counts days: it is zero on 1970-01-01 and grows by one from
    each date to the next, through months, leap years and centuries. */
module CivilDays {
  import opened Calendar

  datatype Date = Date(year: int, month: int, day: int)

  predicate IsDate(d: Date) {
    1 <= d.month <= 12 && 1 <= d.day <= DaysInMonth(d.year, d.month)
  }

  function Number(d: Date): int {
    DayNumber(d.year, d.month, d.day)
  }

  function Next(d: Date): Date {
    if d.day < DaysInMonth(d.year, d.month) then d.(day := d.day + 1)
    else if d.month < 12 then Date(d.year, d.month + 1, 1)
    else Date(d.year + 1, 1, 1)
  }

  predicate Before(a: Date, b: Date) {
    a.year < b.year || (a.year == b.year && (a.month < b.month || (a.month == b.month && a.day < b.day)))
  }

  // ----- The formula as a year that starts in March -----

  function MarchYear(d: Date): int {
    if d.month <= 2 then d.year - 1 else d.year
  }

  function MarchMonth(month: int): int {
    if month > 2 then month - 3 else month + 9
  }

  /** Days from March 1 to the first of the month. */
  function MonthStart(month: int): int {
    (153 * MarchMonth(month) + 2) / 5
  }

  /** Days before March 1 of the year, up to a constant. */
  function YearStart(y: int): int {
    365 * y + y / 4 - y / 100 + y / 400
  }

  lemma Eras(y: int)
    ensures var era := y / 400; var yoe := y - era * 400;
            era * 146097 + (yoe * 365 + yoe / 4 - yoe / 100) == YearStart(y)
  {
    var era := y / 400;
    var yoe := y - era * 400;
    assert y / 4 == era * 100 + yoe / 4;
    assert y / 100 == era * 4 + yoe / 100;
  }

  lemma NumberIs(d: Date)
    ensures Number(d) == YearStart(MarchYear(d)) + MonthStart(d.month) + d.day - 1 - 719468
  {
    Eras(MarchYear(d));
  }

  /** A March year has 365 days, and one more when it ends in a leap February. */
  lemma YearLength(y: int)
    ensures YearStart(y + 1) - YearStart(y) == 365 + (if IsLeap(y + 1) then 1 else 0)
  {
    assert (y + 1) / 4 - y / 4 == if (y + 1) % 4 == 0 then 1 else 0;
    assert (y + 1) / 100 - y / 100 == if (y + 1) % 100 == 0 then 1 else 0;
    assert (y + 1) / 400 - y / 400 == if (y + 1) % 400 == 0 then 1 else 0;
  }

  /** Months other than February end where the next one starts. */
  lemma MonthLength(year: int, month: int)
    requires month in {1, 3, 4, 5, 6, 7, 8, 9, 10, 11, 12}
    ensures MonthStart(month) + DaysInMonth(year, month) == if month == 12 then MonthStart(1) else MonthStart(month + 1)
  {
  }

  lemma Epoch()
    ensures Number(Date(1970, 1, 1)) == 0
  {
  }

  /** From each date to the next the number grows by exactly one. */
  lemma NextIsOneMore(d: Date)
    requires IsDate(d)
    ensures IsDate(Next(d)) && Number(Next(d)) == Number(d) + 1
  {
    hide Number, IsLeap, YearStart;
    NumberIs(d);
    NumberIs(Next(d));
    if d.day == DaysInMonth(d.year, d.month) {
      if d.month == 2 {
        YearLength(d.year - 1);
      } else {
        MonthLength(d.year, d.month);
      }
    }
  }

  // ----- Order -----

  /** Position in the March year; the last one is a leap day. */
  function DayOfYear(d: Date): int {
    MonthStart(d.month) + d.day - 1
  }

  lemma DayOfYearBounds(d: Date)
    requires IsDate(d)
    ensures 0 <= DayOfYear(d) < YearStart(MarchYear(d) + 1) - YearStart(MarchYear(d))
  {
    YearLength(MarchYear(d));
  }

  lemma {:induction false} YearsGrow(y: int, z: int)
    requires y <= z
    ensures YearStart(y) <= YearStart(z)
    decreases z - y
  {
    if y < z {
      YearLength(y);
      YearsGrow(y + 1, z);
    }
  }

  /** Later dates have larger numbers. */
  lemma Monotone(a: Date, b: Date)
    requires IsDate(a) && IsDate(b) && Before(a, b)
    ensures Number(a) < Number(b)
  {
    NumberIs(a);
    NumberIs(b);
    DayOfYearBounds(a);
    DayOfYearBounds(b);
    YearsInOrder(a, b);
    hide MarchYear, YearStart, DayOfYear, Number, Before;
    if MarchYear(a) < MarchYear(b) {
      YearsGrow(MarchYear(a) + 1, MarchYear(b));
    } else {
      SameYear(a, b);
    }
  }

  lemma YearsInOrder(a: Date, b: Date)
    requires IsDate(a) && IsDate(b) && Before(a, b)
    ensures MarchYear(a) <= MarchYear(b)
  {
  }

  lemma SameYear(a: Date, b: Date)
    requires IsDate(a) && IsDate(b) && Before(a, b) && MarchYear(a) == MarchYear(b)
    ensures DayOfYear(a) < DayOfYear(b)
  {
  }

  /** Hence different dates have different numbers. */
  lemma Injective(a: Date, b: Date)
    requires IsDate(a) && IsDate(b) && Number(a) == Number(b)
    ensures a == b
  {
    if Before(a, b) {
      Monotone(a, b);
    } else if Before(b, a) {
      Monotone(b, a);
    }
  }

  // ----- The inverse: the date of a day number -----

  /** The date `n` days after 1970-01-01, counted day by day. */
  function DateOf(n: nat): Date {
    if n == 0 then Date(1970, 1, 1) else Next(DateOf(n - 1))
  }

  lemma {:induction false} DateOfNumber(n: nat)
    ensures IsDate(DateOf(n)) && Number(DateOf(n)) == n
  {
    if n == 0 {
      Epoch();
    } else {
      DateOfNumber(n - 1);
      NextIsOneMore(DateOf(n - 1));
    }
  }

  /** The day of a date from 1970 on is the day counted to. */
  lemma NumberDateOf(d: Date)
    requires IsDate(d) && Number(d) >= 0
    ensures DateOf(Number(d)) == d
  {
    DateOfNumber(Number(d));
    Injective(DateOf(Number(d)), d);
  }
}

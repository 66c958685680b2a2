/** The proleptic Gregorian calendar of section 21.4.1 of ECMA-262: day numbers
    counted from 1 January 1970, years, zero-based months and dates. */
module Calendar {

  predicate Leap(y: int) {
    y % 4 == 0 && (y % 100 != 0 || y % 400 == 0)
  }

  function YearLength(y: int): int {
    if Leap(y) then 366 else 365
  }

  function MonthLength(m: int, leap: bool): int {
    if m == 1 then (if leap then 29 else 28)
    else if m == 3 || m == 5 || m == 8 || m == 10 then 30
    else 31
  }

  /** Day number of 1 January of year y: the lengths of the years in between. */
  function DayFromYear(y: int): int
    decreases if y < 1970 then 1970 - y else y - 1970
  {
    if y == 1970 then 0
    else if y > 1970 then DayFromYear(y - 1) + YearLength(y - 1)
    else DayFromYear(y + 1) - YearLength(y)
  }

  /** Days of the year that come before month m (0 is January). */
  function DaysBefore(m: int, leap: bool): int
    requires 0 <= m <= 12
  {
    if m == 0 then 0 else DaysBefore(m - 1, leap) + MonthLength(m - 1, leap)
  }

  /** MakeDay: months outside 0..11 carry into the year, dates into the month. */
  function MakeDay(y: int, m: int, d: int): int {
    DayFromYear(y + m / 12) + DaysBefore(m % 12, Leap(y + m / 12)) + d - 1
  }

  /** A day that exists. */
  predicate Real(y: int, m: int, d: int) {
    0 <= m < 12 && 1 <= d <= MonthLength(m, Leap(y))
  }

  lemma NextYear(y: int)
    ensures DayFromYear(y + 1) == DayFromYear(y) + YearLength(y)
  {
  }

  /** The closed form section 21.4.1.3 of ECMA-262 gives for the same number. */
  lemma {:induction false} DayFromYearFormula(y: int)
    ensures DayFromYear(y) == 365 * (y - 1970) + (y - 1969) / 4 - (y - 1901) / 100 + (y - 1601) / 400
    decreases if y < 1970 then 1970 - y else y - 1970
  {
    if y > 1970 {
      DayFromYearFormula(y - 1);
      FormulaStep(y - 1);
    } else if y < 1970 {
      DayFromYearFormula(y + 1);
      FormulaStep(y);
    }
  }

  lemma FormulaStep(y: int)
    ensures (y - 1968) / 4 - (y - 1969) / 4 - (y - 1900) / 100 + (y - 1901) / 100 + (y - 1600) / 400 - (y - 1601) / 400
         == YearLength(y) - 365
  {
    assert (y - 1968) / 4 - (y - 1969) / 4 == if y % 4 == 0 then 1 else 0;
    assert (y - 1900) / 100 - (y - 1901) / 100 == if y % 100 == 0 then 1 else 0;
    assert (y - 1600) / 400 - (y - 1601) / 400 == if y % 400 == 0 then 1 else 0;
    assert y % 400 == 0 ==> y % 100 == 0;
    assert y % 100 == 0 ==> y % 4 == 0;
  }

  lemma {:induction false} YearsGrow(a: int, b: int)
    requires a <= b
    ensures DayFromYear(b) - DayFromYear(a) >= 365 * (b - a)
    decreases b - a
  {
    if a < b {
      NextYear(b - 1);
      YearsGrow(a, b - 1);
    }
  }

  lemma {:induction false} MonthsGrow(m: int, n: int, leap: bool)
    requires 0 <= m <= n <= 12
    ensures DaysBefore(m, leap) + 28 * (n - m) <= DaysBefore(n, leap)
    decreases n - m
  {
    if m < n { MonthsGrow(m, n - 1, leap); }
  }

  lemma MonthsSum(y: int)
    ensures DaysBefore(12, Leap(y)) == YearLength(y)
  {
    var l := Leap(y);
    assert DaysBefore(1, l) == 31;
    assert DaysBefore(2, l) == 31 + MonthLength(1, l);
    assert DaysBefore(4, l) == DaysBefore(2, l) + 61;
    assert DaysBefore(6, l) == DaysBefore(4, l) + 61;
    assert DaysBefore(8, l) == DaysBefore(6, l) + 62;
    assert DaysBefore(10, l) == DaysBefore(8, l) + 61;
  }

  // ----- the inverse: year, month and date of a day number -----

  function YearUp(day: int, y: int): (r: int)
    requires DayFromYear(y) <= day
    ensures DayFromYear(r) <= day < DayFromYear(r + 1)
    decreases day - DayFromYear(y)
  {
    NextYear(y);
    if day < DayFromYear(y + 1) then y else YearUp(day, y + 1)
  }

  function YearDown(day: int, y: int): (r: int)
    requires day < DayFromYear(y + 1)
    ensures DayFromYear(r) <= day < DayFromYear(r + 1)
    decreases DayFromYear(y + 1) - day
  {
    NextYear(y);
    if DayFromYear(y) <= day then y else YearDown(day, y - 1)
  }

  function YearOf(day: int): (y: int)
    ensures DayFromYear(y) <= day < DayFromYear(y + 1)
  {
    if day >= 0 then YearUp(day, 1970) else YearDown(day, 1969)
  }

  function MonthUp(dayInYear: int, leap: bool, m: int): (r: int)
    requires 0 <= m < 12 && DaysBefore(m, leap) <= dayInYear < DaysBefore(12, leap)
    ensures m <= r < 12 && DaysBefore(r, leap) <= dayInYear < DaysBefore(r + 1, leap)
    decreases 12 - m
  {
    if dayInYear < DaysBefore(m + 1, leap) then m else MonthUp(dayInYear, leap, m + 1)
  }

  function MonthOf(day: int): (m: int)
    ensures 0 <= m < 12
    ensures var y := YearOf(day);
            DaysBefore(m, Leap(y)) <= day - DayFromYear(y) < DaysBefore(m + 1, Leap(y))
  {
    var y := YearOf(day);
    NextYear(y);
    MonthsSum(y);
    MonthUp(day - DayFromYear(y), Leap(y), 0)
  }

  function DateOf(day: int): int {
    day - DayFromYear(YearOf(day)) - DaysBefore(MonthOf(day), Leap(YearOf(day))) + 1
  }

  /** Where a real date falls inside its year and its month. */
  lemma DayInYear(y: int, m: int, d: int)
    requires Real(y, m, d)
    ensures MakeDay(y, m, d) == DayFromYear(y) + DaysBefore(m, Leap(y)) + d - 1
    ensures DayFromYear(y) <= MakeDay(y, m, d) < DayFromYear(y + 1)
    ensures DaysBefore(m, Leap(y)) <= MakeDay(y, m, d) - DayFromYear(y) < DaysBefore(m + 1, Leap(y))
  {
    assert m / 12 == 0 && m % 12 == m;
    NextYear(y);
    MonthsSum(y);
    MonthsGrow(m + 1, 12, Leap(y));
    MonthsGrow(0, m, Leap(y));
  }

  /** Reading a day number's fields and making a day from them is the identity,
      and the fields name a real date. */
  lemma FieldsOfDay(day: int)
    ensures MakeDay(YearOf(day), MonthOf(day), DateOf(day)) == day
    ensures Real(YearOf(day), MonthOf(day), DateOf(day))
  {
    DayInYear(YearOf(day), MonthOf(day), DateOf(day));
  }

  /** A real date is read back field by field. */
  lemma DayOfFields(y: int, m: int, d: int)
    requires Real(y, m, d)
    ensures YearOf(MakeDay(y, m, d)) == y
    ensures MonthOf(MakeDay(y, m, d)) == m
    ensures DateOf(MakeDay(y, m, d)) == d
  {
    hide MakeDay, Leap, DayFromYear, DaysBefore;
    var day := MakeDay(y, m, d);
    DayInYear(y, m, d);
    var z := YearOf(day);
    if y < z { YearsGrow(y + 1, z); } else if z < y { YearsGrow(z + 1, y); }
    var n := MonthOf(day);
    if m < n { MonthsGrow(m + 1, n, Leap(y)); } else if n < m { MonthsGrow(n + 1, m, Leap(y)); }
  }

  /** Fields round-trip exactly for the real dates: the test by which both
      date validators decide. */
  lemma RoundTripIffReal(y: int, m: int, d: int)
    ensures (YearOf(MakeDay(y, m, d)) == y && MonthOf(MakeDay(y, m, d)) == m && DateOf(MakeDay(y, m, d)) == d)
       <==> Real(y, m, d)
  {
    FieldsOfDay(MakeDay(y, m, d));
    if Real(y, m, d) { DayOfFields(y, m, d); }
  }

  /** Calendar order and day order agree on real dates. */
  lemma DayOrder(y: int, m: int, d: int, y': int, m': int, d': int)
    requires Real(y, m, d) && Real(y', m', d')
    ensures MakeDay(y, m, d) < MakeDay(y', m', d') <==>
            y < y' || (y == y' && (m < m' || (m == m' && d < d')))
  {
    hide MakeDay, Leap, DayFromYear, DaysBefore, MonthLength;
    DayInYear(y, m, d);
    DayInYear(y', m', d');
    if y < y' {
      YearsGrow(y + 1, y');
    } else if y' < y {
      YearsGrow(y' + 1, y);
    } else if m < m' {
      MonthsGrow(m + 1, m', Leap(y));
    } else if m' < m {
      MonthsGrow(m' + 1, m, Leap(y));
    }
  }

  /** The same date one month on lies 28 to 31 days later, December carrying
      into January of the next year. */
  lemma NextMonthDay(y: int, m: int, d: int)
    requires 0 <= m < 12
    ensures MakeDay(y, m + 1, d) == MakeDay(if m == 11 then y + 1 else y, if m == 11 then 0 else m + 1, d)
    ensures 28 <= MakeDay(y, m + 1, d) - MakeDay(y, m, d) <= 31
  {
    assert m / 12 == 0 && m % 12 == m;
    if m == 11 {
      assert (m + 1) / 12 == 1 && (m + 1) % 12 == 0;
      NextYear(y);
      MonthsSum(y);
    } else {
      assert (m + 1) / 12 == 0 && (m + 1) % 12 == m + 1;
    }
  }
}

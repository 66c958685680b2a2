/** Date-only strings, `YYYY-MM-DD`: validation, day arithmetic, differences and
    order, on top of the calendar's day numbers. */
module DateOnly {
  import opened Text
  import opened Calendar

  /** Dates further than this many days from 1970 are no ECMA-262 time values
      (section 21.4.1.1). */
  const MAX_DAY := 100_000_000

  datatype Parts = Parts(year: nat, month: nat, day: nat)

  function ParseParts(s: string): (r: Option<Parts>) {
    if |s| == 10 && AllDigits(s[..4]) && s[4] == '-' && AllDigits(s[5..7]) && s[7] == '-' && AllDigits(s[8..]) then
      Some(Parts(Value(s[..4]), Value(s[5..7]), Value(s[8..])))
    else
      None
  }

  /** `Date.UTC(year, month - 1, day)` in days; years 0 to 99 mean 1900 to 1999
      (section 21.4.3.4 of ECMA-262). */
  function UtcDay(p: Parts): int {
    MakeDay(if p.year <= 99 then 1900 + p.year else p.year, p.month - 1, p.day)
  }

  predicate IsDateOnly(s: string) {
    match ParseParts(s)
    case None => false
    case Some(p) =>
      var day := UtcDay(p);
      YearOf(day) == p.year && MonthOf(day) == p.month - 1 && DateOf(day) == p.day
  }

  function Format(year: int, month: nat, day: nat): string {
    Signed(year) + "-" + Padded(month, 2) + "-" + Padded(day, 2)
  }

  /** The text of a day number; an out-of-range time value prints as NaN parts. */
  function FormatDay(day: int): string {
    FieldsOfDay(day);
    if -MAX_DAY <= day <= MAX_DAY then Format(YearOf(day), MonthOf(day) + 1, DateOf(day))
    else "NaN-NaN-NaN"
  }

  /** The day number of a valid date-only string. */
  function DayNumber(value: string): (r: Option<int>)
    ensures r.Some? <==> IsDateOnly(value)
  {
    match ParseParts(value)
    case None => None
    case Some(p) => if IsDateOnly(value) then Some(UtcDay(p)) else None
  }

  function AddDays(value: string, days: int): string {
    match DayNumber(value)
    case None => value
    case Some(day) => FormatDay(day + days)
  }

  function DiffDays(later: string, earlier: string): Option<int> {
    match (DayNumber(later), DayNumber(earlier))
    case (Some(l), Some(e)) => Some((l * 86_400_000 - e * 86_400_000) / 86_400_000)
    case (_, _) => None
  }

  // ----- what is accepted -----

  /** The validator accepts exactly the real Gregorian dates of the years 100 to 9999. */
  lemma AcceptsExactlyRealDates(s: string)
    ensures IsDateOnly(s) <==>
            ParseParts(s).Some? &&
            var p := ParseParts(s).value;
            p.year >= 100 && Real(p.year, p.month - 1, p.day)
  {
    if ParseParts(s).Some? {
      var p := ParseParts(s).value;
      if p.year >= 100 {
        RoundTripIffReal(p.year, p.month - 1, p.day);
      } else if MonthOf(UtcDay(p)) == p.month - 1 {
        ShortYearMoves(p);
      }
    }
  }

  /** A year below 100 is taken as 1900 and up, so its field never reads back. */
  lemma ShortYearMoves(p: Parts)
    requires p.year <= 99 && 1 <= p.month <= 12
    ensures YearOf(UtcDay(p)) != p.year
  {
    var y := 1900 + p.year;
    assert (p.month - 1) / 12 == 0 && (p.month - 1) % 12 == p.month - 1;
    MonthsGrow(0, p.month - 1, Leap(y));
    YearsGrow(p.year + 1, y - 1);
    NextYear(y - 1);
    assert UtcDay(p) >= DayFromYear(y) - 1;
  }

  lemma ValidParts(s: string)
    requires IsDateOnly(s)
    ensures ParseParts(s).Some? && DayNumber(s) == Some(UtcDay(ParseParts(s).value))
    ensures var p := ParseParts(s).value;
            100 <= p.year <= 9999 && Real(p.year, p.month - 1, p.day) && UtcDay(p) == MakeDay(p.year, p.month - 1, p.day)
  {
    AcceptsExactlyRealDates(s);
    ValueBound(s[..4]);
    assert Pow10(4) == 10 * Pow10(3) == 100 * Pow10(2) == 1000 * Pow10(1) == 10_000;
  }

  // ----- formatting and reading back -----

  lemma FormatReads(year: int, month: nat, day: nat)
    requires 1000 <= year <= 9999 && month <= 99 && day <= 99
    ensures ParseParts(Format(year, month, day)) == Some(Parts(year, month, day))
  {
    hide AllDigits, Value, Decimal, Padded;
    assert Pow10(1) == 10;
    assert Pow10(2) == 10 * Pow10(1) == 100;
    assert Pow10(3) == 10 * Pow10(2) == 1000;
    assert Pow10(4) == 10 * Pow10(3) == 10_000;
    DecimalLength(year, 4);
    DecimalLength(year, 3);
    PaddedWidth(month, 2);
    PaddedWidth(day, 2);
    var s := Format(year, month, day);
    assert s == Decimal(year) + "-" + Padded(month, 2) + "-" + Padded(day, 2);
    assert s[..4] == Decimal(year);
    assert s[5..7] == Padded(month, 2);
    assert s[8..] == Padded(day, 2);
  }

  /** Outside the years 1000 to 9999 the unpadded year makes the text no date. */
  lemma FormatOtherYears(year: int, month: nat, day: nat)
    requires !(1000 <= year <= 9999) && month <= 99 && day <= 99
    ensures ParseParts(Format(year, month, day)).None?
  {
    assert Pow10(1) == 10;
    assert Pow10(2) == 10 * Pow10(1) == 100;
    assert Pow10(3) == 10 * Pow10(2) == 1000;
    assert Pow10(4) == 10 * Pow10(3) == 10_000;
    PaddedWidth(month, 2);
    PaddedWidth(day, 2);
    var s := Format(year, month, day);
    if year >= 0 {
      DecimalLength(year, 4);
      DecimalLength(year, 3);
    } else {
      assert s[0] == '-';
      if |s| == 10 { assert s[..4][0] == '-'; }
    }
  }

  lemma DayBounds(day: int)
    requires 1000 <= YearOf(day) <= 9999
    ensures -MAX_DAY <= day <= MAX_DAY
  {
    YearsGrow(1000, YearOf(day));
    YearsGrow(YearOf(day) + 1, 10_000);
    DayFromYearFormula(1000);
    DayFromYearFormula(10_000);
  }

  /** A printed day reads back as that day exactly when its year has four digits. */
  lemma FormatDayReads(day: int)
    ensures 1000 <= YearOf(day) <= 9999 ==> IsDateOnly(FormatDay(day)) && DayNumber(FormatDay(day)) == Some(day)
    ensures !(1000 <= YearOf(day) <= 9999) ==> !IsDateOnly(FormatDay(day)) && DayNumber(FormatDay(day)) == None
  {
    hide YearOf, MonthOf, DateOf, MakeDay, Format, Value, AllDigits;
    FieldsOfDay(day);
    var y, m, d := YearOf(day), MonthOf(day) + 1, DateOf(day);
    if 1000 <= y <= 9999 {
      DayBounds(day);
      FormatReads(y, m, d);
      AcceptsExactlyRealDates(FormatDay(day));
    } else if -MAX_DAY <= day <= MAX_DAY {
      FormatOtherYears(y, m, d);
    }
  }

  // ----- arithmetic laws -----

  /** Adding n days and taking the difference gives n back, exactly when the
      result's year lies between 1000 and 9999. */
  lemma AddThenDiff(value: string, n: int)
    requires IsDateOnly(value)
    ensures DiffDays(AddDays(value, n), value) == Some(n) <==>
            1000 <= YearOf(DayNumber(value).value + n) <= 9999
  {
    hide FormatDay, DayNumber, IsDateOnly, YearOf;
    FormatDayReads(DayNumber(value).value + n);
  }

  /** Adding a and then b is adding a + b whenever the intermediate date has a
      four-digit year; when it has not, the second addition changes nothing. */
  lemma AddAdd(value: string, a: int, b: int)
    requires IsDateOnly(value)
    ensures 1000 <= YearOf(DayNumber(value).value + a) <= 9999 ==>
            AddDays(AddDays(value, a), b) == AddDays(value, a + b)
    ensures !(1000 <= YearOf(DayNumber(value).value + a) <= 9999) ==>
            AddDays(AddDays(value, a), b) == AddDays(value, a)
  {
    hide FormatDay, DayNumber, IsDateOnly, YearOf;
    FormatDayReads(DayNumber(value).value + a);
  }

  /** Adding nothing returns the date itself for the years 1000 to 9999. */
  lemma AddZero(value: string)
    requires IsDateOnly(value)
    ensures AddDays(value, 0) == value <==> ParseParts(value).value.year >= 1000
  {
    hide ParseParts, IsDateOnly, DayNumber, UtcDay, MakeDay, YearOf, MonthOf, DateOf, Format;
    ValidParts(value);
    var p := ParseParts(value).value;
    DayOfFields(p.year, p.month - 1, p.day);
    if p.year >= 1000 {
      DayBounds(UtcDay(p));
      FormatReads(p.year, p.month, p.day);
      SameParts(value, Format(p.year, p.month, p.day));
    } else {
      FormatDayReads(UtcDay(p));
    }
  }

  lemma SameParts(s: string, t: string)
    requires ParseParts(s).Some? && ParseParts(s) == ParseParts(t)
    ensures s == t
  {
    LexDigits(s[..4], t[..4]);
    LexDigits(s[5..7], t[5..7]);
    LexDigits(s[8..], t[8..]);
    assert s == s[..4] + ['-'] + s[5..7] + ['-'] + s[8..];
    assert t == t[..4] + ['-'] + t[5..7] + ['-'] + t[8..];
  }

  // ----- order -----

  /** Comparing two valid dates as strings compares them as days. */
  lemma StringOrderIsDayOrder(a: string, b: string)
    requires IsDateOnly(a) && IsDateOnly(b)
    ensures LexLess(a, b) <==> DayNumber(a).value < DayNumber(b).value
    ensures a == b <==> DayNumber(a) == DayNumber(b)
  {
    hide ParseParts, IsDateOnly, DayNumber, UtcDay, MakeDay, Real, LexLess, YearOf, MonthOf, DateOf;
    ValidParts(a);
    ValidParts(b);
    var p, q := ParseParts(a).value, ParseParts(b).value;
    DayOrder(p.year, p.month - 1, p.day, q.year, q.month - 1, q.day);
    DayOrder(q.year, q.month - 1, q.day, p.year, p.month - 1, p.day);
    if DayNumber(a) == DayNumber(b) {
      DayOfFields(p.year, p.month - 1, p.day);
      DayOfFields(q.year, q.month - 1, q.day);
      SameParts(a, b);
    }
    PartsOrder(a, b);
  }

  lemma AfterDash(x: string, y: string)
    ensures LexLess(['-'] + x, ['-'] + y) <==> LexLess(x, y)
  {
    assert (['-'] + x)[1..] == x && (['-'] + y)[1..] == y;
  }

  lemma PartsOrder(a: string, b: string)
    requires ParseParts(a).Some? && ParseParts(b).Some?
    ensures var p, q := ParseParts(a).value, ParseParts(b).value;
            LexLess(a, b) <==>
            p.year < q.year || (p.year == q.year && (p.month < q.month || (p.month == q.month && p.day < q.day)))
  {
    hide LexLess, Value, AllDigits;
    LexDigits(a[..4], b[..4]);
    LexDigits(a[5..7], b[5..7]);
    LexDigits(a[8..], b[8..]);
    assert a == a[..4] + a[4..] && b == b[..4] + b[4..];
    LexSplit(a[..4], b[..4], a[4..], b[4..]);
    assert a[4..] == ['-'] + a[5..];
    assert b[4..] == ['-'] + b[5..];
    AfterDash(a[5..], b[5..]);
    assert a[5..] == a[5..7] + a[7..] && b[5..] == b[5..7] + b[7..];
    LexSplit(a[5..7], b[5..7], a[7..], b[7..]);
    assert a[7..] == ['-'] + a[8..];
    assert b[7..] == ['-'] + b[8..];
    AfterDash(a[8..], b[8..]);
  }
}

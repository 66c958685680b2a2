/** The cells of an import row and how the worker reads dates, numbers and
    yes/no answers out of them. */
module ImportCells {
  import opened Text
  import opened Calendar
  import opened DateOnly

  type Day = d: int | -MAX_DAY <= d <= MAX_DAY

  /** A parsed cell: null, text as the file holds it, or a typed value; a date
      object is the local calendar day it falls on, none when it is invalid. */
  datatype Cell = Null | Text(text: string) | Number(value: real) | Bool(flag: bool) | Dated(day: Option<Day>)

  /** `Number(text)` restricted to finite results; the platform's numeral grammar. */
  type JsNumber = string -> Option<real>

  predicate HasValue(c: Cell) {
    match c
    case Null => false
    case Text(t) => Trim(t) != ""
    case Number(_) => true
    case Bool(_) => true
    case Dated(d) => d.Some?
  }

  function RemoveCommas(s: string): string {
    if s == [] then [] else (if s[0] == ',' then [] else [s[0]]) + RemoveCommas(s[1..])
  }

  function NumberValue(c: Cell, js: JsNumber): (r: Option<real>)
    ensures r.Some? ==> HasValue(c)
  {
    match c
    case Number(v) => Some(v)
    case Text(t) => if Trim(t) == "" then None else js(RemoveCommas(Trim(t)))
    case Dated(Some(day)) => js(RemoveCommas(FormatDay(day)))
    case _ => None
  }

  function BooleanValue(c: Cell): (r: Option<bool>)
    ensures r.Some? ==> !c.Null?
  {
    match c
    case Null => None
    case Bool(b) => Some(b)
    case Number(v) => if v == 1.0 then Some(true) else if v == 0.0 then Some(false) else None
    case Text(t) =>
      var n := Lower(Trim(t));
      if n in ["yes", "y", "true", "1"] then Some(true)
      else if n in ["no", "n", "false", "0"] then Some(false)
      else None
    case Dated(_) => None
  }

  // ----- dates -----

  predicate IsSeparator(c: char) {
    c == '-' || c == '/'
  }

  /** One or two digits up to a separator: how many digits, 0 when there are none. */
  function ShortField(t: string): (n: nat)
    ensures n <= 2 && (n == 0 || n < |t|)
    ensures n > 0 ==> AllDigits(t[..n]) && IsSeparator(t[n])
  {
    if |t| >= 2 && IsDigit(t[0]) && IsSeparator(t[1]) then 1
    else if |t| >= 3 && IsDigit(t[0]) && IsDigit(t[1]) && IsSeparator(t[2]) then 2
    else 0
  }

  datatype Fields = Fields(day: string, month: string, year: string)

  /** Day, month and year of `D-M-YYYY` or `DD/MM/YYYY` text. */
  function DayFirst(t: string): (r: Option<Fields>)
    ensures r.Some? ==>
      && 1 <= |r.value.day| <= 2 && 1 <= |r.value.month| <= 2 && |r.value.year| == 4
      && AllDigits(r.value.day) && AllDigits(r.value.month) && AllDigits(r.value.year)
      && |t| >= 8 && r.value.year == t[|t| - 4..] && IsSeparator(t[|r.value.day|])
  {
    var i := ShortField(t);
    if i == 0 then None
    else
      var rest := t[i + 1..];
      var j := ShortField(rest);
      if j == 0 then None
      else
        var year := rest[j + 1..];
        if |year| == 4 && AllDigits(year) then
          assert year == t[|t| - 4..];
          Some(Fields(t[..i], rest[..j], year))
        else None
  }

  function PadTwo(s: string): string {
    if |s| < 2 then Zeros(2 - |s|) + s else s
  }

  /** Days counted from 30 December 1899, as spreadsheets store dates. */
  function ExcelDate(serial: real): Option<string> {
    if serial.Floor as real != serial || serial <= 0.0 then None
    else if serial.Floor - 25569 > MAX_DAY then None
    else Some(FormatDay(serial.Floor - 25569))
  }

  function ParseImportDate(c: Cell): (r: Option<string>)
    ensures r.Some? ==> HasValue(c) && !c.Bool?
  {
    match c
    case Null => None
    case Dated(None) => None
    case Dated(Some(day)) => Some(FormatDay(day))
    case Bool(_) => None
    case Number(v) => ExcelDate(v)
    case Text(raw) =>
      var t := Trim(raw);
      match DayFirst(t)
      case Some(f) =>
        var normalized := f.year + "-" + PadTwo(f.month) + "-" + PadTwo(f.day);
        if IsDateOnly(normalized) then Some(normalized) else None
      case None =>
        if IsDateOnly(t) then Some(t) else None
  }

  lemma IsoHasNoSpace(d: string)
    requires IsDateOnly(d)
    ensures |d| == 10 && Trim(d) == d && DayFirst(d) == None
  {
    assert ParseParts(d).Some?;
    assert IsDigit(d[..4][0]) && IsDigit(d[..4][1]) && IsDigit(d[..4][2]);
    assert d[..4][0] == d[0] && d[..4][1] == d[1] && d[..4][2] == d[2];
    assert d[8..][1] == d[9];
    assert TrimStart(d) == d && TrimEnd(d) == d;
  }

  /** Whatever text parses to is a valid date-only string, and parsing that
      string again gives the same date. */
  lemma ParsedTextIsDate(raw: string)
    requires ParseImportDate(Text(raw)).Some?
    ensures var d := ParseImportDate(Text(raw)).value;
            IsDateOnly(d) && ParseImportDate(Text(d)) == Some(d)
  {
    IsoHasNoSpace(ParseImportDate(Text(raw)).value);
  }

  /** Text with separators is read day first: the date has those very numbers. */
  lemma DayFirstMeaning(raw: string)
    requires DayFirst(Trim(raw)).Some?
    ensures var f := DayFirst(Trim(raw)).value;
            var y, m, d := Value(f.year), Value(f.month), Value(f.day);
            match ParseImportDate(Text(raw))
            case Some(s) => y >= 100 && Real(y, m - 1, d) && DayNumber(s) == Some(MakeDay(y, m - 1, d))
            case None => y < 100 || !Real(y, m - 1, d)
  {
    hide YearOf, MonthOf, DateOf, MakeDay, Trim, DayFirst, PadTwo, Value, AllDigits, IsDateOnly;
    var f := DayFirst(Trim(raw)).value;
    var s := f.year + "-" + PadTwo(f.month) + "-" + PadTwo(f.day);
    PadTwoValue(f.month);
    PadTwoValue(f.day);
    assert s[..4] == f.year;
    assert s[5..7] == PadTwo(f.month);
    assert s[8..] == PadTwo(f.day);
    AcceptsExactlyRealDates(s);
    if IsDateOnly(s) { ValidParts(s); }
  }

  lemma PadTwoValue(s: string)
    requires 1 <= |s| <= 2 && AllDigits(s)
    ensures |PadTwo(s)| == 2 && AllDigits(PadTwo(s)) && Value(PadTwo(s)) == Value(s)
  {
    if |s| < 2 { ZerosValue(2 - |s|, s); }
  }

  /** A formatted day is never read day first, so it parses only as itself. */
  lemma FormattedDayParses(day: int)
    ensures var s := FormatDay(day);
            ParseImportDate(Text(s)) == if IsDateOnly(s) then Some(s) else None
  {
    hide FormatDay, IsDateOnly, Trim, IsSpace, YearOf, MonthOf, DateOf, PadTwo;
    var s := FormatDay(day);
    if IsDateOnly(s) {
      IsoHasNoSpace(s);
    } else {
      FormatDayEnds(day);
      TrimFixed(s);
    }
  }

  lemma FormatDayEnds(day: int)
    ensures var s := FormatDay(day);
            |s| >= 7 && (s[|s| - 3] == '-' || s[0] == 'N') && !IsSpace(s[0]) && !IsSpace(s[|s| - 1])
  {
    hide YearOf, MonthOf, DateOf, MakeDay, Format;
    FieldsOfDay(day);
    if -MAX_DAY <= day <= MAX_DAY {
      FormatEnds(YearOf(day), MonthOf(day) + 1, DateOf(day));
    }
  }

  lemma FormatEnds(y: int, m: nat, d: nat)
    requires d < 100
    ensures var s := Format(y, m, d);
            |s| >= 7 && s[|s| - 3] == '-' && !IsSpace(s[0]) && !IsSpace(s[|s| - 1])
  {
    assert Pow10(2) == 10 * Pow10(1) == 100;
    PaddedWidth(d, 2);
    assert IsDigit(Padded(d, 2)[1]);
    assert Format(y, m, d) == (Signed(y) + "-" + Padded(m, 2)) + "-" + Padded(d, 2);
    assert y < 0 || IsDigit(Decimal(y)[0]);
  }

  /** A spreadsheet serial is the date that many days after 30 December 1899. */
  lemma ExcelSerialIsDayCount(n: int)
    requires 0 < n <= MAX_DAY + 25569
    ensures ExcelDate(n as real) == Some(AddDays("1899-12-30", n))
  {
    hide DayNumber, FormatDay, IsDateOnly;
    SpreadsheetEpoch();
    assert (n as real).Floor == n;
  }

  lemma SpreadsheetEpoch()
    ensures DayNumber("1899-12-30") == Some(-25569)
  {
    hide FormatDay, YearOf, MonthOf, DateOf, DayFromYear, DaysBefore, IsDateOnly, DayNumber;
    var epoch := "1899-12-30";
    EpochSlices();
    SmallValues();
    AcceptsExactlyRealDates(epoch);
    ValidParts(epoch);
    EpochOfSerials();
  }

  lemma EpochSlices()
    ensures var epoch := "1899-12-30";
            |epoch| == 10 && epoch[..4] == "1899" && epoch[5..7] == "12" && epoch[8..] == "30"
  {
    var epoch := "1899-12-30";
    assert epoch[..4] == [epoch[0], epoch[1], epoch[2], epoch[3]];
    assert epoch[5..7] == [epoch[5], epoch[6]];
    assert epoch[8..] == [epoch[8], epoch[9]];
  }

  lemma DecemberStart()
    ensures DaysBefore(11, Leap(1899)) == 334
  {
    MonthsSum(1899);
  }

  lemma SmallValues()
    ensures AllDigits("1899") && Value("1899") == 1899
    ensures AllDigits("12") && Value("12") == 12
    ensures AllDigits("30") && Value("30") == 30
  {
    assert "1899"[..3] == "189" && "189"[..2] == "18" && "18"[..1] == "1" && "1"[..0] == "";
    assert Value("1") == 1 && Value("18") == 18 && Value("189") == 189;
    assert "12"[..1] == "1" && "30"[..1] == "3" && "3"[..0] == "";
    assert Value("3") == 3;
  }

  // ----- what reading a cell gives -----

  /** Text that, trimmed and in lower case, is one of the words. */
  predicate Says(c: Cell, words: seq<string>) {
    c.Text? && Lower(Trim(c.text)) in words
  }

  /** A yes/no cell n read from c: true and false for exactly the words, numbers
      and answers that mean it, and any other cell kept. */
  predicate AnswerSays(c: Cell, n: Cell) {
    && (n == Bool(true) <==> c == Bool(true) || c == Number(1.0) || Says(c, ["yes", "y", "true", "1"]))
    && (n == Bool(false) <==> c == Bool(false) || c == Number(0.0) || Says(c, ["no", "n", "false", "0"]))
    && (n.Bool? || n == c)
  }

  /** A number cell n read from c: the number of the trimmed text without its
      commas, if it is one; any other cell kept. */
  predicate AmountSays(c: Cell, n: Cell, js: JsNumber) {
    match c
    case Text(t) =>
      var number := js(RemoveCommas(Trim(t)));
      n == if Trim(t) != "" && number.Some? then Number(number.value) else c
    case Dated(Some(day)) =>
      var number := js(RemoveCommas(FormatDay(day)));
      n == if number.Some? then Number(number.value) else c
    case _ => n == c
  }

  /** A date cell n read from c: text with separators is read day first, text that is
      a date stays it, whole positive numbers count days from 30 December 1899, and
      a date object is its day; any other cell is kept. */
  predicate DateSays(c: Cell, n: Cell) {
    match c
    case Text(raw) =>
      (match DayFirst(Trim(raw))
       case Some(f) =>
         var y, m, d := Value(f.year), Value(f.month), Value(f.day);
         if y >= 100 && Real(y, m - 1, d) then n.Text? && DayNumber(n.text) == Some(MakeDay(y, m - 1, d)) else n == c
       case None => n == if IsDateOnly(Trim(raw)) then Text(Trim(raw)) else c)
    case Number(v) =>
      if v.Floor as real == v && 0.0 < v && v.Floor + MakeDay(1899, 11, 30) <= MAX_DAY then
        n == Text(FormatDay(v.Floor + MakeDay(1899, 11, 30)))
      else n == c
    case Dated(Some(day)) => n == Text(FormatDay(day))
    case _ => n == c
  }

  lemma AnswerRead(c: Cell)
    ensures AnswerSays(c, match BooleanValue(c) case Some(b) => Bool(b) case None => c)
  {
    hide Lower, Trim;
  }

  lemma AmountRead(c: Cell, js: JsNumber)
    ensures AmountSays(c, match NumberValue(c, js) case Some(v) => Number(v) case None => c, js)
  {
    hide Trim, RemoveCommas, FormatDay;
  }

  lemma DateRead(c: Cell)
    ensures DateSays(c, match ParseImportDate(c) case Some(d) => Text(d) case None => c)
  {
    hide Trim, DayFirst, FormatDay, IsDateOnly, DayNumber, MakeDay, Real, Value;
    if c.Text? && DayFirst(Trim(c.text)).Some? { DayFirstMeaning(c.text); }
    EpochOfSerials();
  }

  lemma EpochOfSerials()
    ensures MakeDay(1899, 11, 30) == -25569
  {
    hide DayFromYear, DaysBefore;
    DayInYear(1899, 11, 30);
    DayFromYearFormula(1899);
    DecemberStart();
  }

  lemma {:induction false} CommasGone(a: string)
    ensures ',' !in RemoveCommas(a)
    ensures ',' !in a ==> RemoveCommas(a) == a
  {
    if a != [] { CommasGone(a[1..]); }
  }

  lemma {:induction false} CommasConcat(a: string, b: string)
    ensures RemoveCommas(a + b) == RemoveCommas(a) + RemoveCommas(b)
  {
    if a == [] {
      assert a + b == b;
    } else {
      assert (a + b)[0] == a[0] && (a + b)[1..] == a[1..] + b;
      CommasConcat(a[1..], b);
      var head := if a[0] == ',' then [] else [a[0]];
      assert head + (RemoveCommas(a[1..]) + RemoveCommas(b)) == (head + RemoveCommas(a[1..])) + RemoveCommas(b);
    }
  }

  /** Removing commas: what is left has none, text without any stays as it is, and a
      comma makes no difference wherever it stands. */
  lemma CommasRemoved(a: string, b: string)
    ensures ',' !in RemoveCommas(a) && (',' !in a ==> RemoveCommas(a) == a)
    ensures RemoveCommas(a + "," + b) == RemoveCommas(a + b)
  {
    hide RemoveCommas;
    CommasGone(a);
    CommasConcat(a, b);
    CommasConcat(a + ",", b);
    CommasConcat(a, ",");
    OneComma();
    assert RemoveCommas(a) + "" == RemoveCommas(a);
  }

  lemma OneComma()
    ensures RemoveCommas(",") == ""
  {
    assert ","[1..] == [];
  }
}

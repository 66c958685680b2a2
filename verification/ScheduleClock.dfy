/** When a notification schedule runs next, in Indian Standard Time, and the key
    that makes each run's event unique. Instants are milliseconds since 1970. */
module ScheduleClock {
  import opened Text
  import opened Calendar
  import opened DateOnly

  const IST_OFFSET := 19_800_000

  /** Daily also stands for the cadences that have no branch of their own. */
  datatype Cadence = Daily | EveryNDays | Weekly | Monthly

  /** The columns of a schedule that decide its times. */
  datatype Timing = Timing(cadence: Cadence, intervalDays: Option<int>, dayOfMonth: Option<int>, runTime: Option<RunTime>)

  datatype RunTime = RunTime(hour: nat, minute: nat)

  /** The column constraints: positive interval, day 1 to 31, time up to 24:00. */
  predicate WellFormed(t: Timing) {
    && (t.intervalDays.Some? ==> t.intervalDays.value > 0)
    && (t.dayOfMonth.Some? ==> 1 <= t.dayOfMonth.value <= 31)
    && (t.runTime.Some? ==> t.runTime.value.hour * 60 + t.runTime.value.minute <= 1440)
  }

  function RunMinutes(t: Timing): nat {
    match t.runTime case None => 540 case Some(r) => r.hour * 60 + r.minute
  }

  function Interval(t: Timing): int {
    match t.intervalDays case None => 1 case Some(n) => n
  }

  function RunDay(t: Timing): int {
    var d := match t.dayOfMonth case None => 1 case Some(d) => d;
    if d < 28 then d else 28
  }

  /** The number of the Indian calendar day an instant falls on. */
  function LocalDay(at: int): int {
    (at + IST_OFFSET) / 86_400_000
  }

  function ClampYear(y: int): int {
    if 0 <= y <= 99 then 1900 + y else y
  }

  /** `Date.UTC` of Indian wall-clock parts, shifted back; years 0 to 99 mean 1900 to 1999. */
  function FromIstParts(y: int, m: int, d: int, minutes: int): int {
    MakeDay(ClampYear(y), m, d) * 86_400_000 + minutes * 60_000 - IST_OFFSET
  }

  function PlusDays(at: int, days: int): int {
    at + days * 86_400_000
  }

  /** The slot of the local day an instant falls on. */
  function TodaySlot(t: Timing, from: int): int {
    var day := LocalDay(from);
    FromIstParts(YearOf(day), MonthOf(day), DateOf(day), RunMinutes(t))
  }

  function MonthlyNext(t: Timing, from: int): int {
    var day := LocalDay(from);
    var y, m := YearOf(day), MonthOf(day);
    var candidate := FromIstParts(y, m, RunDay(t), RunMinutes(t));
    if candidate <= from then
      var next := MakeDay(ClampYear(y), m + 1, 1);
      FromIstParts(YearOf(next), MonthOf(next), RunDay(t), RunMinutes(t))
    else candidate
  }

  /** The next run after `from` of a schedule whose stored next run is `stored`. */
  function NextRun(t: Timing, stored: Option<int>, from: int): int {
    var step := match t.cadence case EveryNDays => Interval(t) case Weekly => 7 case _ => 1;
    if t.cadence == Monthly then MonthlyNext(t, from)
    else if t.cadence != Daily && stored.Some? then PlusDays(stored.value, step)
    else
      var today := TodaySlot(t, from);
      if today > from then today
      else PlusDays(today, if t.cadence == Weekly then 7 else 1)
  }

  /** The next run of a claimed schedule, taken from the stored next run. */
  function Advanced(t: Timing, at: int): int {
    NextRun(t, Some(at), at)
  }

  // ----- slots -----

  function SlotOfDay(t: Timing, day: int): int {
    day * 86_400_000 + RunMinutes(t) * 60_000 - IST_OFFSET
  }

  /** An instant the cadence allows: for daily schedules the run time of any day,
      for monthly ones the run time of the chosen date of any month; for the two
      interval cadences any whole number of steps from the anchor. */
  ghost predicate IsSlot(t: Timing, anchor: int, at: int) {
    match t.cadence
    case Daily => exists day :: at == SlotOfDay(t, day)
    case Monthly => exists y, m :: 0 <= m < 12 && at == SlotOfDay(t, MakeDay(y, m, RunDay(t)))
    case EveryNDays => exists k :: at == StepsFrom(anchor, Interval(t), k)
    case Weekly => exists k :: at == StepsFrom(anchor, 7, k)
  }

  function StepsFrom(anchor: int, days: int, k: int): int {
    anchor + k * days * 86_400_000
  }

  /** Local years from 100 on, where `Date.UTC` does not reinterpret the year. */
  predicate ModernYear(at: int) {
    YearOf(LocalDay(at)) >= 100
  }

  ghost predicate LeastSlotAfter(t: Timing, anchor: int, from: int, next: int) {
    next > from && IsSlot(t, anchor, next) && forall at :: at > from && IsSlot(t, anchor, at) ==> at >= next
  }

  lemma TodaySlotIs(t: Timing, from: int)
    requires ModernYear(from)
    ensures TodaySlot(t, from) == SlotOfDay(t, LocalDay(from))
  {
    hide YearOf, MonthOf, DateOf, MakeDay;
    FieldsOfDay(LocalDay(from));
  }

  /** A local day's slot lies within that day, or at the start of the next one. */
  lemma SlotRange(t: Timing, day: int)
    requires WellFormed(t)
    ensures day * 86_400_000 <= SlotOfDay(t, day) + IST_OFFSET <= (day + 1) * 86_400_000
  {
  }

  lemma LocalDayBounds(at: int)
    ensures LocalDay(at) * 86_400_000 <= at + IST_OFFSET < (LocalDay(at) + 1) * 86_400_000
  {
  }

  lemma DayScale(a: int, b: int)
    ensures a <= b <==> a * 86_400_000 <= b * 86_400_000
  {
  }

  /** Daily: the next run is the earliest slot strictly after the given instant. */
  lemma DailyNextIsLeast(t: Timing, stored: Option<int>, from: int, anchor: int)
    requires t.cadence == Daily && WellFormed(t) && ModernYear(from)
    ensures LeastSlotAfter(t, anchor, from, NextRun(t, stored, from))
  {
    hide YearOf, MonthOf, DateOf, MakeDay, LocalDay, WellFormed;
    TodaySlotIs(t, from);
    var day := LocalDay(from);
    LocalDayBounds(from);
    SlotRange(t, day);
    var next := NextRun(t, stored, from);
    assert next == SlotOfDay(t, day) || next == SlotOfDay(t, day + 1);
    forall at | at > from && IsSlot(t, anchor, at) ensures at >= next {
      var d :| at == SlotOfDay(t, d);
      SlotRange(t, d);
      if d < day { SlotRange(t, day - 1); DayScale(d, day - 1); }
    }
  }

  /** Months in a row, numbered through the years. */
  function MonthDay(t: Timing, months: int): int {
    MakeDay(months / 12, months % 12, RunDay(t))
  }

  lemma MonthDayNext(t: Timing, months: int)
    ensures MonthDay(t, months) + 28 <= MonthDay(t, months + 1)
  {
    hide MakeDay;
    var y, m := months / 12, months % 12;
    NextMonthDay(y, m, RunDay(t));
    assert (months + 1) / 12 == (if m == 11 then y + 1 else y) && (months + 1) % 12 == if m == 11 then 0 else m + 1;
  }

  lemma {:induction false} MonthDaysGrow(t: Timing, a: int, b: int)
    requires a <= b
    ensures MonthDay(t, a) + 28 * (b - a) <= MonthDay(t, b)
    decreases b - a
  {
    if a < b {
      MonthDaysGrow(t, a, b - 1);
      MonthDayNext(t, b - 1);
    }
  }

  /** The local day of an instant lies in its own month. */
  lemma MonthAround(t: Timing, day: int)
    requires WellFormed(t)
    ensures var months := YearOf(day) * 12 + MonthOf(day);
            && MonthDay(t, months) == MakeDay(YearOf(day), MonthOf(day), RunDay(t))
            && MonthDay(t, months) - RunDay(t) + 1 <= day < MonthDay(t, months + 1) - RunDay(t) + 1
  {
    hide MakeDay, YearOf, MonthOf, DateOf, Leap, DaysBefore, DayFromYear;
    var y, m := YearOf(day), MonthOf(day);
    var months := y * 12 + m;
    assert months / 12 == y && months % 12 == m;
    FieldsOfDay(day);
    DayInYear(y, m, DateOf(day));
    MonthBounds(y, m, RunDay(t), DateOf(day));
    MonthDayFields(t, months);
  }

  lemma MonthDayFields(t: Timing, months: int)
    ensures var y, m := months / 12, months % 12;
            MonthDay(t, months + 1) == MakeDay(y, m + 1, RunDay(t))
  {
    hide MakeDay;
    var y, m := months / 12, months % 12;
    NextMonthDay(y, m, RunDay(t));
    assert (months + 1) / 12 == (if m == 11 then y + 1 else y) && (months + 1) % 12 == if m == 11 then 0 else m + 1;
  }

  /** A date of a month lies between the firsts of that month and the next. */
  lemma MonthBounds(y: int, m: int, d: int, date: int)
    requires Real(y, m, date)
    ensures MakeDay(y, m, d) - d + 1 <= MakeDay(y, m, date) < MakeDay(y, m + 1, d) - d + 1
  {
    NextMonthDay(y, m, d);
    assert m / 12 == 0 && m % 12 == m;
    if m == 11 {
      NextYear(y);
      MonthsSum(y);
    }
  }

  /** Monthly: the same, across month and year ends. */
  lemma MonthlyNextIsLeast(t: Timing, stored: Option<int>, from: int, anchor: int)
    requires t.cadence == Monthly && WellFormed(t) && ModernYear(from)
    ensures LeastSlotAfter(t, anchor, from, NextRun(t, stored, from))
  {
    hide YearOf, MonthOf, DateOf, MakeDay, LocalDay, MonthlyNext;
    MonthlyNextSlot(t, from);
    var day := LocalDay(from);
    var months := YearOf(day) * 12 + MonthOf(day);
    var next := NextRun(t, stored, from);
    assert IsSlot(t, anchor, next) by {
      assert next == SlotOfDay(t, MakeDay(months / 12, months % 12, RunDay(t)))
          || next == SlotOfDay(t, MakeDay((months + 1) / 12, (months + 1) % 12, RunDay(t)));
    }
    MonthAround(t, day);
    LocalDayBounds(from);
    forall at | at > from && IsSlot(t, anchor, at) ensures at >= next {
      var y, m :| 0 <= m < 12 && at == SlotOfDay(t, MakeDay(y, m, RunDay(t)));
      var other := y * 12 + m;
      assert other / 12 == y && other % 12 == m;
      SlotRange(t, MonthDay(t, other));
      if other < months {
        MonthDaysGrow(t, other, months - 1);
        MonthDayNext(t, months - 1);
        DayScale(MonthDay(t, other) + 1, day);
      } else if other > months {
        MonthDaysGrow(t, months + 1, other);
      }
    }
  }

  lemma MonthlyNextSlot(t: Timing, from: int)
    requires WellFormed(t) && ModernYear(from)
    ensures var months := YearOf(LocalDay(from)) * 12 + MonthOf(LocalDay(from));
            MonthlyNext(t, from) ==
            (if SlotOfDay(t, MonthDay(t, months)) <= from then SlotOfDay(t, MonthDay(t, months + 1))
             else SlotOfDay(t, MonthDay(t, months)))
  {
    hide YearOf, MonthOf, DateOf, MakeDay, LocalDay;
    var day := LocalDay(from);
    var y, m := YearOf(day), MonthOf(day);
    MonthAround(t, day);
    NextMonthDay(y, m, 1);
    var y', m' := if m == 11 then y + 1 else y, if m == 11 then 0 else m + 1;
    DayOfFields(y', m', 1);
    NextMonthDay(y, m, RunDay(t));
    MonthDayFields(t, y * 12 + m);
  }

  /** Weekly and every-n-days: one step from the stored run, the least slot after it. */
  lemma StepNextIsLeast(t: Timing, at: int)
    requires (t.cadence == EveryNDays || t.cadence == Weekly) && WellFormed(t)
    ensures LeastSlotAfter(t, at, at, Advanced(t, at))
  {
    var days := if t.cadence == Weekly then 7 else Interval(t);
    assert Advanced(t, at) == StepsFrom(at, days, 1);
    forall other | other > at && IsSlot(t, at, other) ensures other >= Advanced(t, at) {
      var k :| other == StepsFrom(at, days, k);
      StepPositive(days, k);
    }
  }

  lemma StepPositive(days: int, k: int)
    requires days >= 1
    ensures k * days * 86_400_000 > 0 ==> k * days >= days
  {
    if k >= 1 { assert k * days >= days; } else { assert k * days <= 0; }
  }

  /** The first run a schedule without one is given: for daily and monthly ones the
      earliest slot to come, for the interval cadences the slot of the day if it is
      still ahead, or else a day later, for weekly ones a week later. */
  ghost predicate FirstRun(t: Timing, now: int, n: int) {
    if t.cadence == Daily || t.cadence == Monthly then LeastSlotAfter(t, n, now, n)
    else
      var slot := SlotOfDay(t, LocalDay(now));
      n > now && n == if slot > now then slot else SlotOfDay(t, LocalDay(now) + if t.cadence == Weekly then 7 else 1)
  }

  lemma NextIsFirstRun(t: Timing, now: int)
    requires Anchored(t, now)
    ensures FirstRun(t, now, NextRun(t, None, now))
  {
    hide YearOf, MonthOf, DateOf, MakeDay, TodaySlot, LocalDay, MonthlyNext, LeastSlotAfter;
    var n := NextRun(t, None, now);
    if t.cadence == Daily {
      DailyNextIsLeast(t, None, now, n);
    } else if t.cadence == Monthly {
      MonthlyNextIsLeast(t, None, now, n);
    } else {
      TodaySlotIs(t, now);
      SlotRange(t, LocalDay(now));
      SlotRange(t, LocalDay(now) + 1);
      LocalDayBounds(now);
    }
  }

  // ----- catching up -----

  /** The k-th run when every run advances from the stored one. */
  function Runs(t: Timing, start: int, k: nat): int
    decreases k
  {
    hide Advanced;
    if k == 0 then start else Runs(t, Advanced(t, start), k - 1)
  }

  predicate Anchored(t: Timing, start: int) {
    WellFormed(t) && ModernYear(start)
  }

  /** Advancing from a slot gives the least slot after it, whatever the cadence. */
  lemma AdvancedIsLeast(t: Timing, start: int)
    requires Anchored(t, start)
    ensures LeastSlotAfter(t, start, start, Advanced(t, start)) && Anchored(t, Advanced(t, start))
  {
    hide YearOf, LocalDay, MonthlyNext, IsSlot;
    if t.cadence == Daily {
      DailyNextIsLeast(t, Some(start), start, start);
    } else if t.cadence == Monthly {
      MonthlyNextIsLeast(t, Some(start), start, start);
    } else {
      StepNextIsLeast(t, start);
    }
    YearsMonotone(start, Advanced(t, start));
  }

  lemma YearsMonotone(a: int, b: int)
    requires a <= b
    ensures YearOf(LocalDay(a)) <= YearOf(LocalDay(b))
  {
    hide YearOf;
    var y, z := YearOf(LocalDay(a)), YearOf(LocalDay(b));
    LocalDayBounds(a);
    LocalDayBounds(b);
    DayScale(LocalDay(a), LocalDay(b));
    if z < y { YearsGrow(z + 1, y); }
  }

  /** Being a slot does not depend on which earlier slot one counts from. */
  lemma SlotsShift(t: Timing, start: int, at: int)
    requires Anchored(t, start)
    ensures IsSlot(t, Advanced(t, start), at) <==> IsSlot(t, start, at)
  {
    hide YearOf, LocalDay, MonthlyNext;
    if t.cadence == EveryNDays || t.cadence == Weekly {
      var days := if t.cadence == Weekly then 7 else Interval(t);
      var next := Advanced(t, start);
      if IsSlot(t, next, at) {
        var k :| at == StepsFrom(next, days, k);
        StepShift(start, days, k);
        assert at == StepsFrom(start, days, k + 1);
      }
      if IsSlot(t, start, at) {
        var k :| at == StepsFrom(start, days, k);
        StepShift(start, days, k - 1);
        assert at == StepsFrom(next, days, k - 1);
      }
    }
  }

  lemma StepShift(start: int, days: int, k: int)
    ensures StepsFrom(PlusDays(start, days), days, k) == StepsFrom(start, days, k + 1)
  {
    assert (k + 1) * days == k * days + days;
  }

  /** No missed slot is skipped: every slot from the stored run on is visited. */
  lemma {:induction false} NoSlotSkipped(t: Timing, start: int, at: int)
    requires Anchored(t, start) && at >= start && (at == start || IsSlot(t, start, at))
    ensures exists k: nat :: Runs(t, start, k) == at
    decreases at - start
  {
    hide Anchored, IsSlot, Advanced;
    if at == start {
      assert Runs(t, start, 0) == at;
    } else {
      var next := Advanced(t, start);
      AdvancedIsLeast(t, start);
      SlotsShift(t, start, at);
      NoSlotSkipped(t, next, at);
      var k: nat :| Runs(t, next, k) == at;
      assert Runs(t, start, k + 1) == at;
    }
  }

  /** Runs strictly increase, and each is a slot. */
  lemma {:induction false} RunsGrow(t: Timing, start: int, k: nat)
    requires Anchored(t, start)
    ensures Runs(t, start, k) >= start + k
    ensures k > 0 ==> IsSlot(t, start, Runs(t, start, k))
    decreases k
  {
    hide Anchored, IsSlot, Advanced;
    if k > 0 {
      var next := Advanced(t, start);
      AdvancedIsLeast(t, start);
      RunsGrow(t, next, k - 1);
      SlotsShift(t, start, Runs(t, next, k - 1));
    }
  }

  /** Catching up ends: some run lies after any given instant. */
  lemma CatchesUp(t: Timing, start: int, now: int)
    requires Anchored(t, start)
    ensures exists k: nat :: Runs(t, start, k) > now
  {
    var k: nat := if now >= start then now - start + 1 else 0;
    RunsGrow(t, start, k);
    assert Runs(t, start, k) > now;
  }

  // ----- event keys -----

  function IstDate(at: int): string {
    var day := LocalDay(at);
    FieldsOfDay(day);
    Format(YearOf(day), MonthOf(day) + 1, DateOf(day))
  }

  function EventKey(scheduleKey: string, at: int): string {
    scheduleKey + ":" + IstDate(at)
  }

  lemma FormatInjective(y: int, m: nat, d: nat, y': int, m': nat, d': nat)
    requires m < 100 && d < 100 && m' < 100 && d' < 100
    requires Format(y, m, d) == Format(y', m', d')
    ensures y == y' && m == m' && d == d'
  {
    hide Signed, Padded;
    assert Pow10(2) == 10 * Pow10(1) == 100;
    PaddedWidth(m, 2); PaddedWidth(d, 2); PaddedWidth(m', 2); PaddedWidth(d', 2);
    var a, b := Format(y, m, d), Format(y', m', d');
    assert a[|a| - 2..] == Padded(d, 2) && b[|b| - 2..] == Padded(d', 2);
    assert a[|a| - 5..|a| - 3] == Padded(m, 2) && b[|b| - 5..|b| - 3] == Padded(m', 2);
    assert a[..|a| - 6] == Signed(y) && b[..|b| - 6] == Signed(y');
    SignedInjective(y, y');
    assert Value(Padded(d, 2)) == d && Value(Padded(d', 2)) == d';
    assert Value(Padded(m, 2)) == m && Value(Padded(m', 2)) == m';
  }

  /** Two instants print the same Indian date exactly when they fall on the same
      Indian calendar day. */
  lemma IstDateExact(a: int, b: int)
    ensures IstDate(a) == IstDate(b) <==> LocalDay(a) == LocalDay(b)
  {
    hide YearOf, MonthOf, DateOf, MakeDay, LocalDay, Format;
    if IstDate(a) == IstDate(b) {
      var x, y := LocalDay(a), LocalDay(b);
      FieldsOfDay(x);
      FieldsOfDay(y);
      FormatInjective(YearOf(x), MonthOf(x) + 1, DateOf(x), YearOf(y), MonthOf(y) + 1, DateOf(y));
    }
  }

  predicate NoColon(s: string) {
    forall i :: 0 <= i < |s| ==> s[i] != ':'
  }

  lemma DigitsNoColon(s: string)
    requires AllDigits(s)
    ensures NoColon(s)
  {
    forall i | 0 <= i < |s| ensures s[i] != ':' { assert IsDigit(s[i]); }
  }

  lemma IstDateNoColon(at: int)
    ensures NoColon(IstDate(at))
  {
    hide YearOf, MonthOf, DateOf, LocalDay, Decimal, Padded;
    var day := LocalDay(at);
    FieldsOfDay(day);
    var y := YearOf(day);
    DigitsNoColon(Decimal(if y < 0 then -y else y));
    DigitsNoColon(Padded(MonthOf(day) + 1, 2));
    DigitsNoColon(Padded(DateOf(day), 2));
  }

  predicate LastColonAt(s: string, i: nat) {
    i < |s| && s[i] == ':' && forall j :: i < j < |s| ==> s[j] != ':'
  }

  lemma LastColon(a: string, x: string)
    requires NoColon(x)
    ensures LastColonAt(a + ":" + x, |a|)
  {
    var s := a + ":" + x;
    forall j | |a| < j < |s| ensures s[j] != ':' { assert s[j] == x[j - |a| - 1]; }
  }

  /** A key splits at its last colon in one way. */
  lemma SplitAtLastColon(a: string, x: string, b: string, y: string)
    requires NoColon(x) && NoColon(y) && a + ":" + x == b + ":" + y
    ensures a == b && x == y
  {
    LastColon(a, x);
    LastColon(b, y);
    assert |a| == |b|;
    assert (a + ":" + x)[..|a|] == a && (b + ":" + y)[..|b|] == b;
    assert (a + ":" + x)[|a| + 1..] == x && (b + ":" + y)[|b| + 1..] == y;
  }

  /** One event key for each schedule key and Indian calendar day, and no clash
      between any two, even when schedule keys contain colons. */
  lemma EventKeyExact(k: string, at: int, k': string, at': int)
    ensures EventKey(k, at) == EventKey(k', at') <==> k == k' && LocalDay(at) == LocalDay(at')
  {
    hide IstDate, LocalDay;
    IstDateNoColon(at);
    IstDateNoColon(at');
    IstDateExact(at, at');
    if EventKey(k, at) == EventKey(k', at') { SplitAtLastColon(k, IstDate(at), k', IstDate(at')); }
  }

  /** Every step forward from a slot falls on a later Indian day. */
  lemma LaterDay(t: Timing, start: int)
    requires Anchored(t, start) && IsSlot(t, start, start)
    ensures LocalDay(Advanced(t, start)) > LocalDay(start)
  {
    hide YearOf, MonthlyNext;
    AdvancedIsLeast(t, start);
    var next := Advanced(t, start);
    assert next >= start + 86_400_000 by {
      if t.cadence == Daily {
        var d :| start == SlotOfDay(t, d);
        var e :| next == SlotOfDay(t, e);
        DayScale(e, d);
      } else if t.cadence == Monthly {
        MonthlySlotsApart(t, start, next);
      } else if t.cadence == EveryNDays {
        assert Interval(t) >= 1;
      }
    }
    LocalDayBounds(start);
    LocalDayBounds(next);
    DayScale(LocalDay(next), LocalDay(start));
  }

  lemma MonthlySlotsApart(t: Timing, a: int, b: int)
    requires t.cadence == Monthly && IsSlot(t, a, a) && IsSlot(t, a, b) && a < b
    ensures a + 86_400_000 <= b
  {
    hide MakeDay;
    var y, m :| 0 <= m < 12 && a == SlotOfDay(t, MakeDay(y, m, RunDay(t)));
    var y', m' :| 0 <= m' < 12 && b == SlotOfDay(t, MakeDay(y', m', RunDay(t)));
    DayScale(MakeDay(y', m', RunDay(t)), MakeDay(y, m, RunDay(t)));
  }

  /** Different slots of one schedule never share an event key. */
  lemma {:induction false} RunsHaveOwnKeys(t: Timing, start: int, key: string, i: nat, j: nat)
    requires Anchored(t, start) && IsSlot(t, start, start) && i < j
    ensures LocalDay(Runs(t, start, i)) < LocalDay(Runs(t, start, j))
    ensures EventKey(key, Runs(t, start, i)) != EventKey(key, Runs(t, start, j))
    decreases j
  {
    hide Anchored, IsSlot, Advanced, LocalDay, EventKey;
    var next := Advanced(t, start);
    AdvancedIsLeast(t, start);
    SlotsShift(t, start, next);
    if i > 0 {
      RunsHaveOwnKeys(t, next, key, i - 1, j - 1);
    } else {
      LaterDay(t, start);
      if j > 1 { RunsHaveOwnKeys(t, next, key, 0, j - 1); }
    }
    EventKeyExact(key, Runs(t, start, i), key, Runs(t, start, j));
  }

  /** Advancing keeps the event key, so that the next run is passed over as already
      processed, exactly when the stored run lies before the slot of its own Indian
      day: for daily schedules on any day, for monthly ones on the chosen date, and
      never for interval cadences or a run time of 24:00. Schedules get there when
      their run time or date is edited. */
  lemma KeyKeptExactly(t: Timing, at: int, key: string)
    requires Anchored(t, at)
    ensures EventKey(key, Advanced(t, at)) == EventKey(key, at) <==>
            && RunMinutes(t) < 1440 && at < SlotOfDay(t, LocalDay(at))
            && (t.cadence == Daily || (t.cadence == Monthly && DateOf(LocalDay(at)) == RunDay(t)))
  {
    hide YearOf, MonthOf, DateOf, EventKey, LocalDay, MonthlyNext, TodaySlot;
    EventKeyExact(key, Advanced(t, at), key, at);
    if t.cadence == Daily {
      DailyKept(t, at);
    } else if t.cadence == Monthly {
      MonthlyKept(t, at);
    } else {
      StepLater(t, at);
    }
  }

  lemma DailyKept(t: Timing, at: int)
    requires Anchored(t, at) && t.cadence == Daily
    ensures LocalDay(Advanced(t, at)) == LocalDay(at) <==> RunMinutes(t) < 1440 && at < SlotOfDay(t, LocalDay(at))
  {
    hide YearOf, MonthOf, DateOf;
    TodaySlotIs(t, at);
  }

  lemma StepLater(t: Timing, at: int)
    requires Anchored(t, at) && (t.cadence == EveryNDays || t.cadence == Weekly)
    ensures LocalDay(Advanced(t, at)) != LocalDay(at)
  {
    hide YearOf, LocalDay;
    LocalDayBounds(at);
    LocalDayBounds(Advanced(t, at));
    assert Interval(t) >= 1;
  }

  lemma SlotDay(t: Timing, day: int)
    requires WellFormed(t)
    ensures LocalDay(SlotOfDay(t, day)) == if RunMinutes(t) < 1440 then day else day + 1
  {
  }

  /** The chosen date of a day's month is that day exactly when the dates agree. */
  lemma ChosenDate(t: Timing, day: int)
    requires WellFormed(t)
    ensures MonthDay(t, YearOf(day) * 12 + MonthOf(day)) - day == RunDay(t) - DateOf(day)
  {
    hide YearOf, MonthOf, DateOf, Leap, DaysBefore, DayFromYear, MakeDay, MonthDay;
    MonthAround(t, day);
    FieldsOfDay(day);
    SameMonth(YearOf(day), MonthOf(day), RunDay(t), DateOf(day));
  }

  lemma SameMonth(y: int, m: int, d: int, e: int)
    ensures MakeDay(y, m, d) - MakeDay(y, m, e) == d - e
  {
  }

  lemma MonthlyKept(t: Timing, at: int)
    requires Anchored(t, at) && t.cadence == Monthly
    ensures LocalDay(Advanced(t, at)) == LocalDay(at) <==>
            RunMinutes(t) < 1440 && at < SlotOfDay(t, LocalDay(at)) && DateOf(LocalDay(at)) == RunDay(t)
  {
    hide YearOf, MonthOf, DateOf, LocalDay, MonthlyNext, MonthDay;
    var day := LocalDay(at);
    var months := YearOf(day) * 12 + MonthOf(day);
    MonthlyNextSlot(t, at);
    MonthAround(t, day);
    ChosenDate(t, day);
    LocalDayBounds(at);
    SlotDay(t, MonthDay(t, months));
    SlotDay(t, MonthDay(t, months + 1));
  }
}

/** Creating, changing and deleting the awards of a case, each in one transaction
    that also refreshes the case's cached totals, dates, stage and facts. */
module Awards {
  import opened Text
  import opened CaseRecords

  datatype Tables = Tables(awards: seq<Award>, cases: map<nat, Case>, financials: map<nat, Financials>,
                           milestones: map<nat, Milestones>, facts: map<nat, CaseFact>)

  datatype Error = NotFound | DatesInvalid | ConstraintViolated

  datatype Result<T> = Ok(value: T) | Err(error: Error)

  datatype Rollup = Rollup(count: nat, total: real, firstAward: Option<Day>, validity: Option<Day>)

  /** The fields an update may carry; `other` stands for those no rollup reads. */
  datatype Patch = Patch(vendor: Option<string>, value: Option<Option<real>>, awardDate: Option<Option<Day>>,
                         validityDate: Option<Option<Day>>, other: bool)

  // ----- aggregates over the live awards of a case -----

  predicate Live(a: Award, c: nat) {
    a.caseId == c && a.deletedAt.None?
  }

  function Count(awards: seq<Award>, c: nat): nat {
    if awards == [] then 0 else Count(awards[..|awards| - 1], c) + if Live(awards[|awards| - 1], c) then 1 else 0
  }

  function Worth(a: Award, c: nat): real {
    if Live(a, c) && a.value.Some? then a.value.value else 0.0
  }

  function Total(awards: seq<Award>, c: nat): real {
    if awards == [] then 0.0 else Total(awards[..|awards| - 1], c) + Worth(awards[|awards| - 1], c)
  }

  function Earlier(a: Option<Day>, b: Option<Day>): Option<Day> {
    if a.None? then b else if b.None? then a else if b.value < a.value then b else a
  }

  function Earliest(awards: seq<Award>, c: nat, date: Award -> Option<Day>): Option<Day> {
    if awards == [] then None
    else
      var last := awards[|awards| - 1];
      Earlier(Earliest(awards[..|awards| - 1], c, date), if Live(last, c) then date(last) else None)
  }

  function ValidityOf(a: Award): Option<Day> {
    a.validityDate
  }

  function AwardedOn(a: Award): Option<Day> {
    a.awardDate
  }

  function RollupOf(awards: seq<Award>, c: nat): Rollup {
    Rollup(Count(awards, c), Total(awards, c), Earliest(awards, c, AwardedOn), Earliest(awards, c, ValidityOf))
  }

  /** The earliest of the dates that live awards of the case have. */
  ghost predicate LeastDate(awards: seq<Award>, c: nat, date: Award -> Option<Day>, d: Option<Day>) {
    match d
    case None => forall i :: 0 <= i < |awards| && Live(awards[i], c) ==> date(awards[i]).None?
    case Some(day) =>
      && (exists i :: 0 <= i < |awards| && Live(awards[i], c) && date(awards[i]) == d)
      && forall i :: 0 <= i < |awards| && Live(awards[i], c) && date(awards[i]).Some? ==> day <= date(awards[i]).value
  }

  /** The earliest date is the least one held by a live award, and absent exactly
      when no live award has one. */
  lemma {:induction false} EarliestExact(awards: seq<Award>, c: nat, date: Award -> Option<Day>)
    ensures LeastDate(awards, c, date, Earliest(awards, c, date))
  {
    if awards != [] {
      EarliestExact(awards[..|awards| - 1], c, date);
    }
  }

  lemma {:induction false} TotalReplace(awards: seq<Award>, c: nat, i: nat, a: Award)
    requires i < |awards|
    ensures Total(awards[i := a], c) == Total(awards, c) - Worth(awards[i], c) + Worth(a, c)
  {
    var n := |awards| - 1;
    if i == n {
      assert awards[i := a][..n] == awards[..n];
    } else {
      assert awards[i := a][..n] == awards[..n][i := a];
      TotalReplace(awards[..n], c, i, a);
    }
  }

  lemma {:induction false} CountReplace(awards: seq<Award>, c: nat, i: nat, a: Award)
    requires i < |awards|
    ensures Count(awards[i := a], c) + (if Live(awards[i], c) then 1 else 0) == Count(awards, c) + if Live(a, c) then 1 else 0
  {
    var n := |awards| - 1;
    if i == n {
      assert awards[i := a][..n] == awards[..n];
    } else {
      assert awards[i := a][..n] == awards[..n][i := a];
      CountReplace(awards[..n], c, i, a);
    }
  }

  /** Awards of other cases play no part in a case's aggregates. */
  lemma {:induction false} OthersDoNotMatter(a: seq<Award>, b: seq<Award>, c: nat)
    requires |a| == |b| && forall i :: 0 <= i < |a| ==> a[i] == b[i] || (a[i].caseId != c && b[i].caseId != c)
    ensures RollupOf(a, c) == RollupOf(b, c)
  {
    if a != [] {
      OthersDoNotMatter(a[..|a| - 1], b[..|b| - 1], c);
    }
  }

  // ----- refreshing the cached columns -----

  function Saved(budget: Option<real>, approved: Option<real>): Option<real> {
    if budget.None? || approved.None? then None else Some(budget.value - approved.value)
  }

  function RefreshedFinancials(f: Financials, r: Rollup): Financials {
    f.(totalAwarded := r.total, savingsPr := Saved(f.prValue, f.approved), savingsEstimate := Saved(f.estimate, f.approved))
  }

  function RefreshedCase(k: Case, m: Milestones): Case {
    k.(status := StatusOf(m), stage := StageOf(m),
       desiredStage := if m.rcPoAward.Some? then None else k.desiredStage,
       delayed := if m.rcPoAward.Some? then false else k.delayed)
  }

  /** The fact columns an award write refreshes; the financial year, the slabs and
      the ages stay as they were, and are null in a new row. */
  function RefreshedFact(stored: Option<CaseFact>, today: Day, s: Source): CaseFact {
    var p := ProjectCase(today, s);
    var f := s.financials;
    p.(completionFy := Joined(stored, (o: CaseFact) => o.completionFy),
       valueSlab := Joined(stored, (o: CaseFact) => o.valueSlab),
       rcPoValueSlab := Joined(stored, (o: CaseFact) => o.rcPoValueSlab),
       runningAge := Joined(stored, (o: CaseFact) => o.runningAge),
       completedAge := Joined(stored, (o: CaseFact) => o.completedAge),
       stageAge := Joined(stored, (o: CaseFact) => o.stageAge),
       savingsPr := Joined(f, (f: Financials) => Saved(f.prValue, f.approved)),
       savingsEstimate := Joined(f, (f: Financials) => Saved(f.estimate, f.approved)))
  }

  function SourceOf(t: Tables, c: nat): Source
    requires c in t.cases
  {
    Source(t.cases[c], Lookup(t.financials, c), Lookup(t.milestones, c), [])
  }

  function Refreshed(t: Tables, c: nat, today: Day): Tables {
    var r := RollupOf(t.awards, c);
    var financials := if c in t.financials then t.financials[c := RefreshedFinancials(t.financials[c], r)] else t.financials;
    var milestones := if c in t.milestones then t.milestones[c := t.milestones[c].(rcPoValidity := r.validity)] else t.milestones;
    var cases := if c in t.cases && c in milestones && t.cases[c].deletedAt.None?
                 then t.cases[c := RefreshedCase(t.cases[c], milestones[c])] else t.cases;
    var u := Tables(t.awards, cases, financials, milestones, t.facts);
    if c in cases then u.(facts := t.facts[c := RefreshedFact(Lookup(t.facts, c), today, SourceOf(u, c))]) else u
  }

  // ----- the operations -----

  predicate DatesOk(a: Award) {
    a.awardDate.Some? && a.validityDate.Some? ==> a.validityDate.value >= a.awardDate.value
  }

  predicate Storable(t: Tables, a: Award) {
    a.caseId in t.cases && DatesOk(a) && (a.value.Some? ==> a.value.value >= 0.0)
  }

  function Create(t: Tables, a: Award, today: Day): (Tables, Result<(nat, Rollup)>) {
    if !Storable(t, a) then (t, Err(ConstraintViolated))
    else
      var after := Refreshed(t.(awards := t.awards + [a]), a.caseId, today);
      (after, Ok((|t.awards|, RollupOf(after.awards, a.caseId))))
  }

  function Empty(p: Patch): bool {
    p.vendor.None? && p.value.None? && p.awardDate.None? && p.validityDate.None? && !p.other
  }

  function Patched(a: Award, p: Patch): Award {
    a.(vendor := match p.vendor case Some(v) => v case None => a.vendor,
       value := match p.value case Some(v) => v case None => a.value,
       awardDate := match p.awardDate case Some(v) => v case None => a.awardDate,
       validityDate := match p.validityDate case Some(v) => v case None => a.validityDate)
  }

  predicate Found(t: Tables, c: nat, id: nat) {
    id < |t.awards| && Live(t.awards[id], c)
  }

  function Update(t: Tables, c: nat, id: nat, p: Patch, today: Day): (Tables, Result<Rollup>) {
    if Empty(p) then
      (Refreshed(t, c, today), Ok(RollupOf(t.awards, c)))
    else if !Found(t, c, id) then (t, Err(NotFound))
    else
      var a := Patched(t.awards[id], p);
      if a.value.Some? && a.value.value < 0.0 then (t, Err(ConstraintViolated))
      else if !DatesOk(a) then (t, Err(DatesInvalid))
      else
        var after := Refreshed(t.(awards := t.awards[id := a]), c, today);
        (after, Ok(RollupOf(after.awards, c)))
  }

  function Delete(t: Tables, c: nat, id: nat, now: int, today: Day): (Tables, Result<Rollup>) {
    if !Found(t, c, id) then (t, Err(NotFound))
    else
      var after := Refreshed(t.(awards := t.awards[id := t.awards[id].(deletedAt := Some(now))]), c, today);
      (after, Ok(RollupOf(after.awards, c)))
  }

  // ----- what an operation leaves in the tables -----

  function LiveOnes(awards: seq<Award>, c: nat): set<nat> {
    set i: nat | 0 <= i < |awards| && awards[i].caseId == c && awards[i].deletedAt == None
  }

  /** The aggregates returned: how many live awards the case has, what they are worth
      together, and the earliest award and validity dates among them. */
  ghost predicate RollupSays(awards: seq<Award>, c: nat, r: Rollup) {
    && r.count == |LiveOnes(awards, c)| && r.total == Total(awards, c)
    && LeastDate(awards, c, (a: Award) => a.awardDate, r.firstAward)
    && LeastDate(awards, c, (a: Award) => a.validityDate, r.validity)
  }

  lemma {:induction false} CountIsSize(awards: seq<Award>, c: nat)
    ensures Count(awards, c) == |LiveOnes(awards, c)|
  {
    if awards != [] {
      var n := |awards| - 1;
      CountIsSize(awards[..n], c);
      assert LiveOnes(awards, c) == LiveOnes(awards[..n], c) + if Live(awards[n], c) then {n} else {};
    }
  }

  lemma RollupExact(awards: seq<Award>, c: nat)
    ensures RollupSays(awards, c, RollupOf(awards, c))
  {
    hide Total, Earliest, Count;
    CountIsSize(awards, c);
    EarliestExact(awards, c, AwardedOn);
    EarliestExact(awards, c, ValidityOf);
    SameDates(awards, c);
  }

  lemma SameDates(awards: seq<Award>, c: nat)
    ensures forall d :: LeastDate(awards, c, AwardedOn, d) ==> LeastDate(awards, c, (a: Award) => a.awardDate, d)
    ensures forall d :: LeastDate(awards, c, ValidityOf, d) ==> LeastDate(awards, c, (a: Award) => a.validityDate, d)
  {
  }

  ghost predicate OthersSame(t: Tables, u: Tables, c: nat) {
    forall d :: d != c ==>
      && Lookup(u.financials, d) == Lookup(t.financials, d) && Lookup(u.milestones, d) == Lookup(t.milestones, d)
      && Lookup(u.cases, d) == Lookup(t.cases, d) && Lookup(u.facts, d) == Lookup(t.facts, d)
  }

  /** What a refresh leaves in the cached columns of its case: totals and savings,
      the validity date, the stage and status its milestones give, and the fact's
      columns; every other row stays. */
  ghost predicate RefreshSays(t: Tables, u: Tables, c: nat, r: Rollup, today: Day) {
    && u.awards == t.awards && OthersSame(t, u, c)
    && u.financials.Keys == t.financials.Keys && u.milestones.Keys == t.milestones.Keys && u.cases.Keys == t.cases.Keys
    && (c in t.financials ==> FinancialsSay(t.financials[c], u.financials[c], r))
    && (c in t.milestones ==> u.milestones[c] == t.milestones[c].(rcPoValidity := r.validity))
    && (c in t.cases ==>
          if c in t.milestones && t.cases[c].deletedAt == None then CaseSays(t.cases[c], u.cases[c], t.milestones[c])
          else u.cases[c] == t.cases[c])
    && (if c in t.cases then
          && c in u.facts
          && RefreshedFactSays(Lookup(t.facts, c), u.facts[c], today, u.cases[c], Lookup(u.financials, c), Lookup(u.milestones, c))
        else Lookup(u.facts, c) == Lookup(t.facts, c))
  }

  predicate SavingIs(saving: Option<real>, budget: Option<real>, approved: Option<real>) {
    && (saving.Some? <==> budget.Some? && approved.Some?)
    && (saving.Some? && budget.Some? && approved.Some? ==> approved.value + saving.value == budget.value)
  }

  predicate FinancialsSay(before: Financials, after: Financials, r: Rollup) {
    && after.prValue == before.prValue && after.estimate == before.estimate && after.approved == before.approved
    && after.totalAwarded == r.total
    && SavingIs(after.savingsPr, after.prValue, after.approved) && SavingIs(after.savingsEstimate, after.estimate, after.approved)
  }

  predicate CaseSays(before: Case, after: Case, m: Milestones) {
    var awarded := m.rcPoAward.Some?;
    && after.status == (if awarded then Completed else Running) && after.stage == StageOf(m)
    && after.desiredStage == (if awarded then None else before.desiredStage)
    && after.delayed == (before.delayed && !awarded)
    && after.attributes == before.attributes && after.prReceipt == before.prReceipt
    && after.tentativeCompletion == before.tentativeCompletion && after.deletedAt == before.deletedAt
  }

  /** The fact after an award write: its copied columns and savings are the source's,
      the year, the slabs and the ages those it had, if any. */
  predicate RefreshedFactSays(stored: Option<CaseFact>, f: CaseFact, today: Day, c: Case, n: Option<Financials>,
                              m: Option<Milestones>) {
    && f.attributes == c.attributes && f.status == c.status && f.stage == c.stage
    && f.desiredStage == c.desiredStage && f.prReceipt == c.prReceipt
    && (f.delayed <==> c.status == Running && c.tentativeCompletion.Some? && c.tentativeCompletion.value < today)
    && (if m.Some? then f.rcPoAward == m.value.rcPoAward else f.rcPoAward == None)
    && (if n.Some? then
          && f.prValue == n.value.prValue && f.estimate == n.value.estimate && f.approved == n.value.approved
          && f.totalAwarded == Some(n.value.totalAwarded)
          && SavingIs(f.savingsPr, f.prValue, f.approved) && SavingIs(f.savingsEstimate, f.estimate, f.approved)
        else
          && f.prValue == f.estimate == f.approved == f.totalAwarded == None && f.savingsPr == f.savingsEstimate == None)
    && (match stored
        case None => f.completionFy == f.valueSlab == f.rcPoValueSlab == None && f.runningAge == f.completedAge == f.stageAge == None
        case Some(o) =>
          && f.completionFy == o.completionFy && f.valueSlab == o.valueSlab && f.rcPoValueSlab == o.rcPoValueSlab
          && f.runningAge == o.runningAge && f.completedAge == o.completedAge && f.stageAge == o.stageAge)
  }

  lemma RefreshExact(t: Tables, c: nat, today: Day)
    ensures RefreshSays(t, Refreshed(t, c, today), c, RollupOf(t.awards, c), today)
  {
    hide RollupOf, RefreshedFact, RefreshedFactSays, RefreshedFinancials, FinancialsSay, RefreshedCase, CaseSays, OthersSame;
    RefreshLeavesRows(t, c, today);
    var u := Refreshed(t, c, today);
    var r := RollupOf(t.awards, c);
    if c in t.financials { FinancialsRefreshed(t.financials[c], r); }
    if c in t.cases && c in t.milestones { CaseRefreshed(t.cases[c], t.milestones[c], r.validity); }
    if c in t.cases { FactRefreshed(Lookup(t.facts, c), today, SourceOf(u, c)); }
  }

  lemma RefreshLeavesRows(t: Tables, c: nat, today: Day)
    ensures OthersSame(t, Refreshed(t, c, today), c)
  {
    hide RollupOf, RefreshedFact, RefreshedFinancials, RefreshedCase;
  }

  lemma FinancialsRefreshed(f: Financials, r: Rollup)
    ensures FinancialsSay(f, RefreshedFinancials(f, r), r)
  {
  }

  lemma CaseRefreshed(k: Case, m: Milestones, validity: Option<Day>)
    ensures CaseSays(k, RefreshedCase(k, m.(rcPoValidity := validity)), m)
  {
  }

  lemma FactRefreshed(stored: Option<CaseFact>, today: Day, s: Source)
    ensures RefreshedFactSays(stored, RefreshedFact(stored, today, s), today, s.kase, s.financials, s.milestones)
  {
    hide AgeingFrom, Slab, FyText;
  }

  predicate LiveAt(t: Tables, c: nat, id: nat) {
    id < |t.awards| && t.awards[id].caseId == c && t.awards[id].deletedAt == None
  }

  /** The tables once one award row is replaced and its case refreshed. */
  ghost predicate RowReplaced(t: Tables, u: Tables, c: nat, id: nat, a: Award, r: Rollup, today: Day) {
    id < |t.awards| && RefreshSays(t.(awards := t.awards[id := a]), u, c, r, today) && RollupSays(u.awards, c, r)
  }

  /** The columns of a patch are the award's new ones; the others stay. */
  predicate PatchSays(a: Award, b: Award, p: Patch) {
    && (if p.vendor.Some? then b.vendor == p.vendor.value else b.vendor == a.vendor)
    && (if p.value.Some? then b.value == p.value.value else b.value == a.value)
    && (if p.awardDate.Some? then b.awardDate == p.awardDate.value else b.awardDate == a.awardDate)
    && (if p.validityDate.Some? then b.validityDate == p.validityDate.value else b.validityDate == a.validityDate)
    && b.caseId == a.caseId && b.deletedAt == a.deletedAt && b.floated == a.floated && b.tentativeTendering == a.tentativeTendering
  }

  predicate InOrder(a: Award) {
    a.awardDate.Some? && a.validityDate.Some? ==> a.awardDate.value <= a.validityDate.value
  }

  predicate Negative(a: Award) {
    a.value.Some? && a.value.value < 0.0
  }

  ghost predicate CreateSays(t: Tables, u: Tables, a: Award, r: Result<(nat, Rollup)>, today: Day) {
    match r
    case Err(e) => e == ConstraintViolated && u == t && (a.caseId !in t.cases || !InOrder(a) || Negative(a))
    case Ok((id, rollup)) =>
      && a.caseId in t.cases && InOrder(a) && !Negative(a) && id == |t.awards|
      && RefreshSays(t.(awards := t.awards + [a]), u, a.caseId, rollup, today) && RollupSays(u.awards, a.caseId, rollup)
  }

  ghost predicate UpdateSays(t: Tables, u: Tables, c: nat, id: nat, p: Patch, r: Result<Rollup>, today: Day) {
    var nothing := p.vendor == None && p.value == None && p.awardDate == None && p.validityDate == None && !p.other;
    match r
    case Err(e) =>
      && u == t && !nothing
      && (e == NotFound <==> !LiveAt(t, c, id))
      && (LiveAt(t, c, id) ==>
            exists b ::
              PatchSays(t.awards[id], b, p) && if Negative(b) then e == ConstraintViolated else e == DatesInvalid && !InOrder(b))
    case Ok(rollup) =>
      if nothing then RefreshSays(t, u, c, rollup, today) && RollupSays(u.awards, c, rollup)
      else
        && LiveAt(t, c, id)
        && exists b ::
             PatchSays(t.awards[id], b, p) && InOrder(b) && !Negative(b) && RowReplaced(t, u, c, id, b, rollup, today)
  }

  ghost predicate DeleteSays(t: Tables, u: Tables, c: nat, id: nat, now: int, r: Result<Rollup>, today: Day) {
    match r
    case Err(e) => e == NotFound && u == t && !LiveAt(t, c, id)
    case Ok(rollup) =>
      LiveAt(t, c, id) && RowReplaced(t, u, c, id, t.awards[id].(deletedAt := Some(now)), rollup, today)
  }

  lemma RefreshKeepsAwards(t: Tables, c: nat, today: Day)
    ensures Refreshed(t, c, today).awards == t.awards
  {
    hide RefreshedFact, RollupOf;
  }

  lemma CreateExact(t: Tables, a: Award, today: Day)
    ensures CreateSays(t, Create(t, a, today).0, a, Create(t, a, today).1, today)
  {
    hide Refreshed, RollupOf, RefreshSays, RollupSays;
    var s := t.(awards := t.awards + [a]);
    RefreshExact(s, a.caseId, today);
    RefreshKeepsAwards(s, a.caseId, today);
    RollupExact(s.awards, a.caseId);
  }

  lemma UpdateExact(t: Tables, c: nat, id: nat, p: Patch, today: Day)
    ensures UpdateSays(t, Update(t, c, id, p, today).0, c, id, p, Update(t, c, id, p, today).1, today)
  {
    hide Refreshed, RollupOf, RefreshSays, RollupSays, Patched, PatchSays;
    RefreshExact(t, c, today);
    RefreshKeepsAwards(t, c, today);
    RollupExact(t.awards, c);
    if Found(t, c, id) {
      var b := Patched(t.awards[id], p);
      PatchedSays(t.awards[id], p);
      var s := t.(awards := t.awards[id := b]);
      RefreshExact(s, c, today);
      RefreshKeepsAwards(s, c, today);
      RollupExact(s.awards, c);
    }
  }

  lemma PatchedSays(a: Award, p: Patch)
    ensures PatchSays(a, Patched(a, p), p)
  {
  }

  lemma DeleteExact(t: Tables, c: nat, id: nat, now: int, today: Day)
    ensures DeleteSays(t, Delete(t, c, id, now, today).0, c, id, now, Delete(t, c, id, now, today).1, today)
  {
    hide Refreshed, RollupOf, RefreshSays, RollupSays;
    if Found(t, c, id) {
      var s := t.(awards := t.awards[id := t.awards[id].(deletedAt := Some(now))]);
      RefreshExact(s, c, today);
      RefreshKeepsAwards(s, c, today);
      RollupExact(s.awards, c);
    }
  }

  class Repository {
    var awards: seq<Award>
    var cases: map<nat, Case>
    var financials: map<nat, Financials>
    var milestones: map<nat, Milestones>
    var facts: map<nat, CaseFact>

    function View(): Tables reads this {
      Tables(awards, cases, financials, milestones, facts)
    }

    constructor (cases: map<nat, Case>, financials: map<nat, Financials>, milestones: map<nat, Milestones>)
      ensures View() == Tables([], cases, financials, milestones, map[])
    {
      this.cases, this.financials, this.milestones := cases, financials, milestones;
      awards, facts := [], map[];
    }

    method CreateAward(a: Award, today: Day) returns (r: Result<(nat, Rollup)>)
      modifies this
      ensures (View(), r) == Create(old(View()), a, today)
      ensures CreateSays(old(View()), View(), a, r, today)
    {
      hide CreateSays, RollupOf;
      CreateExact(View(), a, today);
      if !Storable(View(), a) { return Err(ConstraintViolated); }
      var id := |awards|;
      awards := awards + [a];
      var rollup := RefreshCaseAwardRollup(a.caseId, today);
      r := Ok((id, rollup));
    }

    method UpdateAward(c: nat, id: nat, p: Patch, today: Day) returns (r: Result<Rollup>)
      modifies this
      ensures (View(), r) == Update(old(View()), c, id, p, today)
      ensures UpdateSays(old(View()), View(), c, id, p, r, today)
    {
      hide UpdateSays, RollupOf;
      UpdateExact(View(), c, id, p, today);
      if !Empty(p) {
        if !Found(View(), c, id) { return Err(NotFound); }
        var before := awards[id];
        var a := Patched(before, p);
        if a.value.Some? && a.value.value < 0.0 { return Err(ConstraintViolated); }
        awards := awards[id := a];
        if !DatesOk(a) {
          awards := awards[id := before];
          assert awards == old(awards);
          return Err(DatesInvalid);
        }
      }
      var rollup := RefreshCaseAwardRollup(c, today);
      r := Ok(rollup);
    }

    method DeleteAward(c: nat, id: nat, now: int, today: Day) returns (r: Result<Rollup>)
      modifies this
      ensures (View(), r) == Delete(old(View()), c, id, now, today)
      ensures DeleteSays(old(View()), View(), c, id, now, r, today)
    {
      hide DeleteSays, RollupOf;
      DeleteExact(View(), c, id, now, today);
      if !Found(View(), c, id) { return Err(NotFound); }
      awards := awards[id := awards[id].(deletedAt := Some(now))];
      var rollup := RefreshCaseAwardRollup(c, today);
      r := Ok(rollup);
    }

    method RefreshCaseAwardRollup(c: nat, today: Day) returns (r: Rollup)
      modifies this`cases, this`financials, this`milestones, this`facts
      ensures View() == Refreshed(old(View()), c, today)
      ensures r == RollupOf(awards, c)
      ensures RefreshSays(old(View()), View(), c, r, today) && RollupSays(awards, c, r)
    {
      hide RefreshedFact, RollupOf, RefreshSays, RollupSays;
      RefreshExact(View(), c, today);
      RollupExact(awards, c);
      r := RollupOf(awards, c);
      if c in financials { financials := financials[c := RefreshedFinancials(financials[c], r)]; }
      if c in milestones { milestones := milestones[c := milestones[c].(rcPoValidity := r.validity)]; }
      if c in cases && c in milestones && cases[c].deletedAt.None? {
        cases := cases[c := RefreshedCase(cases[c], milestones[c])];
      }
      if c in cases {
        facts := facts[c := RefreshedFact(Lookup(facts, c), today, SourceOf(View(), c))];
      }
    }
  }

  // ----- what every run keeps -----

  /** The cached columns of a case agree with its live awards and milestones. */
  predicate Agrees(t: Tables, c: nat) {
    && (c in t.financials ==> t.financials[c].totalAwarded == Total(t.awards, c))
    && (c in t.milestones ==> t.milestones[c].rcPoValidity == Earliest(t.awards, c, ValidityOf))
    && (c in t.cases && c in t.milestones && t.cases[c].deletedAt.None? ==>
          t.cases[c].status == StatusOf(t.milestones[c]) && t.cases[c].stage == StageOf(t.milestones[c]))
  }

  lemma RefreshAgrees(t: Tables, c: nat, today: Day)
    ensures Agrees(Refreshed(t, c, today), c)
  {
    hide RefreshedFact, Total, Earliest, Count;
  }

  lemma RefreshLeavesOthers(t: Tables, c: nat, d: nat, today: Day)
    requires c != d
    ensures Agrees(Refreshed(t, c, today), d) <==> Agrees(t, d)
  {
    hide RefreshedFact, Total, Earliest, Count;
  }

  lemma {:induction false} Appended(awards: seq<Award>, a: Award, c: nat)
    ensures Total(awards + [a], c) == Total(awards, c) + Worth(a, c)
    ensures Earliest(awards + [a], c, ValidityOf) == Earlier(Earliest(awards, c, ValidityOf), if Live(a, c) then a.validityDate else None)
  {
    assert (awards + [a])[..|awards|] == awards;
  }

  datatype Op =
    | CreateOp(a: Award)
    | UpdateOp(c: nat, id: nat, p: Patch)
    | DeleteOp(c: nat, id: nat, now: int)

  function Step(t: Tables, op: Op, today: Day): Tables {
    match op
    case CreateOp(a) => Create(t, a, today).0
    case UpdateOp(c, id, p) => Update(t, c, id, p, today).0
    case DeleteOp(c, id, now) => Delete(t, c, id, now, today).0
  }

  function Run(t: Tables, ops: seq<Op>, today: Day): Tables
    decreases |ops|
  {
    if ops == [] then t else Run(Step(t, ops[0], today), ops[1..], today)
  }

  lemma StepKeeps(t: Tables, op: Op, today: Day, d: nat)
    requires Agrees(t, d)
    ensures Agrees(Step(t, op, today), d)
  {
    hide Refreshed, Total, Earliest, Agrees;
    var c := match op case CreateOp(a) => a.caseId case UpdateOp(c, _, _) => c case DeleteOp(c, _, _) => c;
    var changed := match op
      case CreateOp(a) => t.awards + [a]
      case UpdateOp(_, id, p) => if Found(t, c, id) then t.awards[id := Patched(t.awards[id], p)] else t.awards
      case DeleteOp(_, id, now) => if Found(t, c, id) then t.awards[id := t.awards[id].(deletedAt := Some(now))] else t.awards;
    RefreshAgrees(t.(awards := changed), c, today);
    RefreshAgrees(t, c, today);
    if d != c {
      RefreshLeavesOthers(t.(awards := changed), c, d, today);
      RefreshLeavesOthers(t, c, d, today);
      SameForOthers(t, changed, c, d);
    }
  }

  lemma SameForOthers(t: Tables, changed: seq<Award>, c: nat, d: nat)
    requires Agrees(t, d) && c != d && |t.awards| <= |changed| <= |t.awards| + 1
    requires forall i :: 0 <= i < |t.awards| ==> changed[i] == t.awards[i] || (changed[i].caseId == t.awards[i].caseId == c)
    requires |changed| > |t.awards| ==> changed[|t.awards|].caseId == c
    ensures Agrees(t.(awards := changed), d)
  {
    var first := changed[..|t.awards|];
    OthersDoNotMatter(t.awards, first, d);
    if |changed| > |t.awards| {
      assert changed == first + [changed[|t.awards|]];
      Appended(first, changed[|t.awards|], d);
    } else {
      assert changed == first;
    }
  }

  /** After every run of award operations, on any cases, each case that agreed at
      the start has a stored total equal to the sum of its live awards and a
      stored validity equal to their earliest, and, while it is live, a stage and
      a status that follow its milestones: completed exactly at stage 8. */
  lemma {:induction false} RunKeeps(t: Tables, ops: seq<Op>, today: Day, d: nat)
    requires Agrees(t, d)
    ensures Agrees(Run(t, ops, today), d)
    ensures var u := Run(t, ops, today);
            d in u.cases && d in u.milestones && u.cases[d].deletedAt.None? ==>
              (u.cases[d].status == Completed <==> u.cases[d].stage == 8)
    decreases |ops|
  {
    hide Step, Agrees, Total, Earliest;
    if ops == [] {
      AgreedStage(t, d);
    } else {
      StepKeeps(t, ops[0], today, d);
      RunKeeps(Step(t, ops[0], today), ops[1..], today, d);
    }
  }

  lemma AgreedStage(t: Tables, d: nat)
    requires Agrees(t, d)
    ensures d in t.cases && d in t.milestones && t.cases[d].deletedAt.None? ==>
              (t.cases[d].status == Completed <==> t.cases[d].stage == 8)
  {
    hide Total, Earliest;
  }

  /** Conservation: creating adds the award's value to the stored total, deleting
      takes it away, and an update changes the total by the difference. */
  lemma TotalsMove(t: Tables, c: nat, id: nat, p: Patch, now: int, today: Day)
    requires c in t.financials && Agrees(t, c) && Found(t, c, id)
    ensures var before := t.financials[c].totalAwarded; var a := t.awards[id];
            && Delete(t, c, id, now, today).0.financials[c].totalAwarded == before - Worth(a, c)
            && (Update(t, c, id, p, today).1.Ok? ==>
                  Update(t, c, id, p, today).0.financials[c].totalAwarded == before - Worth(a, c) + Worth(Patched(a, p), c))
  {
    hide Total, Earliest, Count, RefreshedFact;
    TotalReplace(t.awards, c, id, t.awards[id].(deletedAt := Some(now)));
    TotalReplace(t.awards, c, id, Patched(t.awards[id], p));
  }

  /** The returned count goes up by one with a create, down by one with a delete,
      and stays with an update. */
  lemma CountsMove(t: Tables, c: nat, id: nat, p: Patch, now: int, today: Day)
    requires Found(t, c, id)
    ensures Delete(t, c, id, now, today).1.value.count == Count(t.awards, c) - 1
    ensures Update(t, c, id, p, today).1.Ok? ==> Update(t, c, id, p, today).1.value.count == Count(t.awards, c)
    ensures forall a :: Storable(t, a) && Live(a, c) ==> Create(t, a, today).1.value.1.count == Count(t.awards, c) + 1
  {
    hide Total, Earliest, Count, RefreshedFact;
    CountReplace(t.awards, c, id, t.awards[id].(deletedAt := Some(now)));
    CountReplace(t.awards, c, id, Patched(t.awards[id], p));
    forall a | Storable(t, a) && Live(a, c) ensures Create(t, a, today).1.value.1.count == Count(t.awards, c) + 1 {
      CountAppended(t.awards, a, c);
    }
  }

  lemma CountAppended(awards: seq<Award>, a: Award, c: nat)
    ensures Count(awards + [a], c) == Count(awards, c) + if Live(a, c) then 1 else 0
  {
    assert (awards + [a])[..|awards|] == awards;
  }

  lemma CreateAdds(t: Tables, a: Award, today: Day)
    requires a.caseId in t.financials && Agrees(t, a.caseId) && Storable(t, a) && a.deletedAt.None?
    ensures Create(t, a, today).0.financials[a.caseId].totalAwarded ==
            t.financials[a.caseId].totalAwarded + match a.value case Some(v) => v case None => 0.0
  {
    hide Total, Earliest, Count, RefreshedFact;
    Appended(t.awards, a, a.caseId);
  }

  lemma DeadWeight(awards: seq<Award>, gone: Award, c: nat)
    requires !Live(gone, c)
    ensures RollupOf(awards + [gone], c) == RollupOf(awards, c)
  {
    assert (awards + [gone])[..|awards|] == awards;
  }

  /** Creating an award and deleting it again restores every aggregate. */
  lemma CreateThenDelete(t: Tables, a: Award, now: int, today: Day)
    requires Storable(t, a) && a.deletedAt.None?
    ensures var (u, r) := Create(t, a, today);
            var (v, q) := Delete(u, a.caseId, |t.awards|, now, today);
            r.Ok? && q.Ok? && q.value == RollupOf(t.awards, a.caseId)
  {
    hide Refreshed, RollupOf;
    var c := a.caseId;
    var gone := a.(deletedAt := Some(now));
    RefreshKeepsAwards(t.(awards := t.awards + [a]), c, today);
    var u := Create(t, a, today).0;
    assert u.awards[|t.awards|] == a;
    assert u.awards[|t.awards| := gone] == t.awards + [gone];
    RefreshKeepsAwards(u.(awards := t.awards + [gone]), c, today);
    DeadWeight(t.awards, gone, c);
  }

  /** A running case that agrees is aged from the milestone that set its stage. */
  lemma AgedFromOwnStage(t: Tables, c: nat)
    requires Agrees(t, c) && c in t.cases && c in t.milestones && t.cases[c].deletedAt.None? && t.cases[c].status == Running
    ensures AgeingFrom(Running, t.cases[c].stage, t.cases[c].prReceipt, Some(t.milestones[c])) ==
            ReachedOn(t.cases[c].prReceipt, t.milestones[c], t.cases[c].stage)
  {
    hide Total, Earliest;
    LaddersAgree(t.cases[c].prReceipt, t.milestones[c]);
  }
}

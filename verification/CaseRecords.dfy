/** Procurement cases with their milestones, financials and awards, and the facts
    that reports read: every derived column as a function of the source rows. */
module CaseRecords {
  import opened Text
  import opened Calendar

  type Day = int

  /** Columns that facts copy unchanged. */
  datatype Attributes = Attributes(entity: nat, department: Option<nat>, owner: Option<nat>, tenderType: Option<nat>,
                                   contractType: Option<string>, budgetType: Option<nat>, natureOfWork: Option<nat>,
                                   priority: bool, cpcInvolved: Option<bool>,
                                   tenderName: Option<string>, prDescription: Option<string>)

  datatype CaseStatus = Running | Completed

  datatype Case = Case(attributes: Attributes, status: CaseStatus, stage: nat, desiredStage: Option<nat>, delayed: bool,
                       prReceipt: Option<Day>, tentativeCompletion: Option<Day>, deletedAt: Option<int>)

  datatype Milestones = Milestones(nitInitiation: Option<Day>, nitApproval: Option<Day>, nitPublish: Option<Day>,
                                   bidReceipt: Option<Day>, commercialEvaluation: Option<Day>,
                                   technicalEvaluation: Option<Day>, nfaSubmission: Option<Day>,
                                   nfaApproval: Option<Day>, rcPoAward: Option<Day>, rcPoValidity: Option<Day>)

  datatype Financials = Financials(prValue: Option<real>, estimate: Option<real>, approved: Option<real>,
                                   totalAwarded: real, savingsPr: Option<real>, savingsEstimate: Option<real>)

  datatype Award = Award(caseId: nat, vendor: string, value: Option<real>, awardDate: Option<Day>,
                         validityDate: Option<Day>, tentativeTendering: Option<Day>, floated: bool, deletedAt: Option<int>)

  // ----- the stage ladder -----

  function StageOf(m: Milestones): nat {
    if m.rcPoAward.Some? then 8
    else if m.nfaApproval.Some? then 7
    else if m.nfaSubmission.Some? then 6
    else if m.commercialEvaluation.Some? && m.technicalEvaluation.Some? then 5
    else if m.bidReceipt.Some? then 4
    else if m.nitPublish.Some? then 3
    else if m.nitApproval.Some? then 2
    else if m.nitInitiation.Some? then 1
    else 0
  }

  function StatusOf(m: Milestones): CaseStatus {
    if m.rcPoAward.Some? then Completed else Running
  }

  function Later(a: Day, b: Day): Day {
    if a < b then b else a
  }

  /** The milestone that reaches each stage; stage 5 is reached with the later evaluation. */
  function ReachedOn(prReceipt: Option<Day>, m: Milestones, stage: nat): Option<Day> {
    match stage
    case 0 => prReceipt
    case 1 => m.nitInitiation
    case 2 => m.nitApproval
    case 3 => m.nitPublish
    case 4 => m.bidReceipt
    case 5 =>
      if m.commercialEvaluation.Some? && m.technicalEvaluation.Some? then
        Some(Later(m.commercialEvaluation.value, m.technicalEvaluation.value))
      else None
    case 6 => m.nfaSubmission
    case 7 => m.nfaApproval
    case 8 => m.rcPoAward
    case _ => None
  }

  /** The stage is the highest one whose milestone is recorded. */
  lemma StageExact(prReceipt: Option<Day>, m: Milestones, k: nat)
    requires 1 <= k <= 8
    ensures StageOf(m) == k <==>
            ReachedOn(prReceipt, m, k).Some? && forall i :: k < i <= 8 ==> ReachedOn(prReceipt, m, i).None?
  {
    var reached := i => ReachedOn(prReceipt, m, i).Some?;
    if StageOf(m) < k {
      assert reached(k) ==> StageOf(m) >= k;
    } else {
      assert StageOf(m) > k ==> reached(StageOf(m));
    }
  }

  /** Days the case has spent in its stage, as the projection measures them. */
  function AgeingFrom(status: CaseStatus, stage: nat, prReceipt: Option<Day>, ms: Option<Milestones>): Option<Day> {
    var m := match ms case Some(m) => m case None => NO_MILESTONES;
    if status != Running then None
    else if stage >= 8 && m.rcPoAward.Some? then m.rcPoAward
    else if stage >= 7 && m.nfaApproval.Some? then m.nfaApproval
    else if stage >= 6 && m.nfaSubmission.Some? then m.nfaSubmission
    else if stage >= 5 && m.commercialEvaluation.Some? && m.technicalEvaluation.Some? then
      Some(Later(m.commercialEvaluation.value, m.technicalEvaluation.value))
    else if stage >= 5 && m.commercialEvaluation.Some? then m.commercialEvaluation
    else if stage >= 5 && m.technicalEvaluation.Some? then m.technicalEvaluation
    else if stage >= 4 && m.bidReceipt.Some? then m.bidReceipt
    else if stage >= 3 && m.nitPublish.Some? then m.nitPublish
    else if stage >= 2 && m.nitApproval.Some? then m.nitApproval
    else if stage >= 1 && m.nitInitiation.Some? then m.nitInitiation
    else prReceipt
  }

  const NO_MILESTONES := Milestones(None, None, None, None, None, None, None, None, None, None)

  /** The two ladders agree: a running case is aged from the milestone that set its stage. */
  lemma LaddersAgree(prReceipt: Option<Day>, m: Milestones)
    ensures AgeingFrom(Running, StageOf(m), prReceipt, Some(m)) == ReachedOn(prReceipt, m, StageOf(m))
  {
  }

  // ----- financial years and value slabs -----

  /** The Indian financial year, 1 April to 31 March, a day falls in. */
  function FinancialYear(day: Day): int {
    if MonthOf(day) + 1 >= 4 then YearOf(day) else YearOf(day) - 1
  }

  function FyText(day: Day): string {
    Signed(FinancialYear(day)) + "-" + Signed(FinancialYear(day) + 1)
  }

  lemma FinancialYearExact(day: Day, y: int)
    ensures FinancialYear(day) == y <==> MakeDay(y, 3, 1) <= day < MakeDay(y + 1, 3, 1)
  {
    hide YearOf, MonthOf, DateOf, MakeDay, Leap;
    var z := FinancialYear(day);
    FinancialYearHolds(day);
    DayOrder(y, 3, 1, z, 3, 1);
    DayOrder(y + 1, 3, 1, z, 3, 1);
    DayOrder(z + 1, 3, 1, y, 3, 1);
  }

  lemma FinancialYearHolds(day: Day)
    ensures MakeDay(FinancialYear(day), 3, 1) <= day < MakeDay(FinancialYear(day) + 1, 3, 1)
  {
    hide YearOf, MonthOf, DateOf, MakeDay, Leap;
    FieldsOfDay(day);
    var y, m, d, z := YearOf(day), MonthOf(day), DateOf(day), FinancialYear(day);
    DayOrder(y, m, d, z, 3, 1);
    DayOrder(y, m, d, z + 1, 3, 1);
  }

  function Slab(value: real): string {
    if value < 200000.0 then "lt_2l"
    else if value < 500000.0 then "2l_5l"
    else if value < 1000000.0 then "5l_10l"
    else if value < 2500000.0 then "10l_25l"
    else if value < 5000000.0 then "25l_50l"
    else if value < 10000000.0 then "50l_100l"
    else if value < 20000000.0 then "100l_200l"
    else "gte_200l"
  }

  // ----- facts -----

  /** A case's source rows: the case itself and what is joined to it. */
  datatype Source = Source(kase: Case, financials: Option<Financials>, milestones: Option<Milestones>, awards: seq<(nat, Award)>)

  datatype CaseFact = CaseFact(
    attributes: Attributes, status: CaseStatus, stage: nat, desiredStage: Option<nat>, delayed: bool,
    prReceipt: Option<Day>, rcPoAward: Option<Day>,
    completionFy: Option<string>, valueSlab: Option<string>, rcPoValueSlab: Option<string>,
    runningAge: Option<int>, completedAge: Option<int>, stageAge: Option<int>,
    prValue: Option<real>, estimate: Option<real>, approved: Option<real>, totalAwarded: Option<real>,
    savingsPr: Option<real>, savingsEstimate: Option<real>)

  datatype ExpiryFact = ExpiryFact(
    caseId: nat, awardId: nat, attributes: Attributes, description: Option<string>, vendor: string,
    amount: Option<real>, awardDate: Option<Day>, validityDate: Day,
    tentativeTendering: Day, floated: bool, sourceDeletedAt: Option<int>)

  function Mapped<A, B>(o: Option<A>, f: A -> B): Option<B> {
    match o case None => None case Some(a) => Some(f(a))
  }

  function Joined<A, B>(o: Option<A>, f: A -> Option<B>): Option<B> {
    match o case None => None case Some(a) => f(a)
  }

  predicate Overdue(c: Case, today: Day) {
    c.status == Running && c.tentativeCompletion.Some? && c.tentativeCompletion.value < today
  }

  /** The case's fact, recomputed from its source rows. */
  function ProjectCase(today: Day, s: Source): CaseFact {
    var c, f := s.kase, s.financials;
    var award := Joined(s.milestones, (m: Milestones) => m.rcPoAward);
    var prValue := Joined(f, (f: Financials) => f.prValue);
    var total := Mapped(f, (f: Financials) => f.totalAwarded);
    CaseFact(
      c.attributes, c.status, c.stage, c.desiredStage, Overdue(c, today), c.prReceipt, award,
      Mapped(award, FyText), Mapped(prValue, Slab), Mapped(total, Slab),
      if c.status == Running then Mapped(c.prReceipt, (d: Day) => today - d) else None,
      if c.status == Completed && award.Some? then Mapped(c.prReceipt, (d: Day) => award.value - d) else None,
      Mapped(AgeingFrom(c.status, c.stage, c.prReceipt, s.milestones), (d: Day) => today - d),
      prValue, Joined(f, (f: Financials) => f.estimate), Joined(f, (f: Financials) => f.approved), total,
      Joined(f, (f: Financials) => f.savingsPr), Joined(f, (f: Financials) => f.savingsEstimate))
  }

  /** One expiry fact for each award with a validity date, deleted ones included. */
  function ProjectAwards(caseId: nat, c: Case, awards: seq<(nat, Award)>): seq<ExpiryFact> {
    if awards == [] then []
    else
      var (id, a) := awards[0];
      (match a.validityDate
       case None => []
       case Some(v) =>
         [ExpiryFact(
            caseId, id, c.attributes,
            if c.attributes.tenderName.Some? then c.attributes.tenderName else c.attributes.prDescription,
            a.vendor, a.value, a.awardDate, v,
            match a.tentativeTendering case Some(d) => d case None => v - 120,
            a.floated, if a.deletedAt.Some? then a.deletedAt else c.deletedAt)])
      + ProjectAwards(caseId, c, awards[1..])
  }

  // ----- reading the facts -----

  /** A fact's ages: one for running cases, one for completed ones, and the days
      since the milestone that set the stage, for cases whose stage follows their
      milestones. */
  lemma FactAges(today: Day, s: Source, m: Milestones)
    requires s.milestones == Some(m) && s.kase.status == StatusOf(m) && s.kase.stage == StageOf(m)
    ensures var f := ProjectCase(today, s);
            && (f.runningAge.Some? <==> s.kase.status == Running && s.kase.prReceipt.Some?)
            && (f.completedAge.Some? <==> s.kase.status == Completed && s.kase.prReceipt.Some?)
            && AgeIs(f.runningAge, s.kase.status == Running, s.kase.prReceipt, Some(today))
            && AgeIs(f.completedAge, s.kase.status == Completed, s.kase.prReceipt, m.rcPoAward)
            && (f.completionFy.Some? <==> s.kase.status == Completed)
            && (s.kase.status == Completed ==> f.stageAge == None)
            && (s.kase.status == Running ==>
                  f.stageAge == match ReachedOn(s.kase.prReceipt, m, StageOf(m)) case Some(d) => Some(today - d) case None => None)
  {
    LaddersAgree(s.kase.prReceipt, m);
  }

  /** The range test the export builds for a slab code; unknown codes build none. */
  predicate SlabPredicate(code: string, v: real) {
    if code == "lt_2l" then v < 200000.0
    else if code == "2l_5l" then 200000.0 <= v < 500000.0
    else if code == "5l_10l" then 500000.0 <= v < 1000000.0
    else if code == "10l_25l" then 1000000.0 <= v < 2500000.0
    else if code == "25l_50l" then 2500000.0 <= v < 5000000.0
    else if code == "50l_100l" then 5000000.0 <= v < 10000000.0
    else if code == "100l_200l" then 10000000.0 <= v < 20000000.0
    else code == "gte_200l" && 20000000.0 <= v
  }

  // ----- what a fact says, column by column -----

  /** The day recorded for a stage; for stage 5 the later of the evaluations there are. */
  function RecordedOn(prReceipt: Option<Day>, m: Milestones, stage: nat): Option<Day> {
    if stage == 5 && m.commercialEvaluation.None? then m.technicalEvaluation
    else if stage == 5 && m.technicalEvaluation.None? then m.commercialEvaluation
    else ReachedOn(prReceipt, m, stage)
  }

  /** A running case is aged from the highest stage, up to its own, that has a day
      recorded, and from its receipt when none has. */
  ghost predicate AgedFrom(prReceipt: Option<Day>, m: Milestones, stage: nat, from: Option<Day>) {
    exists k :: 0 <= k <= 8 && k <= stage && from == RecordedOn(prReceipt, m, k) && (k == 0 || from.Some?)
                && forall i :: k < i <= 8 && i <= stage ==> RecordedOn(prReceipt, m, i).None?
  }

  lemma AgeingExact(stage: nat, prReceipt: Option<Day>, ms: Option<Milestones>)
    ensures AgedFrom(prReceipt, match ms case Some(m) => m case None => NO_MILESTONES, stage,
                     AgeingFrom(Running, stage, prReceipt, ms))
  {
    var m := match ms case Some(m) => m case None => NO_MILESTONES;
    var from := AgeingFrom(Running, stage, prReceipt, ms);
    var top := if stage < 8 then stage else 8;
    var k := HighestRecorded(prReceipt, m, top);
    assert from == RecordedOn(prReceipt, m, k) by { LadderAt(stage, prReceipt, ms, k); }
  }

  function HighestRecorded(prReceipt: Option<Day>, m: Milestones, top: nat): (k: nat)
    requires top <= 8
    ensures k <= top && (k == 0 || RecordedOn(prReceipt, m, k).Some?)
    ensures forall i :: k < i <= top ==> RecordedOn(prReceipt, m, i).None?
  {
    if top == 0 || RecordedOn(prReceipt, m, top).Some? then top else HighestRecorded(prReceipt, m, top - 1)
  }

  lemma LadderAt(stage: nat, prReceipt: Option<Day>, ms: Option<Milestones>, k: nat)
    requires k <= 8 && k <= stage
    requires var m := match ms case Some(m) => m case None => NO_MILESTONES;
             && (k == 0 || RecordedOn(prReceipt, m, k).Some?)
             && forall i :: k < i <= 8 && i <= stage ==> RecordedOn(prReceipt, m, i).None?
    ensures var m := match ms case Some(m) => m case None => NO_MILESTONES;
            AgeingFrom(Running, stage, prReceipt, ms) == RecordedOn(prReceipt, m, k)
  {
    var m := match ms case Some(m) => m case None => NO_MILESTONES;
    assert stage >= 8 && k < 8 ==> RecordedOn(prReceipt, m, 8).None?;
    assert stage >= 7 && k < 7 ==> RecordedOn(prReceipt, m, 7).None?;
    assert stage >= 6 && k < 6 ==> RecordedOn(prReceipt, m, 6).None?;
    assert stage >= 5 && k < 5 ==> RecordedOn(prReceipt, m, 5).None?;
    assert stage >= 4 && k < 4 ==> RecordedOn(prReceipt, m, 4).None?;
    assert stage >= 3 && k < 3 ==> RecordedOn(prReceipt, m, 3).None?;
    assert stage >= 2 && k < 2 ==> RecordedOn(prReceipt, m, 2).None?;
    assert stage >= 1 && k < 1 ==> RecordedOn(prReceipt, m, 1).None?;
  }

  /** The days from one date to another, present exactly when the age applies and
      both dates are there. */
  predicate AgeIs(age: Option<int>, applies: bool, from: Option<Day>, to: Option<Day>) {
    && (age.Some? <==> applies && from.Some? && to.Some?)
    && (age.Some? && from.Some? && to.Some? ==> from.value + age.value == to.value)
  }

  /** The financial year printed for a day: the one from April to March it lies in. */
  ghost predicate YearIs(text: Option<string>, day: Option<Day>) {
    && (text.Some? <==> day.Some?)
    && (text.Some? && day.Some? ==> exists y ::
          text.value == Signed(y) + "-" + Signed(y + 1) && MakeDay(y, 3, 1) <= day.value < MakeDay(y + 1, 3, 1))
  }

  /** The slab's own bounds hold of the amount. */
  predicate SlabIs(slab: Option<string>, amount: Option<real>) {
    (slab.Some? <==> amount.Some?) && (slab.Some? && amount.Some? ==> SlabPredicate(slab.value, amount.value))
  }

  /** What a case's fact says about its source rows. */
  ghost predicate FactSays(today: Day, s: Source, f: CaseFact) {
    var c := s.kase;
    && f.attributes == c.attributes && f.status == c.status && f.stage == c.stage
    && f.desiredStage == c.desiredStage && f.prReceipt == c.prReceipt
    && (f.delayed <==> c.status == Running && c.tentativeCompletion.Some? && c.tentativeCompletion.value < today)
    && (match s.milestones case Some(m) => f.rcPoAward == m.rcPoAward case None => f.rcPoAward.None?)
    && YearIs(f.completionFy, f.rcPoAward)
    && AgeIs(f.runningAge, c.status == Running, c.prReceipt, Some(today))
    && AgeIs(f.completedAge, c.status == Completed, c.prReceipt, f.rcPoAward)
    && (c.status == Completed ==> f.stageAge.None?)
    && (c.status == Running ==> exists from ::
          && AgedFrom(c.prReceipt, match s.milestones case Some(m) => m case None => NO_MILESTONES, c.stage, from)
          && AgeIs(f.stageAge, true, from, Some(today)))
    && SlabIs(f.valueSlab, f.prValue) && SlabIs(f.rcPoValueSlab, f.totalAwarded)
    && (match s.financials
        case None =>
          && f.prValue.None? && f.estimate.None? && f.approved.None? && f.totalAwarded.None?
          && f.savingsPr.None? && f.savingsEstimate.None?
        case Some(n) =>
          && f.prValue == n.prValue && f.estimate == n.estimate && f.approved == n.approved
          && f.totalAwarded == Some(n.totalAwarded) && f.savingsPr == n.savingsPr && f.savingsEstimate == n.savingsEstimate)
  }

  lemma ProjectedSays(today: Day, s: Source)
    ensures FactSays(today, s, ProjectCase(today, s))
  {
    hide AgeingFrom, AgedFrom, Slab, SlabIs, YearIs, FyText;
    var f := ProjectCase(today, s);
    SlabPrinted(f.prValue);
    SlabPrinted(f.totalAwarded);
    YearPrinted(f.rcPoAward);
    if s.kase.status == Running {
      AgeingExact(s.kase.stage, s.kase.prReceipt, s.milestones);
      assert AgeIs(f.stageAge, true, AgeingFrom(Running, s.kase.stage, s.kase.prReceipt, s.milestones), Some(today));
    } else {
      NoAgeing(s.kase.stage, s.kase.prReceipt, s.milestones);
    }
  }

  lemma SlabPrinted(amount: Option<real>)
    ensures SlabIs(Mapped(amount, Slab), amount)
  {
    hide Slab, SlabPredicate;
    if amount.Some? { SlabPredicateExact(Slab(amount.value), amount.value); }
  }

  lemma YearPrinted(day: Option<Day>)
    ensures YearIs(Mapped(day, FyText), day)
  {
    hide FinancialYear, MakeDay;
    if day.Some? { FinancialYearHolds(day.value); }
  }

  lemma NoAgeing(stage: nat, prReceipt: Option<Day>, ms: Option<Milestones>)
    ensures AgeingFrom(Completed, stage, prReceipt, ms).None?
  {
  }

  /** The awards with a validity date, in order. */
  function WithValidity(awards: seq<(nat, Award)>): (r: seq<(nat, Award)>)
    ensures forall i :: 0 <= i < |r| ==> r[i].1.validityDate.Some?
  {
    if awards == [] then []
    else (if awards[0].1.validityDate.Some? then [awards[0]] else []) + WithValidity(awards[1..])
  }

  /** What one expiry fact says about its award: vendor, amount and dates are the
      award's own, tendering is due 120 days before the end unless a day is set, and
      it counts as deleted with its award or, failing that, with its case. */
  predicate ExpirySays(caseId: nat, c: Case, id: nat, a: Award, f: ExpiryFact) {
    && f.caseId == caseId && f.awardId == id && f.attributes == c.attributes
    && (if c.attributes.tenderName.Some? then f.description == c.attributes.tenderName
        else f.description == c.attributes.prDescription)
    && f.vendor == a.vendor && f.amount == a.value && f.awardDate == a.awardDate && Some(f.validityDate) == a.validityDate
    && (if a.tentativeTendering.Some? then Some(f.tentativeTendering) == a.tentativeTendering
        else f.tentativeTendering + 120 == f.validityDate)
    && f.floated == a.floated
    && (if a.deletedAt.Some? then f.sourceDeletedAt == a.deletedAt else f.sourceDeletedAt == c.deletedAt)
  }

  /** The facts are those of exactly the awards with a validity date, in order. */
  predicate ExpiriesSay(caseId: nat, c: Case, awards: seq<(nat, Award)>, facts: seq<ExpiryFact>) {
    var ended := WithValidity(awards);
    |facts| == |ended| && forall i :: 0 <= i < |facts| ==> ExpirySays(caseId, c, ended[i].0, ended[i].1, facts[i])
  }

  lemma {:induction false} ProjectedExpiriesSay(caseId: nat, c: Case, awards: seq<(nat, Award)>)
    ensures ExpiriesSay(caseId, c, awards, ProjectAwards(caseId, c, awards))
  {
    hide ExpirySays;
    if awards != [] {
      ProjectedExpiriesSay(caseId, c, awards[1..]);
      if awards[0].1.validityDate.Some? { FirstExpirySays(caseId, c, awards); }
    }
  }

  lemma FirstExpirySays(caseId: nat, c: Case, awards: seq<(nat, Award)>)
    requires awards != [] && awards[0].1.validityDate.Some?
    ensures ExpirySays(caseId, c, awards[0].0, awards[0].1, ProjectAwards(caseId, c, awards)[0])
  {
  }

  const SLAB_CODES: seq<string> := ["lt_2l", "2l_5l", "5l_10l", "10l_25l", "25l_50l", "50l_100l", "100l_200l", "gte_200l"]

  /** The filter over a nullable column: no condition unless some code is known. */
  predicate SlabFilter(codes: seq<string>, v: Option<real>) {
    (forall i :: 0 <= i < |codes| ==> codes[i] !in SLAB_CODES)
    || (v.Some? && exists i :: 0 <= i < |codes| && SlabPredicate(codes[i], v.value))
  }

  lemma SlabPredicateExact(code: string, v: real)
    ensures SlabPredicate(code, v) <==> code == Slab(v)
  {
  }

  /** The export's range conditions select a value exactly when its stored slab is
      among the chosen codes, or no chosen code is known. */
  lemma SlabFilterExact(codes: seq<string>, v: Option<real>)
    ensures SlabFilter(codes, v) <==>
            (forall i :: 0 <= i < |codes| ==> codes[i] !in SLAB_CODES) || (v.Some? && Slab(v.value) in codes)
  {
    hide SlabPredicate, Slab;
    if v.Some? {
      forall i | 0 <= i < |codes| ensures SlabPredicate(codes[i], v.value) <==> codes[i] == Slab(v.value) {
        SlabPredicateExact(codes[i], v.value);
      }
    }
  }

  datatype Track = Delayed | OffTrack | OnTrack

  /** The export's condition for a track status, on the fact and the case's date. */
  predicate TrackSelects(track: Track, f: CaseFact, tentative: Option<Day>, today: Day) {
    && f.status == Running
    && match track
       case Delayed => tentative.Some? && tentative.value < today
       case OffTrack => (tentative.None? || tentative.value >= today) && f.desiredStage.Some? && f.stage < f.desiredStage.value
       case OnTrack => (tentative.None? || tentative.value >= today) && (f.desiredStage.None? || f.stage >= f.desiredStage.value)
  }

  function TrackOf(f: CaseFact): Track {
    if f.delayed then Delayed else if f.desiredStage.Some? && f.stage < f.desiredStage.value then OffTrack else OnTrack
  }

  /** The three conditions partition the running cases, along the stored delay
      flag, and select no completed one. */
  lemma TracksPartition(today: Day, s: Source, track: Track)
    ensures var f := ProjectCase(today, s);
            TrackSelects(track, f, s.kase.tentativeCompletion, today) <==> s.kase.status == Running && track == TrackOf(f)
  {
  }
}

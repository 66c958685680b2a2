/** The reporting read model: source writes append events in their own
    transaction, dispatchers queue them at least once, and workers recompute the
    facts of the case an event names from its current source rows. */
module Projection {
  import opened Text
  import opened CaseRecords
  import Awards

  datatype Plan = Plan(caseId: Option<nat>, validityDate: Option<Day>, body: nat)

  /** A row of the expiry facts table, by its source type. */
  datatype FactRow = AwardRow(fact: ExpiryFact) | PlanRow(plan: nat, caseId: Option<nat>, validityDate: Day, body: nat)

  // ----- the refresh statements -----

  predicate OfCase(r: FactRow, c: nat) {
    r.AwardRow? && r.fact.caseId == c
  }

  function WithoutCase(rows: seq<FactRow>, c: nat): seq<FactRow> {
    if rows == [] then [] else (if OfCase(rows[0], c) then [] else [rows[0]]) + WithoutCase(rows[1..], c)
  }

  function WithoutPlan(rows: seq<FactRow>, p: nat): seq<FactRow> {
    if rows == [] then []
    else (if rows[0].PlanRow? && rows[0].plan == p then [] else [rows[0]]) + WithoutPlan(rows[1..], p)
  }

  function AwardRows(facts: seq<ExpiryFact>): seq<FactRow> {
    if facts == [] then [] else [AwardRow(facts[0])] + AwardRows(facts[1..])
  }

  function ExpiryOf(c: nat, s: Source): seq<ExpiryFact> {
    ProjectAwards(c, s.kase, s.awards)
  }

  function RefreshCase(rows: seq<FactRow>, c: nat, s: Option<Source>): seq<FactRow> {
    WithoutCase(rows, c) + match s case None => [] case Some(s) => AwardRows(ExpiryOf(c, s))
  }

  function RefreshPlan(rows: seq<FactRow>, p: nat, plan: Option<Plan>): seq<FactRow> {
    WithoutPlan(rows, p) + PlanFacts(p, plan)
  }

  function FactOf(r: FactRow, c: nat): seq<ExpiryFact> {
    if OfCase(r, c) then [r.fact] else []
  }

  /** The award-derived facts of one case, and the plan-derived rows, of a table. */
  function FactsOf(rows: seq<FactRow>, c: nat): seq<ExpiryFact> {
    if rows == [] then [] else FactOf(rows[0], c) + FactsOf(rows[1..], c)
  }

  function PlanRows(rows: seq<FactRow>): seq<FactRow> {
    if rows == [] then [] else (if rows[0].PlanRow? then [rows[0]] else []) + PlanRows(rows[1..])
  }

  lemma {:induction false} FactsOfConcat(a: seq<FactRow>, b: seq<FactRow>, c: nat)
    ensures FactsOf(a + b, c) == FactsOf(a, c) + FactsOf(b, c)
  {
    hide FactOf;
    if a == [] {
      assert a + b == b;
    } else {
      assert (a + b)[0] == a[0] && (a + b)[1..] == a[1..] + b;
      FactsOfConcat(a[1..], b, c);
      var head, x, y := FactOf(a[0], c), FactsOf(a[1..], c), FactsOf(b, c);
      assert head + (x + y) == (head + x) + y;
    }
  }

  lemma {:induction false} PlanRowsConcat(a: seq<FactRow>, b: seq<FactRow>)
    ensures PlanRows(a + b) == PlanRows(a) + PlanRows(b)
  {
    if a == [] {
      assert a + b == b;
    } else {
      assert (a + b)[0] == a[0] && (a + b)[1..] == a[1..] + b;
      PlanRowsConcat(a[1..], b);
    }
  }

  lemma {:induction false} WithoutCaseFacts(rows: seq<FactRow>, c: nat, d: nat)
    ensures FactsOf(WithoutCase(rows, c), d) == if c == d then [] else FactsOf(rows, d)
    ensures PlanRows(WithoutCase(rows, c)) == PlanRows(rows)
  {
    if rows != [] {
      WithoutCaseFacts(rows[1..], c, d);
      var rest := WithoutCase(rows[1..], c);
      if !OfCase(rows[0], c) { assert ([rows[0]] + rest)[1..] == rest; } else { assert WithoutCase(rows, c) == rest; }
    }
  }

  lemma {:induction false} WithoutPlanFacts(rows: seq<FactRow>, p: nat, d: nat)
    ensures FactsOf(WithoutPlan(rows, p), d) == FactsOf(rows, d)
  {
    if rows != [] {
      WithoutPlanFacts(rows[1..], p, d);
      var rest := WithoutPlan(rows[1..], p);
      if rows[0].PlanRow? && rows[0].plan == p { assert WithoutPlan(rows, p) == rest; } else { assert ([rows[0]] + rest)[1..] == rest; }
    }
  }

  lemma {:induction false} AwardRowsFacts(facts: seq<ExpiryFact>, c: nat, d: nat)
    requires forall i :: 0 <= i < |facts| ==> facts[i].caseId == c
    ensures FactsOf(AwardRows(facts), d) == if c == d then facts else []
    ensures PlanRows(AwardRows(facts)) == []
  {
    if facts != [] {
      AwardRowsFacts(facts[1..], c, d);
      assert AwardRows(facts)[1..] == AwardRows(facts[1..]);
    }
  }

  lemma ExpiryCaseIds(c: nat, s: Source)
    ensures forall i :: 0 <= i < |ExpiryOf(c, s)| ==> ExpiryOf(c, s)[i].caseId == c
  {
    ProjectedCaseIds(c, s.kase, s.awards);
  }

  lemma {:induction false} ProjectedCaseIds(c: nat, k: Case, awards: seq<(nat, Award)>)
    ensures forall i :: 0 <= i < |ProjectAwards(c, k, awards)| ==> ProjectAwards(c, k, awards)[i].caseId == c
  {
    if awards != [] { ProjectedCaseIds(c, k, awards[1..]); }
  }

  /** Refreshing a case replaces exactly its award-derived facts by the projection
      of its awards; no other case's facts and no plan-derived row is touched. */
  lemma RefreshCaseExact(rows: seq<FactRow>, c: nat, s: Option<Source>, d: nat)
    ensures var after := RefreshCase(rows, c, s);
            && FactsOf(after, d) == (if d != c then FactsOf(rows, d) else match s case None => [] case Some(s) => ExpiryOf(c, s))
            && PlanRows(after) == PlanRows(rows)
  {
    hide ExpiryOf, FactsOf, PlanRows, WithoutCase, AwardRows;
    WithoutCaseFacts(rows, c, d);
    if s.Some? {
      ExpiryCaseIds(c, s.value);
      AwardRowsFacts(ExpiryOf(c, s.value), c, d);
      FactsOfConcat(WithoutCase(rows, c), AwardRows(ExpiryOf(c, s.value)), d);
      PlanRowsConcat(WithoutCase(rows, c), AwardRows(ExpiryOf(c, s.value)));
    } else {
      assert WithoutCase(rows, c) + [] == WithoutCase(rows, c);
    }
  }

  function PlanOf(r: FactRow, p: nat): seq<FactRow> {
    if r.PlanRow? && r.plan == p then [r] else []
  }

  /** The rows derived from one plan. */
  function RowsOfPlan(rows: seq<FactRow>, p: nat): seq<FactRow> {
    if rows == [] then [] else PlanOf(rows[0], p) + RowsOfPlan(rows[1..], p)
  }

  lemma {:induction false} RowsOfPlanConcat(a: seq<FactRow>, b: seq<FactRow>, p: nat)
    ensures RowsOfPlan(a + b, p) == RowsOfPlan(a, p) + RowsOfPlan(b, p)
  {
    hide PlanOf;
    if a == [] {
      assert a + b == b;
    } else {
      assert (a + b)[0] == a[0] && (a + b)[1..] == a[1..] + b;
      RowsOfPlanConcat(a[1..], b, p);
      var head, x, y := PlanOf(a[0], p), RowsOfPlan(a[1..], p), RowsOfPlan(b, p);
      assert head + (x + y) == (head + x) + y;
    }
  }

  lemma {:induction false} WithoutPlanRows(rows: seq<FactRow>, p: nat, q: nat)
    ensures RowsOfPlan(WithoutPlan(rows, p), q) == if p == q then [] else RowsOfPlan(rows, q)
  {
    if rows != [] {
      WithoutPlanRows(rows[1..], p, q);
      var rest := WithoutPlan(rows[1..], p);
      if rows[0].PlanRow? && rows[0].plan == p {
        assert WithoutPlan(rows, p) == rest;
      } else {
        assert ([rows[0]] + rest)[1..] == rest;
      }
    }
  }

  /** The row a plan should have: one when it exists and has a validity date. */
  function PlanFacts(p: nat, plan: Option<Plan>): seq<FactRow> {
    if plan.Some? && plan.value.validityDate.Some? then
      [PlanRow(p, plan.value.caseId, plan.value.validityDate.value, plan.value.body)]
    else []
  }

  /** Refreshing a plan replaces exactly that plan's rows by the one it should have;
      no other plan's row and no case's award-derived fact is touched. */
  lemma RefreshPlanExact(rows: seq<FactRow>, p: nat, plan: Option<Plan>, q: nat, d: nat)
    ensures var after := RefreshPlan(rows, p, plan);
            && RowsOfPlan(after, q) == (if q == p then PlanFacts(p, plan) else RowsOfPlan(rows, q))
            && FactsOf(after, d) == FactsOf(rows, d)
  {
    var added := PlanFacts(p, plan);
    WithoutPlanFacts(rows, p, d);
    FactsOfConcat(WithoutPlan(rows, p), added, d);
    assert FactsOf(added, d) == [];
    WithoutPlanRows(rows, p, q);
    RowsOfPlanConcat(WithoutPlan(rows, p), added, q);
    PlanFactsRows(p, plan, q);
  }

  lemma PlanFactsRows(p: nat, plan: Option<Plan>, q: nat)
    ensures RowsOfPlan(PlanFacts(p, plan), q) == if p == q then PlanFacts(p, plan) else []
  {
    var facts := PlanFacts(p, plan);
    if facts != [] { assert facts[1..] == []; }
  }

  // ----- one event, undisturbed -----

  datatype Kind = CaseEvent | AwardEvent | PlanEvent

  datatype Sources = Sources(cases: map<nat, Source>, awardCase: map<nat, nat>, plans: map<nat, Plan>)

  datatype Facts = Facts(cases: map<nat, CaseFact>, expiry: seq<FactRow>)

  /** The case an event is about: an award event is looked up as an award id first. */
  function Target(src: Sources, kind: Kind, aggregate: nat): nat {
    if kind == AwardEvent && aggregate in src.awardCase then src.awardCase[aggregate] else aggregate
  }

  function Upserted(f: Facts, src: Sources, today: Day, c: nat): Facts {
    if c in src.cases then f.(cases := f.cases[c := ProjectCase(today, src.cases[c])]) else f
  }

  function Refreshed(f: Facts, src: Sources, c: nat): Facts {
    f.(expiry := RefreshCase(f.expiry, c, Lookup(src.cases, c)))
  }

  function PlanRefreshed(f: Facts, src: Sources, p: nat): Facts {
    f.(expiry := RefreshPlan(f.expiry, p, Lookup(src.plans, p)))
  }

  /** What processing one event does to the facts. */
  function Processed(f: Facts, src: Sources, today: Day, kind: Kind, aggregate: nat): Facts {
    if kind == PlanEvent then PlanRefreshed(f, src, aggregate)
    else
      var c := Target(src, kind, aggregate);
      Refreshed(Upserted(f, src, today, c), src, c)
  }

  /** One case's facts in the tables say what its source rows say. */
  ghost predicate CaseSays(f: Facts, src: Sources, today: Day, c: nat)
    requires c in src.cases
  {
    && c in f.cases && FactSays(today, src.cases[c], f.cases[c])
    && ExpiriesSay(c, src.cases[c].kase, src.cases[c].awards, FactsOf(f.expiry, c))
  }

  /** What processing an event leaves in the tables: of the case it names, facts that
      say what the source rows say, or no expiry facts and the old case fact when
      there is no such case; of a plan, its row if it has a validity date; and
      everything else as it was. */
  ghost predicate ProcessedSays(f: Facts, g: Facts, src: Sources, today: Day, kind: Kind, aggregate: nat) {
    if kind == PlanEvent then
      && g.cases == f.cases
      && (forall c :: FactsOf(g.expiry, c) == FactsOf(f.expiry, c))
      && (forall p :: p != aggregate ==> RowsOfPlan(g.expiry, p) == RowsOfPlan(f.expiry, p))
      && (if aggregate in src.plans && src.plans[aggregate].validityDate.Some? then
            var plan := src.plans[aggregate];
            RowsOfPlan(g.expiry, aggregate) == [PlanRow(aggregate, plan.caseId, plan.validityDate.value, plan.body)]
          else RowsOfPlan(g.expiry, aggregate) == [])
    else
      var c := if kind == AwardEvent && aggregate in src.awardCase then src.awardCase[aggregate] else aggregate;
      && (if c in src.cases then CaseSays(g, src, today, c)
          else FactsOf(g.expiry, c) == [] && Lookup(g.cases, c) == Lookup(f.cases, c))
      && (forall d :: d != c ==> Lookup(g.cases, d) == Lookup(f.cases, d) && FactsOf(g.expiry, d) == FactsOf(f.expiry, d))
      && PlanRows(g.expiry) == PlanRows(f.expiry)
  }

  lemma ProcessedExact(f: Facts, src: Sources, today: Day, kind: Kind, aggregate: nat)
    ensures ProcessedSays(f, Processed(f, src, today, kind, aggregate), src, today, kind, aggregate)
  {
    hide ProjectCase, RefreshCase, RefreshPlan, FactsOf, PlanRows, RowsOfPlan, FactSays, ExpiriesSay;
    if kind == PlanEvent {
      var plan := Lookup(src.plans, aggregate);
      var after := RefreshPlan(f.expiry, aggregate, plan);
      forall c ensures FactsOf(after, c) == FactsOf(f.expiry, c) { RefreshPlanExact(f.expiry, aggregate, plan, aggregate, c); }
      forall p
        ensures RowsOfPlan(after, p) == if p == aggregate then PlanFacts(aggregate, plan) else RowsOfPlan(f.expiry, p)
      {
        RefreshPlanExact(f.expiry, aggregate, plan, p, 0);
      }
    } else {
      var c := Target(src, kind, aggregate);
      if c in src.cases {
        ProjectedSays(today, src.cases[c]);
        ProjectedExpiriesSay(c, src.cases[c].kase, src.cases[c].awards);
      }
      forall d ensures var after := RefreshCase(f.expiry, c, Lookup(src.cases, c));
                       && FactsOf(after, d) == (if d != c then FactsOf(f.expiry, d)
                                                else match Lookup(src.cases, c) case None => [] case Some(s) => ExpiryOf(c, s))
                       && PlanRows(after) == PlanRows(f.expiry)
      {
        RefreshCaseExact(f.expiry, c, Lookup(src.cases, c), d);
      }
    }
  }

  /** The facts tables, written by the projection worker. */
  class ReadModel {
    const today: Day
    var cases: map<nat, CaseFact>
    var expiry: seq<FactRow>

    function View(): Facts reads this {
      Facts(cases, expiry)
    }

    constructor (today: Day)
      ensures View() == Facts(map[], []) && this.today == today
    {
      this.today := today;
      cases, expiry := map[], [];
    }

    method ProcessReportingProjection(src: Sources, kind: Kind, aggregate: nat)
      modifies this
      ensures View() == Processed(old(View()), src, today, kind, aggregate)
      ensures var c := Target(src, kind, aggregate);
              kind != PlanEvent && c in src.cases ==>
                c in cases && cases[c] == ProjectCase(today, src.cases[c]) && FactsOf(expiry, c) == ExpiryOf(c, src.cases[c])
      ensures ProcessedSays(old(View()), View(), src, today, kind, aggregate)
    {
      hide ProcessedSays;
      ProcessedExact(View(), src, today, kind, aggregate);
      hide ProjectCase, RefreshCase, RefreshPlan, ExpiryOf, FactsOf;
      ghost var target := Target(src, kind, aggregate);
      RefreshCaseExact(expiry, target, Lookup(src.cases, target), target);
      if kind == CaseEvent {
        UpsertCaseFact(src, aggregate);
        RefreshContractExpiryForCase(src, aggregate);
      } else if kind == AwardEvent {
        var caseId := if aggregate in src.awardCase then src.awardCase[aggregate] else aggregate;
        UpsertCaseFact(src, caseId);
        RefreshContractExpiryForCase(src, caseId);
      } else {
        RefreshContractExpiryForPlan(src, aggregate);
      }
    }

    method UpsertCaseFact(src: Sources, c: nat)
      modifies this`cases
      ensures View() == Upserted(old(View()), src, today, c)
    {
      if c in src.cases { cases := cases[c := ProjectCase(today, src.cases[c])]; }
    }

    method RefreshContractExpiryForCase(src: Sources, c: nat)
      modifies this`expiry
      ensures View() == Refreshed(old(View()), src, c)
    {
      expiry := WithoutCase(expiry, c);
      if c in src.cases {
        expiry := expiry + AwardRows(ExpiryOf(c, src.cases[c]));
      } else {
        assert expiry + [] == expiry;
      }
    }

    method RefreshContractExpiryForPlan(src: Sources, p: nat)
      modifies this`expiry
      ensures View() == PlanRefreshed(old(View()), src, p)
    {
      expiry := WithoutPlan(expiry, p);
      if p in src.plans && src.plans[p].validityDate.Some? {
        expiry := expiry + [PlanRow(p, src.plans[p].caseId, src.plans[p].validityDate.value, src.plans[p].body)];
      } else {
        assert expiry + [] == expiry;
      }
    }
  }

  // ----- the pipeline -----

  datatype EventStatus = Waiting | Sent | Dead

  datatype Event = Event(kind: Kind, aggregate: nat, status: EventStatus)

  /** A queued message, with what some delivery of it has already done. */
  datatype Message = Message(kind: Kind, aggregate: nat, caseDone: bool, expiryDone: bool, exhausted: bool)

  datatype Work = Work(message: nat, kind: Kind, target: nat, done: nat)

  datatype State = State(src: Sources, outbox: map<nat, Event>, queue: map<nat, Message>,
                         workers: map<nat, Work>, facts: Facts, nextId: nat)

  datatype Action =
    | WriteCase(c: nat, source: Source, more: bool)
    | WriteAward(c: nat, source: Source, award: nat)
    | WritePlan(p: nat, plan: Plan)
    | Dispatch(e: nat, commits: bool)
    | GiveUp(e: nat)
    | Deliver(p: nat, m: nat)
    | Upsert(p: nat)
    | Refresh(p: nat)
    | Ack(p: nat)
    | Die(p: nat)
    | Exhaust(m: nat)

  predicate Enabled(s: State, a: Action) {
    match a
    case WriteCase(c, _, _) => c !in s.src.awardCase
    case WriteAward(c, _, award) =>
      c in s.src.cases && award !in s.src.cases && (award in s.src.awardCase ==> s.src.awardCase[award] == c)
    case WritePlan(_, _) => true
    case Dispatch(e, _) => e in s.outbox && s.outbox[e].status == Waiting
    case GiveUp(e) => e in s.outbox && s.outbox[e].status == Waiting
    case Deliver(_, m) => m in s.queue && !s.queue[m].exhausted
    case Upsert(p) => p in s.workers && s.workers[p].done == 0
    case Refresh(p) => p in s.workers && s.workers[p].done == 1
    case Ack(p) => p in s.workers && s.workers[p].done == 2
    case Die(p) => p in s.workers
    case Exhaust(m) => m in s.queue
  }

  function Appended(outbox: map<nat, Event>, id: nat, kind: Kind, aggregate: nat): map<nat, Event> {
    outbox[id := Event(kind, aggregate, Waiting)]
  }

  function Noted(queue: map<nat, Message>, m: nat, caseDone: bool, expiryDone: bool): map<nat, Message> {
    if m in queue then
      queue[m := queue[m].(caseDone := queue[m].caseDone || caseDone, expiryDone := queue[m].expiryDone || expiryDone)]
    else queue
  }

  /** One transaction, one delivery step, or one failure; `more` adds the second
      event some case writes emit. Award writes also refresh part of the facts. */
  function Apply(s: State, a: Action, today: Day): State {
    if !Enabled(s, a) then s else
    match a
    case WriteCase(c, source, more) =>
      var once := Appended(s.outbox, s.nextId, CaseEvent, c);
      s.(src := s.src.(cases := s.src.cases[c := source]),
         outbox := if more then Appended(once, s.nextId + 1, CaseEvent, c) else once, nextId := s.nextId + 2)
    case WriteAward(c, source, award) =>
      s.(src := s.src.(cases := s.src.cases[c := source], awardCase := s.src.awardCase[award := c]),
         facts := s.facts.(cases := s.facts.cases[c := Awards.RefreshedFact(Lookup(s.facts.cases, c), today, source)]),
         outbox := Appended(s.outbox, s.nextId, AwardEvent, c), nextId := s.nextId + 1)
    case WritePlan(p, plan) =>
      s.(src := s.src.(plans := s.src.plans[p := plan]),
         outbox := Appended(s.outbox, s.nextId, PlanEvent, p), nextId := s.nextId + 1)
    case Dispatch(e, commits) =>
      var ev := s.outbox[e];
      s.(queue := s.queue[s.nextId := Message(ev.kind, ev.aggregate, false, false, false)],
         outbox := if commits then s.outbox[e := ev.(status := Sent)] else s.outbox, nextId := s.nextId + 1)
    case GiveUp(e) => s.(outbox := s.outbox[e := s.outbox[e].(status := Dead)])
    case Deliver(p, m) =>
      var q := s.queue[m];
      s.(workers := s.workers[p := Work(m, q.kind, Target(s.src, q.kind, q.aggregate), 0)])
    case Upsert(p) =>
      var w := s.workers[p];
      if w.kind == PlanEvent then
        s.(facts := PlanRefreshed(s.facts, s.src, w.target), workers := s.workers[p := w.(done := 2)])
      else
        s.(facts := Upserted(s.facts, s.src, today, w.target), queue := Noted(s.queue, w.message, true, false),
           workers := s.workers[p := w.(done := 1)])
    case Refresh(p) =>
      var w := s.workers[p];
      s.(facts := Refreshed(s.facts, s.src, w.target), queue := Noted(s.queue, w.message, false, true),
         workers := s.workers[p := w.(done := 2)])
    case Ack(p) => s.(queue := s.queue - {s.workers[p].message}, workers := s.workers - {p})
    case Die(p) => s.(workers := s.workers - {p})
    case Exhaust(m) => s.(queue := s.queue[m := s.queue[m].(exhausted := true)])
  }

  function Run(s: State, actions: seq<Action>, today: Day): State
    decreases |actions|
  {
    if actions == [] then s else Run(Apply(s, actions[0], today), actions[1..], today)
  }

  function Start(): State {
    State(Sources(map[], map[], map[]), map[], map[], map[], Facts(map[], []), 0)
  }

  // ----- agreement -----

  predicate CaseAgrees(s: State, today: Day, c: nat)
    requires c in s.src.cases
  {
    c in s.facts.cases && s.facts.cases[c] == ProjectCase(today, s.src.cases[c])
  }

  predicate ExpiryAgrees(s: State, c: nat)
    requires c in s.src.cases
  {
    FactsOf(s.facts.expiry, c) == ExpiryOf(c, s.src.cases[c])
  }

  predicate EventFor(s: State, e: nat, c: nat) {
    e in s.outbox && s.outbox[e].kind != PlanEvent && s.outbox[e].aggregate == c && s.outbox[e].status != Sent
  }

  predicate MessageFor(s: State, m: nat, c: nat) {
    m in s.queue && s.queue[m].kind != PlanEvent && s.queue[m].aggregate == c
  }

  /** Work that will still recompute the case's fact: an event not handed over or
      given up, or a message (queued or exhausted) none of whose deliveries has. */
  ghost predicate CaseOutstanding(s: State, c: nat) {
    (exists e :: EventFor(s, e, c)) || exists m :: MessageFor(s, m, c) && !s.queue[m].caseDone
  }

  ghost predicate ExpiryOutstanding(s: State, c: nat) {
    (exists e :: EventFor(s, e, c)) || exists m :: MessageFor(s, m, c) && !s.queue[m].expiryDone
  }

  ghost predicate Covered(s: State, today: Day) {
    forall c :: c in s.src.cases ==>
      (CaseAgrees(s, today, c) || CaseOutstanding(s, c)) && (ExpiryAgrees(s, c) || ExpiryOutstanding(s, c))
  }

  /** Ids are fresh, events and messages name cases, and a worker's progress is
      noted on its message. */
  ghost predicate WellFormed(s: State) {
    && (forall k :: k in s.src.awardCase ==> k !in s.src.cases && s.src.awardCase[k] in s.src.cases)
    && (forall e :: e in s.outbox ==> e < s.nextId && (s.outbox[e].kind != PlanEvent ==> s.outbox[e].aggregate in s.src.cases))
    && (forall m :: m in s.queue ==> m < s.nextId && (s.queue[m].kind != PlanEvent ==> s.queue[m].aggregate in s.src.cases))
    && (forall p :: p in s.workers ==> WorkOk(s, s.workers[p]))
  }

  predicate WorkOk(s: State, w: Work) {
    && w.message < s.nextId && w.done <= 2
    && (w.message in s.queue ==>
          && s.queue[w.message].kind == w.kind
          && (w.kind != PlanEvent ==>
                && s.queue[w.message].aggregate == w.target
                && (w.done >= 1 ==> s.queue[w.message].caseDone)
                && (w.done >= 2 ==> s.queue[w.message].expiryDone)))
  }

  ghost predicate Inv(s: State, today: Day) {
    WellFormed(s) && Covered(s, today)
  }
}

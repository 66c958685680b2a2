/** At-least-once delivery and recomputation give convergence: a case whose facts
    disagree with its source rows still has work outstanding, and draining all
    outstanding work makes every case agree. */
module ProjectionConvergence {
  import opened Text
  import opened CaseRecords
  import opened Projection
  import Awards

  // ----- each action keeps the invariant -----

  /** Nothing that concerns case c has changed, and no witness for it was lost. */
  lemma StillCovered(s: State, t: State, today: Day, c: nat)
    requires c in s.src.cases && c in t.src.cases && s.src.cases[c] == t.src.cases[c]
    requires CaseAgrees(s, today, c) || CaseOutstanding(s, c)
    requires ExpiryAgrees(s, c) || ExpiryOutstanding(s, c)
    requires CaseAgrees(s, today, c) ==> CaseAgrees(t, today, c)
    requires FactsOf(s.facts.expiry, c) == FactsOf(t.facts.expiry, c)
    requires forall e :: EventFor(s, e, c) ==>
      EventFor(t, e, c) || exists m :: MessageFor(t, m, c) && !t.queue[m].caseDone && !t.queue[m].expiryDone
    requires forall m :: MessageFor(s, m, c) && !s.queue[m].caseDone ==> MessageFor(t, m, c) && !t.queue[m].caseDone
    requires forall m :: MessageFor(s, m, c) && !s.queue[m].expiryDone ==> MessageFor(t, m, c) && !t.queue[m].expiryDone
    ensures CaseAgrees(t, today, c) || CaseOutstanding(t, c)
    ensures ExpiryAgrees(t, c) || ExpiryOutstanding(t, c)
  {
    hide ProjectCase, FactsOf, ExpiryOf, EventFor;
    if !CaseAgrees(s, today, c) {
      if m :| MessageFor(s, m, c) && !s.queue[m].caseDone { assert MessageFor(t, m, c); }
    }
    if !ExpiryAgrees(s, c) {
      if m :| MessageFor(s, m, c) && !s.queue[m].expiryDone { assert MessageFor(t, m, c); }
    }
  }

  /** A source write covers the case it touches by its own event. */
  lemma WriteCovered(s: State, t: State, today: Day, touched: Option<nat>)
    requires Covered(s, today) && t.queue == s.queue && t.facts.expiry == s.facts.expiry
    requires forall e :: e in s.outbox ==> e in t.outbox && t.outbox[e] == s.outbox[e]
    requires touched.Some? ==> exists e :: EventFor(t, e, touched.value)
    requires forall c :: c in t.src.cases && Some(c) != touched ==>
      c in s.src.cases && t.src.cases[c] == s.src.cases[c] && Lookup(t.facts.cases, c) == Lookup(s.facts.cases, c)
    ensures Covered(t, today)
  {
    hide ProjectCase, FactsOf, ExpiryOf;
    forall c | c in t.src.cases
      ensures (CaseAgrees(t, today, c) || CaseOutstanding(t, c)) && (ExpiryAgrees(t, c) || ExpiryOutstanding(t, c))
    {
      if Some(c) == touched {
        var e :| EventFor(t, e, c);
      } else {
        StillCovered(s, t, today, c);
      }
    }
  }

  lemma WriteCaseKeeps(s: State, a: Action, today: Day)
    requires Inv(s, today) && Enabled(s, a) && a.WriteCase?
    ensures Inv(Apply(s, a, today), today)
  {
    hide Covered;
    var t := Apply(s, a, today);
    assert EventFor(t, s.nextId, a.c);
    WriteCovered(s, t, today, Some(a.c));
  }

  lemma WriteAwardKeeps(s: State, a: Action, today: Day)
    requires Inv(s, today) && Enabled(s, a) && a.WriteAward?
    ensures Inv(Apply(s, a, today), today)
  {
    hide Covered, Awards.RefreshedFact;
    var t := Apply(s, a, today);
    assert EventFor(t, s.nextId, a.c);
    WriteCovered(s, t, today, Some(a.c));
  }

  lemma WritePlanKeeps(s: State, a: Action, today: Day)
    requires Inv(s, today) && Enabled(s, a) && a.WritePlan?
    ensures Inv(Apply(s, a, today), today)
  {
    hide Covered;
    WriteCovered(s, Apply(s, a, today), today, None);
  }

  /** Steps between a source write and the worker leave facts and sources alone. */
  lemma HandOverCovered(s: State, t: State, today: Day)
    requires Covered(s, today) && t.src == s.src && t.facts == s.facts
    requires forall m, c :: MessageFor(s, m, c) ==>
      MessageFor(t, m, c) && t.queue[m].caseDone == s.queue[m].caseDone && t.queue[m].expiryDone == s.queue[m].expiryDone
    requires forall e, c :: EventFor(s, e, c) ==>
      EventFor(t, e, c) || exists m :: MessageFor(t, m, c) && !t.queue[m].caseDone && !t.queue[m].expiryDone
    ensures Covered(t, today)
  {
    hide ProjectCase, FactsOf, ExpiryOf, EventFor;
    forall c | c in t.src.cases
      ensures (CaseAgrees(t, today, c) || CaseOutstanding(t, c)) && (ExpiryAgrees(t, c) || ExpiryOutstanding(t, c))
    {
      StillCovered(s, t, today, c);
    }
  }

  lemma DispatchKeeps(s: State, a: Action, today: Day)
    requires Inv(s, today) && Enabled(s, a) && a.Dispatch?
    ensures Inv(Apply(s, a, today), today)
  {
    hide Covered;
    var t := Apply(s, a, today);
    forall e, c | EventFor(s, e, c)
      ensures EventFor(t, e, c) || exists m :: MessageFor(t, m, c) && !t.queue[m].caseDone && !t.queue[m].expiryDone
    {
      if a.e == e { assert MessageFor(t, s.nextId, c); }
    }
    HandOverCovered(s, t, today);
  }

  lemma QueueKeeps(s: State, a: Action, today: Day)
    requires Inv(s, today) && Enabled(s, a) && (a.GiveUp? || a.Deliver? || a.Die? || a.Exhaust?)
    ensures Inv(Apply(s, a, today), today)
  {
    hide Covered;
    HandOverCovered(s, Apply(s, a, today), today);
  }

  lemma PlanCovered(s: State, t: State, today: Day, p: nat)
    requires Covered(s, today) && t.src == s.src && t.outbox == s.outbox && t.queue == s.queue
    requires t.facts == PlanRefreshed(s.facts, s.src, p)
    ensures Covered(t, today)
  {
    hide ProjectCase, FactsOf, ExpiryOf, RefreshPlan;
    forall c | c in t.src.cases
      ensures (CaseAgrees(t, today, c) || CaseOutstanding(t, c)) && (ExpiryAgrees(t, c) || ExpiryOutstanding(t, c))
    {
      RefreshPlanExact(s.facts.expiry, p, Lookup(s.src.plans, p), 0, c);
      StillCovered(s, t, today, c);
    }
  }

  lemma UpsertCovered(s: State, t: State, today: Day, m: nat, target: nat)
    requires Covered(s, today) && t.src == s.src && t.outbox == s.outbox
    requires t.facts == Upserted(s.facts, s.src, today, target) && t.queue == Noted(s.queue, m, true, false)
    requires m in s.queue && s.queue[m].kind != PlanEvent ==> s.queue[m].aggregate == target
    ensures Covered(t, today)
  {
    hide ProjectCase, FactsOf, ExpiryOf;
    forall c | c in t.src.cases
      ensures (CaseAgrees(t, today, c) || CaseOutstanding(t, c)) && (ExpiryAgrees(t, c) || ExpiryOutstanding(t, c))
    {
      if target == c {
        assert CaseAgrees(t, today, c);
        NotedExpiry(s, t, m, c);
      } else {
        StillCovered(s, t, today, c);
      }
    }
  }

  lemma UpsertKeeps(s: State, p: nat, today: Day)
    requires Inv(s, today) && Enabled(s, Upsert(p))
    ensures Inv(Apply(s, Upsert(p), today), today)
  {
    hide Covered, PlanRefreshed, Upserted;
    var t := Apply(s, Upsert(p), today);
    var w := s.workers[p];
    assert WorkOk(s, w);
    if w.kind == PlanEvent {
      PlanCovered(s, t, today, w.target);
    } else {
      UpsertCovered(s, t, today, w.message, w.target);
    }
  }

  /** Noting the case as done loses no witness for its expiry rows. */
  lemma NotedExpiry(s: State, t: State, m: nat, c: nat)
    requires c in s.src.cases && t.src == s.src && t.outbox == s.outbox
    requires t.facts.expiry == s.facts.expiry && t.queue == Noted(s.queue, m, true, false)
    requires ExpiryAgrees(s, c) || ExpiryOutstanding(s, c)
    ensures ExpiryAgrees(t, c) || ExpiryOutstanding(t, c)
  {
    hide FactsOf, ExpiryOf;
    if !ExpiryAgrees(s, c) {
      if e :| EventFor(s, e, c) {
        assert EventFor(t, e, c);
      } else {
        var k :| MessageFor(s, k, c) && !s.queue[k].expiryDone;
        assert MessageFor(t, k, c) && !t.queue[k].expiryDone;
      }
    }
  }

  lemma RefreshCovered(s: State, t: State, today: Day, m: nat, target: nat)
    requires Covered(s, today) && t.src == s.src && t.outbox == s.outbox
    requires t.facts == Refreshed(s.facts, s.src, target) && t.queue == Noted(s.queue, m, false, true)
    requires m in s.queue && s.queue[m].kind != PlanEvent ==> s.queue[m].aggregate == target
    ensures Covered(t, today)
  {
    hide ProjectCase, FactsOf, ExpiryOf, RefreshCase;
    forall c | c in t.src.cases
      ensures (CaseAgrees(t, today, c) || CaseOutstanding(t, c)) && (ExpiryAgrees(t, c) || ExpiryOutstanding(t, c))
    {
      RefreshCaseExact(s.facts.expiry, target, Lookup(s.src.cases, target), c);
      if target == c {
        assert ExpiryAgrees(t, c);
        NotedCase(s, t, m, today, c);
      } else {
        StillCovered(s, t, today, c);
      }
    }
  }

  lemma RefreshKeeps(s: State, p: nat, today: Day)
    requires Inv(s, today) && Enabled(s, Refresh(p))
    ensures Inv(Apply(s, Refresh(p), today), today)
  {
    hide Covered, Refreshed;
    var w := s.workers[p];
    assert WorkOk(s, w);
    RefreshCovered(s, Apply(s, Refresh(p), today), today, w.message, w.target);
  }

  /** Noting the expiry rows as done loses no witness for the case's fact. */
  lemma NotedCase(s: State, t: State, m: nat, today: Day, c: nat)
    requires c in s.src.cases && t.src == s.src && t.outbox == s.outbox
    requires t.facts.cases == s.facts.cases && t.queue == Noted(s.queue, m, false, true)
    requires CaseAgrees(s, today, c) || CaseOutstanding(s, c)
    ensures CaseAgrees(t, today, c) || CaseOutstanding(t, c)
  {
    hide ProjectCase;
    if !CaseAgrees(s, today, c) {
      if e :| EventFor(s, e, c) {
        assert EventFor(t, e, c);
      } else {
        var k :| MessageFor(s, k, c) && !s.queue[k].caseDone;
        assert MessageFor(t, k, c) && !t.queue[k].caseDone;
      }
    }
  }

  lemma AckKeeps(s: State, p: nat, today: Day)
    requires Inv(s, today) && Enabled(s, Ack(p))
    ensures Inv(Apply(s, Ack(p), today), today)
  {
    hide ProjectCase, FactsOf, ExpiryOf;
    var t := Apply(s, Ack(p), today);
    var w := s.workers[p];
    assert WorkOk(s, w);
    assert WellFormed(t);
    forall c | c in t.src.cases
      ensures (CaseAgrees(t, today, c) || CaseOutstanding(t, c)) && (ExpiryAgrees(t, c) || ExpiryOutstanding(t, c))
    {
      assert MessageFor(s, w.message, c) ==> s.queue[w.message].caseDone && s.queue[w.message].expiryDone;
      StillCovered(s, t, today, c);
    }
  }

  lemma ApplyKeeps(s: State, a: Action, today: Day)
    requires Inv(s, today)
    ensures Inv(Apply(s, a, today), today)
  {
    hide Inv, Enabled;
    if Enabled(s, a) {
      hide Apply;
      match a
      case WriteCase(_, _, _) => WriteCaseKeeps(s, a, today);
      case WriteAward(_, _, _) => WriteAwardKeeps(s, a, today);
      case WritePlan(_, _) => WritePlanKeeps(s, a, today);
      case Dispatch(_, _) => DispatchKeeps(s, a, today);
      case Upsert(p) => UpsertKeeps(s, p, today);
      case Refresh(p) => RefreshKeeps(s, p, today);
      case Ack(p) => AckKeeps(s, p, today);
      case _ => QueueKeeps(s, a, today);
    }
  }

  lemma {:induction false} RunKeeps(s: State, actions: seq<Action>, today: Day)
    requires Inv(s, today)
    ensures Inv(Run(s, actions, today), today)
    decreases |actions|
  {
    hide Inv, Apply;
    if actions != [] {
      ApplyKeeps(s, actions[0], today);
      RunKeeps(Apply(s, actions[0], today), actions[1..], today);
    }
  }

  lemma StartInv(today: Day)
    ensures Inv(Start(), today)
  {
  }

  // ----- convergence -----

  /** Over every run of writes, dispatches, rollbacks, duplicates, reorderings,
      deaths and exhausted retries: each case's facts are the projection of its
      current source rows, or it has an event or message still to be worked off. */
  lemma StaleMeansOutstanding(actions: seq<Action>, today: Day)
    ensures var s := Run(Start(), actions, today);
            forall c :: c in s.src.cases ==>
              (CaseAgrees(s, today, c) || CaseOutstanding(s, c)) && (ExpiryAgrees(s, c) || ExpiryOutstanding(s, c))
  {
    hide Run, Start, CaseAgrees, ExpiryAgrees, CaseOutstanding, ExpiryOutstanding;
    StartInv(today);
    RunKeeps(Start(), actions, today);
  }

  predicate Drained(s: State) {
    s.queue == map[] && forall e :: e in s.outbox ==> s.outbox[e].status == Sent
  }

  ghost predicate AllAgree(s: State, today: Day) {
    forall c :: c in s.src.cases ==> CaseAgrees(s, today, c) && ExpiryAgrees(s, c)
  }

  /** Every case's facts say, column by column, what its source rows say. */
  ghost predicate AllSay(s: State, today: Day) {
    forall c :: c in s.src.cases ==> CaseSays(s.facts, s.src, today, c)
  }

  lemma AgreementSays(s: State, today: Day)
    requires AllAgree(s, today)
    ensures AllSay(s, today)
  {
    hide ProjectCase, FactSays, ExpiriesSay, FactsOf;
    forall c | c in s.src.cases ensures CaseSays(s.facts, s.src, today, c) {
      assert CaseAgrees(s, today, c) && ExpiryAgrees(s, c);
      ProjectedSays(today, s.src.cases[c]);
      ProjectedExpiriesSay(c, s.src.cases[c].kase, s.src.cases[c].awards);
    }
  }

  /** Once every event was handed over and every message worked off, all agree. */
  lemma DrainedAgrees(s: State, today: Day)
    requires Inv(s, today) && Drained(s)
    ensures AllAgree(s, today) && AllSay(s, today)
  {
    hide CaseAgrees, ExpiryAgrees, AllSay;
    AgreementSays(s, today);
  }

  predicate NothingLost(s: State) {
    && (forall e :: e in s.outbox ==> s.outbox[e].status != Dead)
    && (forall m :: m in s.queue ==> !s.queue[m].exhausted)
  }

  function WaitingEvents(s: State): set<nat> {
    set e | e in s.outbox && s.outbox[e].status == Waiting
  }

  lemma {:induction false} RunAppend(s: State, a: seq<Action>, b: seq<Action>, today: Day)
    ensures Run(s, a + b, today) == Run(Run(s, a, today), b, today)
    decreases |a|
  {
    hide Apply;
    if a == [] {
      assert a + b == b;
    } else {
      assert (a + b)[0] == a[0] && (a + b)[1..] == a[1..] + b;
      RunAppend(Apply(s, a[0], today), a[1..], b, today);
    }
  }

  lemma RunCons(s: State, a: Action, rest: seq<Action>, today: Day)
    ensures Run(s, [a] + rest, today) == Run(Apply(s, a, today), rest, today)
  {
    hide Apply;
    assert ([a] + rest)[1..] == rest;
  }

  /** Handing over every waiting event. */
  lemma {:induction false} DispatchAll(s: State, today: Day) returns (actions: seq<Action>)
    requires NothingLost(s)
    ensures var t := Run(s, actions, today); t.src == s.src && NothingLost(t) && WaitingEvents(t) == {}
    decreases |WaitingEvents(s)|
  {
    if WaitingEvents(s) == {} {
      actions := [];
    } else {
      var e :| e in WaitingEvents(s);
      var a := Dispatch(e, true);
      var t := Apply(s, a, today);
      assert WaitingEvents(t) == WaitingEvents(s) - {e};
      var rest := DispatchAll(t, today);
      RunCons(s, a, rest, today);
      actions := [a] + rest;
    }
  }

  ghost predicate WorkedOff(s: State, t: State, m: nat) {
    t.src == s.src && t.queue.Keys == s.queue.Keys - {m} && t.outbox == s.outbox && NothingLost(t)
  }

  lemma WorkOffPlan(s: State, m: nat, today: Day) returns (actions: seq<Action>)
    requires NothingLost(s) && m in s.queue && s.queue[m].kind == PlanEvent
    ensures WorkedOff(s, Run(s, actions, today), m)
  {
    hide Upserted, Refreshed, PlanRefreshed, Run;
    var s1 := Apply(s, Deliver(0, m), today);
    var s2 := Apply(s1, Upsert(0), today);
    actions := [Deliver(0, m)] + ([Upsert(0)] + ([Ack(0)] + []));
    RunNothing(Apply(s2, Ack(0), today), today);
    RunCons(s2, Ack(0), [], today);
    RunCons(s1, Upsert(0), [Ack(0)] + [], today);
    RunCons(s, Deliver(0, m), [Upsert(0)] + ([Ack(0)] + []), today);
  }

  lemma WorkOffCase(s: State, m: nat, today: Day) returns (actions: seq<Action>)
    requires NothingLost(s) && m in s.queue && s.queue[m].kind != PlanEvent
    ensures WorkedOff(s, Run(s, actions, today), m)
  {
    hide Upserted, Refreshed, PlanRefreshed, Run;
    var s1 := Apply(s, Deliver(0, m), today);
    var s2 := Apply(s1, Upsert(0), today);
    var s3 := Apply(s2, Refresh(0), today);
    actions := [Deliver(0, m)] + ([Upsert(0)] + ([Refresh(0)] + ([Ack(0)] + [])));
    RunNothing(Apply(s3, Ack(0), today), today);
    RunCons(s3, Ack(0), [], today);
    RunCons(s2, Refresh(0), [Ack(0)] + [], today);
    RunCons(s1, Upsert(0), [Refresh(0)] + ([Ack(0)] + []), today);
    RunCons(s, Deliver(0, m), [Upsert(0)] + ([Refresh(0)] + ([Ack(0)] + [])), today);
  }

  lemma RunNothing(s: State, today: Day)
    ensures Run(s, [], today) == s
  {
  }

  /** One message delivered, worked through and acknowledged. */
  lemma WorkOff(s: State, m: nat, today: Day) returns (actions: seq<Action>)
    requires NothingLost(s) && m in s.queue
    ensures WorkedOff(s, Run(s, actions, today), m)
  {
    hide Run, WorkedOff, NothingLost;
    if s.queue[m].kind == PlanEvent {
      actions := WorkOffPlan(s, m, today);
    } else {
      actions := WorkOffCase(s, m, today);
    }
  }

  lemma {:induction false} WorkOffAll(s: State, today: Day) returns (actions: seq<Action>)
    requires NothingLost(s) && WaitingEvents(s) == {}
    ensures var t := Run(s, actions, today); t.src == s.src && Drained(t)
    decreases |s.queue.Keys|
  {
    if s.queue == map[] {
      actions := [];
      forall e | e in s.outbox ensures s.outbox[e].status == Sent { assert e !in WaitingEvents(s); }
    } else {
      var m :| m in s.queue;
      var first := WorkOff(s, m, today);
      var t := Run(s, first, today);
      assert WaitingEvents(t) == WaitingEvents(s);
      var rest := WorkOffAll(t, today);
      RunAppend(s, first, rest, today);
      actions := first + rest;
    }
  }

  /** From every reachable state without dead letters the pipeline can be drained,
      and then every case agrees with the very source rows it has now. */
  lemma Converges(actions: seq<Action>, today: Day) returns (more: seq<Action>)
    requires NothingLost(Run(Start(), actions, today))
    ensures var s, t := Run(Start(), actions, today), Run(Start(), actions + more, today);
            t.src == s.src && Drained(t) && AllAgree(t, today) && AllSay(t, today)
  {
    hide Run, Start, Inv, Drained, AllAgree, AllSay, NothingLost;
    var s := Run(Start(), actions, today);
    var first := DispatchAll(s, today);
    var t := Run(s, first, today);
    var rest := WorkOffAll(t, today);
    more := first + rest;
    RunAppend(s, first, rest, today);
    RunAppend(Start(), actions, more, today);
    StartInv(today);
    RunKeeps(Start(), actions + more, today);
    DrainedAgrees(Run(Start(), actions + more, today), today);
  }

  /** Processing the same event again changes nothing more. */
  lemma ProcessedTwice(f: Facts, src: Sources, today: Day, kind: Kind, aggregate: nat, c: nat)
    requires kind != PlanEvent
    ensures var once := Processed(f, src, today, kind, aggregate);
            var twice := Processed(once, src, today, kind, aggregate);
            && twice.cases == once.cases
            && FactsOf(twice.expiry, c) == FactsOf(once.expiry, c) && PlanRows(twice.expiry) == PlanRows(once.expiry)
  {
    hide ProjectCase, RefreshCase, ExpiryOf;
    var t := Target(src, kind, aggregate);
    var once := Processed(f, src, today, kind, aggregate);
    RefreshCaseExact(f.expiry, t, Lookup(src.cases, t), c);
    RefreshCaseExact(once.expiry, t, Lookup(src.cases, t), c);
  }
}

/** What every interleaving of scheduler processes keeps: one event per schedule
    and Indian day, one job per event and recipient, and outbox rows exactly for
    the jobs of completed events. */
module SchedulerSafety {
  import opened Text
  import opened ScheduleClock
  import opened SchedulerProtocol

  // ----- the invariant -----

  ghost predicate EventsKeyed(db: Db) {
    && (forall e :: e in db.events ==>
          e < db.nextId && db.events[e].key == EventKey(db.events[e].scheduleKey, db.events[e].windowStart))
    && (forall e, f :: e in db.events && f in db.events && db.events[e].key == db.events[f].key ==> e == f)
  }

  ghost predicate JobsKeyed(db: Db) {
    && (forall j :: j in db.jobs ==>
          && j < db.nextId && db.jobs[j].event in db.events && NoColon(db.jobs[j].recipient)
          && db.jobs[j].key == JobKey(db.events[db.jobs[j].event].key, db.jobs[j].recipient))
    && (forall j, k :: j in db.jobs && k in db.jobs && db.jobs[j].key == db.jobs[k].key ==> j == k)
  }

  ghost predicate HasJob(db: Db, e: nat) {
    exists j :: j in db.jobs && db.jobs[j].event == e
  }

  ghost predicate OutboxTied(db: Db) {
    && NoRepeats(db.outbox)
    && (forall j :: j in db.outbox ==> j in db.jobs)
    && (forall j :: j in db.jobs && db.jobs[j].event in db.events ==>
          (j in db.outbox <==> db.events[db.jobs[j].event].status == Completed))
    && (forall e :: e in db.events ==>
          && (db.events[e].status == Completed ==> HasJob(db, e))
          && (db.events[e].status == Skipped ==> !HasJob(db, e)))
  }

  ghost predicate DbInv(db: Db) {
    EventsKeyed(db) && JobsKeyed(db) && OutboxTied(db)
  }

  predicate Owns(s: State, p: nat, e: nat) {
    p in s.runs && OwnedEvent(s.runs[p]) == Some(e)
  }

  /** Each event in progress is held by one process, which knows all its jobs. */
  ghost predicate Ownership(s: State) {
    && (forall p: nat, e: nat :: Owns(s, p, e) ==>
          e < s.db.nextId && e !in s.abandoned && (e in s.db.events ==> s.db.events[e].status == Running))
    && (forall p: nat, q: nat, e: nat :: Owns(s, p, e) && Owns(s, q, e) ==> p == q)
    && (forall p :: p in s.runs && s.runs[p].Built? ==> JobsKnown(s.db, s.runs[p].event, s.runs[p].jobs))
  }

  ghost predicate JobsKnown(db: Db, e: nat, jobs: seq<nat>) {
    && e in db.events && NoRepeats(jobs)
    && forall j :: j in jobs <==> j in db.jobs && db.jobs[j].event == e
  }

  /** An event is in progress exactly while a process holds it or has died holding it. */
  ghost predicate RunningHeld(s: State) {
    && (forall e :: e in s.abandoned ==> e < s.db.nextId && (e in s.db.events ==> s.db.events[e].status == Running))
    && (forall e :: e in s.db.events && s.db.events[e].status == Running ==>
          e in s.abandoned || exists p: nat :: Owns(s, p, e))
  }

  ghost predicate Inv(s: State) {
    DbInv(s.db) && Ownership(s) && RunningHeld(s)
  }

  // ----- the job insert loop -----

  ghost predicate UniqueKeys(jobs: map<nat, Job>) {
    forall j, k :: j in jobs && k in jobs && jobs[j].key == jobs[k].key ==> j == k
  }

  /** `after` is `db` with the jobs `created` added: fresh ids, all for this event. */
  ghost predicate Added(db: Db, after: Db, created: seq<nat>, event: nat, key: string) {
    && after == db.(jobs := after.jobs, nextId := after.nextId) && after.nextId >= db.nextId
    && (forall j :: j in db.jobs ==> j in after.jobs && after.jobs[j] == db.jobs[j])
    && (forall j :: j in created <==> j in after.jobs && j !in db.jobs)
    && (forall j :: j in created ==> db.nextId <= j < after.nextId)
    && NoRepeats(created)
    && (forall j :: j in created ==> after.jobs[j].event == event && after.jobs[j].key == JobKey(key, after.jobs[j].recipient))
  }

  ghost predicate Known(db: Db) {
    (forall j :: j in db.jobs ==> j < db.nextId) && UniqueKeys(db.jobs)
  }

  lemma AddedFirst(db: Db, event: nat, key: string, r: string)
    requires Known(db) && JobKey(key, r) !in JobKeys(db.jobs)
    ensures var next := db.(jobs := db.jobs[db.nextId := Job(event, r, JobKey(key, r))], nextId := db.nextId + 1);
            Known(next)
  {
    hide JobKey;
    assert forall j :: j in db.jobs ==> db.jobs[j].key in JobKeys(db.jobs);
  }

  lemma AddedThen(db: Db, event: nat, key: string, r: string, after: Db, rest: seq<nat>)
    requires Known(db)
    requires var next := db.(jobs := db.jobs[db.nextId := Job(event, r, JobKey(key, r))], nextId := db.nextId + 1);
             Added(next, after, rest, event, key)
    ensures Added(db, after, [db.nextId] + rest, event, key)
  {
    hide JobKey, UniqueKeys;
    var next := db.(jobs := db.jobs[db.nextId := Job(event, r, JobKey(key, r))], nextId := db.nextId + 1);
    var id := db.nextId;
    assert id in next.jobs && id !in db.jobs && id !in rest;
    forall j | j in db.jobs ensures j in after.jobs && after.jobs[j] == db.jobs[j] { assert next.jobs[j] == db.jobs[j]; }
    forall j ensures j in [id] + rest <==> j in after.jobs && j !in db.jobs {}
  }

  /** What a run of job inserts adds: fresh ids, all for this event, a job key
      for every recipient, and no key twice. */
  lemma {:induction false} AddJobsFacts(db: Db, event: nat, key: string, recipients: seq<string>)
    requires Known(db)
    ensures var (after, created) := AddJobs(db, event, key, recipients);
            && Added(db, after, created, event, key) && Known(after)
            && (forall r :: r in recipients ==> JobKey(key, r) in JobKeys(after.jobs))
            && (forall j :: j in created ==> after.jobs[j].recipient in recipients)
    decreases |recipients|
  {
    hide JobKey, UniqueKeys;
    if recipients != [] {
      var r := recipients[0];
      var k := JobKey(key, r);
      assert recipients == [r] + recipients[1..];
      var (after, created) := AddJobs(db, event, key, recipients);
      if k in JobKeys(db.jobs) {
        AddJobsFacts(db, event, key, recipients[1..]);
        var j :| j in db.jobs && db.jobs[j].key == k;
        assert after.jobs[j].key == k;
      } else {
        var next := db.(jobs := db.jobs[db.nextId := Job(event, r, k)], nextId := db.nextId + 1);
        AddedFirst(db, event, key, r);
        AddJobsFacts(next, event, key, recipients[1..]);
        var rest := AddJobs(next, event, key, recipients[1..]).1;
        assert created == [db.nextId] + rest;
        AddedThen(db, event, key, r, after, rest);
        assert after.jobs[db.nextId] == next.jobs[db.nextId];
      }
    }
  }

  // ----- each action keeps the invariant -----

  lemma ClaimKeeps(s: State, a: Action)
    requires Inv(s) && Enabled(s, a) && a.ClaimDue?
    ensures Inv(Apply(s, a))
  {
    hide EventKey, JobKey, NoColon, Picked, ClaimedRows, Claims;
    var t := Apply(s, a);
    assert forall p: nat, e: nat :: Owns(t, p, e) <==> Owns(s, p, e);
    assert OutboxTied(t.db) by { SameTables(s.db, t.db); }
  }

  /** Rows of schedules play no part in the tables' invariant. */
  lemma SameTables(a: Db, b: Db)
    requires DbInv(a) && a.events == b.events && a.jobs == b.jobs && a.outbox == b.outbox && a.nextId <= b.nextId
    ensures DbInv(b)
  {
    hide EventKey, JobKey, NoColon;
    forall e | e in b.events ensures HasJob(b, e) <==> HasJob(a, e) {}
  }

  lemma BuildKeeps(s: State, a: Action)
    requires Inv(s) && Enabled(s, a) && a.BuildRun?
    ensures Inv(Apply(s, a))
  {
    hide EventKey, JobKey, NoColon, AdvanceRow, EventKeys;
    var t := Apply(s, a);
    var c := s.runs[a.p].todo[0];
    var (db, event) := InsertEvent(s.db, c);
    if event.None? {
      SameTables(s.db, t.db);
      assert forall p: nat, e: nat :: Owns(t, p, e) <==> Owns(s, p, e);
    } else {
      var e := s.db.nextId;
      InsertedEvent(s.db, c);
      AddJobsFacts(db, e, EventKey(c.key, c.nextRun), a.recipients);
      BuiltTables(db, e, EventKey(c.key, c.nextRun), a.recipients);
      BuiltOwnership(s, a);
    }
  }

  lemma InsertedEvent(db: Db, c: Claim)
    requires DbInv(db) && InsertEvent(db, c).1.Some?
    ensures var after := InsertEvent(db, c).0;
            DbInv(after) && !HasJob(after, db.nextId) && db.nextId in after.events && db.nextId !in db.events
  {
    hide EventKey, JobKey, NoColon, OutboxTied;
    var after := InsertEvent(db, c).0;
    forall e | e in db.events ensures after.events[e] == db.events[e] && db.events[e].key in EventKeys(db.events) {}
    InsertedOutbox(db, c);
  }

  lemma InsertedOutbox(db: Db, c: Claim)
    requires DbInv(db) && InsertEvent(db, c).1.Some?
    ensures OutboxTied(InsertEvent(db, c).0)
  {
    hide EventKey, JobKey, NoColon, EventKeys;
    var after := InsertEvent(db, c).0;
    assert after.jobs == db.jobs && after.outbox == db.outbox;
    forall e | e in db.events ensures HasJob(after, e) <==> HasJob(db, e) {}
    forall e | e in db.events ensures after.events[e] == db.events[e] {}
    assert !HasJob(after, db.nextId);
  }

  lemma BuiltTables(db: Db, e: nat, key: string, recipients: seq<string>)
    requires DbInv(db) && e in db.events && db.events[e].status == Running && db.events[e].key == key && !HasJob(db, e)
    requires forall i :: 0 <= i < |recipients| ==> NoColon(recipients[i])
    ensures DbInv(AddJobs(db, e, key, recipients).0)
    ensures JobsKnown(AddJobs(db, e, key, recipients).0, e, AddJobs(db, e, key, recipients).1)
  {
    hide EventKey, JobKey, NoColon, AddJobs, OutboxTied, NoRepeats, EventsKeyed;
    AddJobsFacts(db, e, key, recipients);
    var (after, created) := AddJobs(db, e, key, recipients);
    assert EventsKeyed(after) by { SameEventKeys(db, after); }
    forall j | j in after.jobs
      ensures j < after.nextId && after.jobs[j].event in after.events && NoColon(after.jobs[j].recipient)
      ensures after.jobs[j].key == JobKey(after.events[after.jobs[j].event].key, after.jobs[j].recipient)
    {
      if j !in created { assert j in db.jobs; }
    }
    forall j | j in db.jobs ensures db.jobs[j].event != e {}
    AddedOutbox(db, after, created, e, key);
  }

  lemma SameEventKeys(a: Db, b: Db)
    requires EventsKeyed(a) && b.events == a.events && a.nextId <= b.nextId
    ensures EventsKeyed(b)
  {
    hide EventKey;
  }

  lemma AddedOutbox(db: Db, after: Db, created: seq<nat>, e: nat, key: string)
    requires OutboxTied(db) && Added(db, after, created, e, key) && e in db.events && db.events[e].status == Running
    ensures OutboxTied(after)
  {
    hide EventKey, JobKey, NoColon, NoRepeats;
    forall f | f in db.events && f != e ensures HasJob(after, f) <==> HasJob(db, f) {
      forall j | j in after.jobs && after.jobs[j].event == f ensures j in db.jobs {}
      if HasJob(db, f) { var j :| j in db.jobs && db.jobs[j].event == f; assert j in after.jobs; }
    }
  }

  lemma BuiltOwnership(s: State, a: Action)
    requires Inv(s) && Enabled(s, a) && a.BuildRun?
    requires InsertEvent(s.db, s.runs[a.p].todo[0]).1.Some?
    requires var t := Apply(s, a);
             && t.db.nextId > s.db.nextId && t.db.events.Keys == s.db.events.Keys + {s.db.nextId}
             && t.runs[a.p].Built? && JobsKnown(t.db, s.db.nextId, t.runs[a.p].jobs)
             && (forall e :: e in s.db.events ==> t.db.events[e] == s.db.events[e])
             && t.db.events[s.db.nextId].status == Running
             && (forall j :: j in s.db.jobs ==> j in t.db.jobs && t.db.jobs[j] == s.db.jobs[j])
             && (forall j :: j in t.db.jobs && j !in s.db.jobs ==> t.db.jobs[j].event == s.db.nextId)
    ensures Ownership(Apply(s, a)) && RunningHeld(Apply(s, a))
  {
    hide EventKey, JobKey, NoColon, AddJobs, EventKeys, AdvanceRow, DbInv;
    var t := Apply(s, a);
    NextIsFresh(s.db);
    assert forall q: nat, e: nat :: Owns(t, q, e) <==> Owns(s, q, e) || (q == a.p && e == s.db.nextId);
    forall q | q in t.runs && t.runs[q].Built? && q != a.p ensures JobsKnown(t.db, t.runs[q].event, t.runs[q].jobs) {
      assert JobsKnown(s.db, s.runs[q].event, s.runs[q].jobs);
      assert Owns(s, q, s.runs[q].event);
    }
    assert Owns(t, a.p, s.db.nextId);
  }

  lemma FailKeeps(s: State, a: Action)
    requires Inv(s) && Enabled(s, a) && (a.Fail? || a.Abandon? || a.Edit?)
    ensures Inv(Apply(s, a))
  {
    hide EventKey, JobKey, NoColon, JobsKnown, DbInv, AdvanceRow, EventKeys;
    var t := Apply(s, a);
    SameTables(s.db, t.db);
    forall q | q in t.runs && t.runs[q].Built? ensures JobsKnown(t.db, t.runs[q].event, t.runs[q].jobs) {
      assert JobsKnown(s.db, s.runs[q].event, s.runs[q].jobs);
      SameJobs(s.db, t.db, s.runs[q].event, s.runs[q].jobs);
    }
    if a.Abandon? {
      AbandonKeeps(s, a);
    } else if a.Fail? && s.runs[a.p].Working? && a.inserted {
      NextIsFresh(s.db);
      assert forall q: nat, e: nat :: Owns(t, q, e) <==> Owns(s, q, e) || (q == a.p && e == s.db.nextId);
      HeldStays(s, t);
    } else {
      assert forall q: nat, e: nat :: Owns(t, q, e) <==> Owns(s, q, e);
      HeldStays(s, t);
    }
  }

  lemma NextIsFresh(db: Db)
    requires DbInv(db)
    ensures db.nextId !in db.events
  {
    hide EventKey, JobsKeyed, OutboxTied;
  }

  lemma AbandonKeeps(s: State, a: Action)
    requires Inv(s) && Enabled(s, a) && a.Abandon?
    ensures Ownership(Apply(s, a)) && RunningHeld(Apply(s, a))
  {
    hide DbInv, JobsKnown;
    var t, p := Apply(s, a), a.p;
    assert t.db == s.db;
    assert forall q: nat, e: nat :: Owns(t, q, e) <==> Owns(s, q, e) && q != p;
    forall q: nat, f: nat | Owns(t, q, f) ensures f !in t.abandoned {
      assert Owns(s, q, f);
      assert Owns(s, p, f) ==> q == p;
    }
    forall f | f in t.abandoned ensures f < t.db.nextId && (f in t.db.events ==> t.db.events[f].status == Running) {
      if f !in s.abandoned { assert Owns(s, p, f); }
    }
    forall e | e in t.db.events && t.db.events[e].status == Running ensures e in t.abandoned || exists q: nat :: Owns(t, q, e) {
      if e !in t.abandoned { var q: nat :| Owns(s, q, e); assert Owns(t, q, e); }
    }
  }

  lemma SameJobs(a: Db, b: Db, e: nat, jobs: seq<nat>)
    requires JobsKnown(a, e, jobs) && a.events == b.events && a.jobs == b.jobs
    ensures JobsKnown(b, e, jobs)
  {
  }

  lemma HeldStays(s: State, t: State)
    requires RunningHeld(s) && t.db.events == s.db.events && t.abandoned == s.abandoned && t.db.nextId >= s.db.nextId
    requires forall q: nat, e: nat :: Owns(s, q, e) ==> Owns(t, q, e)
    ensures RunningHeld(t)
  {
    forall e | e in t.db.events && t.db.events[e].status == Running ensures e in t.abandoned || exists q: nat :: Owns(t, q, e) {
      if e !in t.abandoned { var q: nat :| Owns(s, q, e); assert Owns(t, q, e); }
    }
  }

  lemma FinalizeTables(db: Db, c: Claim, e: nat, jobs: seq<nat>, now: int)
    requires DbInv(db) && JobsKnown(db, e, jobs) && db.events[e].status == Running
    ensures DbInv(Finalized(db, c, e, jobs, now))
  {
    hide EventKey, JobKey, NoColon, AdvanceRow, OutboxTied, HasJob, JobsKnown;
    var after := Finalized(db, c, e, jobs, now);
    assert after.events.Keys == db.events.Keys && forall f :: f in db.events ==> after.events[f].key == db.events[f].key;
    FinalizeOutbox(db, c, e, jobs, now);
  }

  lemma FinalizeOutbox(db: Db, c: Claim, e: nat, jobs: seq<nat>, now: int)
    requires OutboxTied(db) && JobsKnown(db, e, jobs) && db.events[e].status == Running
    ensures OutboxTied(Finalized(db, c, e, jobs, now))
  {
    hide AdvanceRow;
    var after := Finalized(db, c, e, jobs, now);
    forall f | f in db.events ensures HasJob(after, f) <==> HasJob(db, f) {}
    if jobs != [] { assert jobs[0] in jobs; assert HasJob(db, e); }
    assert forall j :: j in after.outbox <==> j in db.outbox || j in jobs;
    forall j | j in db.jobs && db.jobs[j].event in db.events
      ensures j in after.outbox <==> after.events[db.jobs[j].event].status == Completed
    {
      if j in jobs { assert jobs != []; }
    }
    AppendedNoRepeats(db.outbox, jobs);
  }

  lemma AppendedNoRepeats(a: seq<nat>, b: seq<nat>)
    requires NoRepeats(a) && NoRepeats(b) && forall j :: j in b ==> j !in a
    ensures NoRepeats(a + b)
  {
    forall i, j | 0 <= i < j < |a + b| ensures (a + b)[i] != (a + b)[j] {
      if i < |a| <= j { assert b[j - |a|] in b && a[i] in a; }
    }
  }

  lemma FinalizeKeeps(s: State, a: Action)
    requires Inv(s) && Enabled(s, a) && a.Finalize?
    ensures Inv(Apply(s, a))
  {
    hide EventKey, JobKey, NoColon, AdvanceRow, DbInv;
    var t := Apply(s, a);
    var ph := s.runs[a.p];
    assert Owns(s, a.p, ph.event);
    FinalizeTables(s.db, ph.claim, ph.event, ph.jobs, a.now);
    TerminalKeeps(s, t, a.p, Some(ph.event));
  }

  /** Dropping a process's event once it has a final status. */
  lemma TerminalKeeps(s: State, t: State, p: nat, event: Option<nat>)
    requires Ownership(s) && RunningHeld(s) && p in s.runs && OwnedEvent(s.runs[p]) == event
    requires t.abandoned == s.abandoned && t.runs.Keys == s.runs.Keys && t.runs[p].Working?
    requires forall q :: q in s.runs && q != p ==> t.runs[q] == s.runs[q]
    requires t.db.nextId == s.db.nextId && t.db.jobs == s.db.jobs && t.db.events.Keys == s.db.events.Keys
    requires forall f :: f in s.db.events && Some(f) != event ==> t.db.events[f] == s.db.events[f]
    requires forall f :: f in s.db.events && Some(f) == event ==> t.db.events[f].status != Running
    ensures Ownership(t) && RunningHeld(t)
  {
    assert forall q: nat, f: nat :: Owns(t, q, f) <==> Owns(s, q, f) && q != p;
    forall q: nat, f: nat | Owns(t, q, f)
      ensures f < t.db.nextId && f !in t.abandoned && (f in t.db.events ==> t.db.events[f].status == Running)
    {
      assert Owns(s, q, f);
      assert Owns(s, p, f) ==> q == p;
    }
    forall q | q in t.runs && t.runs[q].Built? ensures JobsKnown(t.db, t.runs[q].event, t.runs[q].jobs) {
      assert JobsKnown(s.db, s.runs[q].event, s.runs[q].jobs);
    }
    forall f | f in t.db.events && t.db.events[f].status == Running ensures f in t.abandoned || exists q: nat :: Owns(t, q, f) {
      if f !in t.abandoned { var q: nat :| Owns(s, q, f); assert Owns(t, q, f); }
    }
    forall f | f in t.abandoned && f in t.db.events ensures t.db.events[f].status == Running {
      assert !Owns(s, p, f);
    }
  }

  lemma MarkFailedKeeps(s: State, a: Action)
    requires Inv(s) && Enabled(s, a) && a.MarkFailed?
    ensures Inv(Apply(s, a))
  {
    hide EventKey, JobKey, NoColon, AdvanceRow, DbInv;
    var t := Apply(s, a);
    var ph := s.runs[a.p];
    if ph.failing.Some? { assert Owns(s, a.p, ph.failing.value); }
    FailedTables(s.db, ph.claim, ph.failing, a.now);
    TerminalKeeps(s, t, a.p, ph.failing);
  }

  lemma FailedTables(db: Db, c: Claim, event: Option<nat>, now: int)
    requires DbInv(db) && (event.Some? && event.value in db.events ==> db.events[event.value].status == Running)
    ensures DbInv(MarkedFailed(db, c, event, now))
  {
    hide EventKey, JobKey, NoColon, AdvanceRow, OutboxTied;
    var after := MarkedFailed(db, c, event, now);
    assert after.events.Keys == db.events.Keys && forall f :: f in db.events ==> after.events[f].key == db.events[f].key;
    FailedOutbox(db, c, event, now);
  }

  lemma FailedOutbox(db: Db, c: Claim, event: Option<nat>, now: int)
    requires OutboxTied(db) && (event.Some? && event.value in db.events ==> db.events[event.value].status == Running)
    ensures OutboxTied(MarkedFailed(db, c, event, now))
  {
    hide AdvanceRow, NoRepeats;
    var after := MarkedFailed(db, c, event, now);
    forall f | f in db.events ensures HasJob(after, f) <==> HasJob(db, f) {}
  }

  lemma {:induction false} RunKeeps(s: State, actions: seq<Action>)
    requires Inv(s)
    ensures Inv(Run(s, actions))
    decreases |actions|
  {
    hide Inv, Enabled, Apply;
    if actions != [] {
      ApplyKeeps(s, actions[0]);
      RunKeeps(Apply(s, actions[0]), actions[1..]);
    }
  }

  lemma ApplyKeeps(s: State, a: Action)
    requires Inv(s)
    ensures Inv(Apply(s, a))
  {
    hide Inv, Enabled;
    if Enabled(s, a) {
      hide Apply;
      match a
      case ClaimDue(_, _, _) => ClaimKeeps(s, a);
      case BuildRun(_, _, _) => BuildKeeps(s, a);
      case Fail(_, _) => FailKeeps(s, a);
      case Finalize(_, _) => FinalizeKeeps(s, a);
      case MarkFailed(_, _) => MarkFailedKeeps(s, a);
      case Abandon(_) => FailKeeps(s, a);
      case Edit(_, _, _) => FailKeeps(s, a);
    }
  }

  // ----- safety of every run -----

  ghost predicate OneEventPerDay(db: Db) {
    forall e, f :: e in db.events && f in db.events && e != f ==>
      !(db.events[e].scheduleKey == db.events[f].scheduleKey
        && LocalDay(db.events[e].windowStart) == LocalDay(db.events[f].windowStart))
  }

  ghost predicate OneJobPerRecipient(db: Db) {
    forall j, k :: j in db.jobs && k in db.jobs && j != k ==>
      !(db.jobs[j].event == db.jobs[k].event && db.jobs[j].recipient == db.jobs[k].recipient)
  }

  /** At most one outbox row for each job; completed events are exactly those
      that have jobs, all of them with their row; no other event's job has one. */
  ghost predicate OutboxExact(db: Db) {
    && NoRepeats(db.outbox)
    && (forall j :: j in db.outbox ==> j in db.jobs)
    && (forall e :: e in db.events ==>
          (db.events[e].status == Completed <==>
             HasJob(db, e) && forall j :: j in db.jobs && db.jobs[j].event == e ==> j in db.outbox))
    && (forall j :: j in db.jobs ==> db.jobs[j].event in db.events)
    && (forall j :: j in db.jobs && db.events[db.jobs[j].event].status != Completed ==> j !in db.outbox)
  }

  lemma StartInv(rows: map<nat, Row>, clock: int)
    ensures Inv(Start(rows, clock))
  {
  }

  /** Safety over every interleaving of claims, builds, failures, takeovers, late
      finalisers, deaths and edits. */
  lemma EveryRunIsSafe(rows: map<nat, Row>, clock: int, actions: seq<Action>)
    ensures var db := Run(Start(rows, clock), actions).db;
            OneEventPerDay(db) && OneJobPerRecipient(db) && OutboxExact(db)
  {
    hide Run, Start;
    StartInv(rows, clock);
    RunKeeps(Start(rows, clock), actions);
    var s := Run(Start(rows, clock), actions);
    InvKeys(s.db);
    InvOutbox(s.db);
  }

  lemma InvKeys(db: Db)
    requires DbInv(db)
    ensures OneEventPerDay(db) && OneJobPerRecipient(db)
  {
    hide EventKey, JobKey, NoColon, OutboxTied, LocalDay;
    forall e, f | e in db.events && f in db.events && e != f
      ensures !(db.events[e].scheduleKey == db.events[f].scheduleKey
                && LocalDay(db.events[e].windowStart) == LocalDay(db.events[f].windowStart))
    {
      EventKeyExact(db.events[e].scheduleKey, db.events[e].windowStart, db.events[f].scheduleKey, db.events[f].windowStart);
    }
  }

  lemma InvOutbox(db: Db)
    requires DbInv(db)
    ensures OutboxExact(db)
  {
    hide EventKey, JobKey, NoColon, NoRepeats, EventsKeyed;
    forall e | e in db.events && HasJob(db, e) && forall j :: j in db.jobs && db.jobs[j].event == e ==> j in db.outbox
      ensures db.events[e].status == Completed
    {
      var j :| j in db.jobs && db.jobs[j].event == e;
      assert j in db.outbox;
    }
  }

  /** A run is passed over as already processed exactly when its schedule has an
      event for the same Indian day. */
  lemma SkippedIffSameDay(db: Db, c: Claim)
    requires EventsKeyed(db)
    ensures InsertEvent(db, c).1.None? <==>
            exists e :: e in db.events && db.events[e].scheduleKey == c.key
                        && LocalDay(db.events[e].windowStart) == LocalDay(c.nextRun)
  {
    hide EventKey, LocalDay;
    forall e | e in db.events
      ensures db.events[e].key == EventKey(c.key, c.nextRun) <==>
              db.events[e].scheduleKey == c.key && LocalDay(db.events[e].windowStart) == LocalDay(c.nextRun)
    {
      EventKeyExact(db.events[e].scheduleKey, db.events[e].windowStart, c.key, c.nextRun);
    }
    if InsertEvent(db, c).1.None? {
      var e :| e in db.events && db.events[e].key == EventKey(c.key, c.nextRun);
      assert db.events[e].scheduleKey == c.key;
    }
  }

  /** A committed build gives every eligible recipient one job, and nobody else. */
  lemma EveryRecipientGetsAJob(s: State, p: nat, now: int, recipients: seq<string>)
    requires Inv(s) && Enabled(s, BuildRun(p, now, recipients))
    requires InsertEvent(s.db, s.runs[p].todo[0]).1.Some?
    ensures var t := Apply(s, BuildRun(p, now, recipients));
            forall r :: r in recipients <==>
              exists j :: j in t.db.jobs && t.db.jobs[j].event == s.db.nextId && t.db.jobs[j].recipient == r
  {
    hide EventKey, JobKey, OutboxTied, AddJobs, Ownership, RunningHeld;
    var c := s.runs[p].todo[0];
    var key := EventKey(c.key, c.nextRun);
    var db := InsertEvent(s.db, c).0;
    var e := s.db.nextId;
    InsertedEvent(s.db, c);
    AddJobsFacts(db, e, key, recipients);
    BuiltTables(db, e, key, recipients);
    var (after, created) := AddJobs(db, e, key, recipients);
    forall j | j in after.jobs && after.jobs[j].event == e ensures after.jobs[j].recipient in recipients {
      assert j in created;
    }
    forall r | r in recipients
      ensures exists j :: j in after.jobs && after.jobs[j].event == e && after.jobs[j].recipient == r
    {
      var j :| j in after.jobs && after.jobs[j].key == JobKey(key, r);
      JobOfKey(after, j, e, r);
    }
    assert Apply(s, BuildRun(p, now, recipients)).db == after;
  }

  /** A job with the key of an event and a recipient is that event's and that recipient's. */
  lemma JobOfKey(db: Db, j: nat, e: nat, r: string)
    requires EventsKeyed(db) && JobsKeyed(db) && j in db.jobs && e in db.events && NoColon(r)
    requires db.jobs[j].key == JobKey(db.events[e].key, r)
    ensures db.jobs[j].event == e && db.jobs[j].recipient == r
  {
    hide EventKey, NoColon;
    SplitAtLastColon(db.events[db.jobs[j].event].key, db.jobs[j].recipient, db.events[e].key, r);
  }

  // ----- final means final -----

  ghost predicate SettledLater(s: Db, t: Db, e: nat) {
    && e in s.events && e in t.events && t.events[e] == s.events[e]
    && forall j :: j in t.jobs && t.jobs[j].event == e ==> j in s.jobs && s.jobs[j] == t.jobs[j]
                                                           && (j in t.outbox <==> j in s.outbox)
  }

  /** Once an event is completed, skipped or failed, no later action changes it,
      gives it a job, or writes an outbox row for one of its jobs. */
  lemma {:induction false} FinalForever(s: State, actions: seq<Action>, e: nat)
    requires Inv(s) && e in s.db.events && s.db.events[e].status != Running
    ensures SettledLater(s.db, Run(s, actions).db, e)
    decreases |actions|
  {
    hide Inv, Apply;
    if actions != [] {
      var t := Apply(s, actions[0]);
      ApplyKeeps(s, actions[0]);
      FinalOneStep(s, actions[0], e);
      FinalForever(t, actions[1..], e);
    }
  }

  lemma FinalOneStep(s: State, a: Action, e: nat)
    requires Inv(s) && e in s.db.events && s.db.events[e].status != Running
    ensures SettledLater(s.db, Apply(s, a).db, e)
  {
    hide EventKey, JobKey, AddJobs, AdvanceRow, Picked, ClaimedRows, Claims, NoColon, InsertEvent, DbInv;
    if Enabled(s, a) {
      match a
      case BuildRun(p, now, recipients) => BuildLeavesSettled(s, p, now, recipients, e);
      case Finalize(p, now) =>
        assert Owns(s, p, s.runs[p].event);
        assert JobsKnown(s.db, s.runs[p].event, s.runs[p].jobs);
        assert forall j :: j in Apply(s, a).db.outbox <==> j in s.db.outbox || j in s.runs[p].jobs;
      case MarkFailed(p, now) =>
        if s.runs[p].failing.Some? { assert Owns(s, p, s.runs[p].failing.value); }
      case _ =>
    }
  }

  lemma BuildLeavesSettled(s: State, p: nat, now: int, recipients: seq<string>, e: nat)
    requires Inv(s) && e in s.db.events && Enabled(s, BuildRun(p, now, recipients))
    ensures SettledLater(s.db, Apply(s, BuildRun(p, now, recipients)).db, e)
  {
    hide EventKey, JobKey, AddJobs, AdvanceRow, NoColon, EventKeys, OutboxTied, Ownership, RunningHeld, NoRepeats;
    var c := s.runs[p].todo[0];
    var (db, event) := InsertEvent(s.db, c);
    if event.Some? {
      InsertedEvent(s.db, c);
      AddJobsFacts(db, event.value, EventKey(c.key, c.nextRun), recipients);
      var (after, created) := AddJobs(db, event.value, EventKey(c.key, c.nextRun), recipients);
      forall j | j in after.jobs && after.jobs[j].event == e ensures j in s.db.jobs && s.db.jobs[j] == after.jobs[j] {
        assert j !in created;
      }
    }
  }

  predicate NoDeaths(actions: seq<Action>) {
    forall i :: 0 <= i < |actions| ==> !actions[i].Abandon?
  }

  lemma {:induction false} NoneAbandoned(s: State, actions: seq<Action>)
    requires NoDeaths(actions)
    ensures Run(s, actions).abandoned == s.abandoned
    decreases |actions|
  {
    if actions != [] {
      hide AddJobs, Enabled, InsertEvent;
      NoneAbandoned(Apply(s, actions[0]), actions[1..]);
    }
  }

  /** Without deaths every event is settled once all processes are between runs. */
  lemma QuietMeansSettled(rows: map<nat, Row>, clock: int, actions: seq<Action>)
    requires NoDeaths(actions)
    requires var s := Run(Start(rows, clock), actions); forall p :: p in s.runs ==> s.runs[p].Working?
    ensures var db := Run(Start(rows, clock), actions).db; forall e :: e in db.events ==> db.events[e].status != Running
  {
    hide Run;
    StartInv(rows, clock);
    RunKeeps(Start(rows, clock), actions);
    NoneAbandoned(Start(rows, clock), actions);
    var s := Run(Start(rows, clock), actions);
    assert forall p: nat, e: nat :: !Owns(s, p, e);
  }

  // ----- which runs are lost -----

  ghost predicate HasEventFor(db: Db, c: Claim) {
    exists e :: e in db.events && db.events[e].scheduleKey == c.key
                && LocalDay(db.events[e].windowStart) == LocalDay(c.nextRun)
  }

  /** A claimed run gets an event for its day, new or already there, when its build
      commits. When the build fails and the failure is recorded, the schedule is
      advanced all the same, and the run has an event only if it had one before. */
  lemma RunLostExactly(s: State, p: nat, now: int, recipients: seq<string>, inserted: bool)
    requires EventsKeyed(s.db) && Enabled(s, BuildRun(p, now, recipients))
    ensures var c := s.runs[p].todo[0];
            var built := Apply(s, BuildRun(p, now, recipients));
            var failed := Apply(Apply(s, Fail(p, inserted)), MarkFailed(p, now));
            && HasEventFor(built.db, c)
            && (HasEventFor(failed.db, c) <==> HasEventFor(s.db, c))
            && failed.db.rows == AdvanceRow(s.db.rows, c, Broken, now)
            && RunRecorded(s.db.rows, failed.db.rows, c, Broken, now)
  {
    hide EventKey, JobKey, LocalDay, AddJobs, NoColon, AdvanceRow, RunRecorded;
    AdvanceRecorded(s.db.rows, s.runs[p].todo[0], Broken, now);
    var c := s.runs[p].todo[0];
    SkippedIffSameDay(s.db, c);
    var (db, event) := InsertEvent(s.db, c);
    if event.Some? {
      AddJobsFrame(db, event.value, EventKey(c.key, c.nextRun), recipients);
      assert db.events[s.db.nextId].scheduleKey == c.key;
    }
    var erred := Apply(s, Fail(p, inserted));
    var failed := Apply(erred, MarkFailed(p, now));
    forall e | e in s.db.events ensures e in failed.db.events && failed.db.events[e].scheduleKey == s.db.events[e].scheduleKey
                                        && failed.db.events[e].windowStart == s.db.events[e].windowStart {}
  }

  /** A run that goes well: one due schedule, one recipient, a completed event
      whose job has its outbox row. */
  lemma SampleRun(row: Row, user: string)
    requires Due(row, 0) && row.nextRun.Some? && NoColon(user)
    ensures var s := Run(Start(map[0 := row], 0), [ClaimDue(0, 0, [0]), BuildRun(0, 0, [user]), Finalize(0, 0)]);
            && 0 in s.db.events && s.db.events[0].status == Completed
            && 1 in s.db.jobs && s.db.jobs[1].event == 0 && s.db.jobs[1].recipient == user && s.db.outbox == [1]
  {
    hide EventKey, JobKey, AdvanceRow, NextRun;
    var actions := [ClaimDue(0, 0, [0]), BuildRun(0, 0, [user]), Finalize(0, 0)];
    var s0 := Start(map[0 := row], 0);
    var s1 := Apply(s0, actions[0]);
    var c := Claim(0, row.key, row.timing, row.nextRun.value, 0);
    SampleClaim(row);
    assert s1.runs[0] == Working([c]);
    var s2 := Apply(s1, actions[1]);
    SampleBuild(s1, c, user);
    var s3 := Apply(s2, actions[2]);
    assert actions[1..][0] == actions[1] && actions[1..][1..] == actions[2..] && actions[2..][0] == actions[2];
    assert actions[2..][1..] == [];
    assert Run(s0, actions) == Run(s1, actions[1..]) == Run(s2, actions[2..]) == Run(s3, []) == s3;
  }

  lemma SampleClaim(row: Row)
    requires Due(row, 0) && row.nextRun.Some?
    ensures Picked(map[0 := row], [0], 0)
    ensures Claims(map[0 := row], [0], 0) == [Claim(0, row.key, row.timing, row.nextRun.value, 0)]
  {
    assert [0][1..] == [] && Claims(map[0 := row], [], 0) == [];
  }

  lemma SampleBuild(s: State, c: Claim, user: string)
    requires s.db.events == map[] && s.db.jobs == map[] && s.db.outbox == [] && s.db.nextId == 0 && s.clock == 0
    requires 0 in s.runs && s.runs[0] == Working([c]) && NoColon(user)
    ensures var t := Apply(s, BuildRun(0, 0, [user]));
            && 0 in t.db.events && 1 in t.db.jobs && t.db.jobs[1].event == 0 && t.db.jobs[1].recipient == user
            && 0 in t.runs && t.runs[0] == Built(c, 0, [1], []) && t.db.outbox == [] && t.clock == 0
  {
    hide EventKey, JobKey;
    var (db, event) := InsertEvent(s.db, c);
    assert event == Some(0);
    assert [user][1..] == [];
    assert AddJobs(db, 0, EventKey(c.key, c.nextRun), [user]).1 == [1] + [];
  }
}

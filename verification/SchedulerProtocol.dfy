/** Any number of scheduler processes over the shared tables: due schedules are
    claimed, each run inserts its event and jobs in one transaction and the outbox
    rows in a second one, and a process may fail or die between any two steps. */
module SchedulerProtocol {
  import opened Text
  import opened ScheduleClock

  const BATCH := 10
  const TAKEOVER := 900_000

  datatype LastStatus = NeverRun | InProgress | Succeeded | Passed | Broken

  datatype Row = Row(key: string, timing: Timing, nextRun: Option<int>, lastRun: Option<int>, last: LastStatus,
                     updatedAt: int, enabled: bool)

  datatype Status = Running | Completed | Skipped | Failed

  datatype Event = Event(scheduleKey: string, windowStart: int, key: string, status: Status)

  datatype Job = Job(event: nat, recipient: string, key: string)

  datatype Db = Db(rows: map<nat, Row>, events: map<nat, Event>, jobs: map<nat, Job>, outbox: seq<nat>, nextId: nat)

  /** A schedule as it was read when claimed. */
  datatype Claim = Claim(id: nat, key: string, timing: Timing, nextRun: int, at: int)

  // ----- transactions -----

  predicate Due(r: Row, now: int) {
    && r.enabled
    && (r.last != InProgress || r.updatedAt < now - TAKEOVER)
    && (r.nextRun.None? || r.nextRun.value <= now)
  }

  predicate NoRepeats<T(==)>(s: seq<T>) {
    forall i, j :: 0 <= i < j < |s| ==> s[i] != s[j]
  }

  /** What the claiming query may return: due rows not locked by others. */
  predicate Picked(rows: map<nat, Row>, due: seq<nat>, now: int) {
    |due| <= BATCH && NoRepeats(due) && forall i :: 0 <= i < |due| ==> due[i] in rows && Due(rows[due[i]], now)
  }

  function ClaimedRow(r: Row, now: int): Row {
    if r.nextRun.None? then r.(nextRun := Some(NextRun(r.timing, None, now)), updatedAt := now)
    else r.(last := InProgress, updatedAt := now)
  }

  function ClaimedRows(rows: map<nat, Row>, due: seq<nat>, now: int): map<nat, Row> {
    map i | i in rows :: if i in due then ClaimedRow(rows[i], now) else rows[i]
  }

  /** The claimed schedules: the due rows whose next run was already set. */
  function Claims(rows: map<nat, Row>, due: seq<nat>, now: int): (cs: seq<Claim>)
    requires forall i :: 0 <= i < |due| ==> due[i] in rows
    decreases |due|
  {
    if due == [] then []
    else
      var r := rows[due[0]];
      (if r.nextRun.Some? then [Claim(due[0], r.key, r.timing, r.nextRun.value, now)] else [])
      + Claims(rows, due[1..], now)
  }

  function InitialisedRows(rows: map<nat, Row>, due: seq<nat>, now: int): map<nat, Row> {
    map i | i in rows :: if i in due && rows[i].nextRun.None? then ClaimedRow(rows[i], now) else rows[i]
  }

  lemma InitialisedNone(rows: map<nat, Row>, now: int)
    ensures InitialisedRows(rows, [], now) == rows
  {
  }

  lemma InitialisedOne(rows: map<nat, Row>, done: seq<nat>, k: nat, now: int)
    requires k in rows && k !in done
    ensures var before := InitialisedRows(rows, done, now);
            && k in before && before[k] == rows[k] && before.Keys == rows.Keys
            && InitialisedRows(rows, done + [k], now) ==
               if rows[k].nextRun.None? then before[k := ClaimedRow(rows[k], now)] else before
  {
    hide NextRun;
  }

  function MarkedRows(rows: map<nat, Row>, ids: set<nat>, now: int): map<nat, Row> {
    map i | i in rows :: if i in ids then rows[i].(last := InProgress, updatedAt := now) else rows[i]
  }

  function Ids(cs: seq<Claim>): set<nat> {
    set i | 0 <= i < |cs| :: cs[i].id
  }

  lemma {:induction false} ClaimIds(rows: map<nat, Row>, due: seq<nat>, now: int)
    requires forall i :: 0 <= i < |due| ==> due[i] in rows
    ensures forall k :: k in Ids(Claims(rows, due, now)) <==> k in due && rows[k].nextRun.Some?
    ensures forall i :: 0 <= i < |Claims(rows, due, now)| ==> Claims(rows, due, now)[i].at == now
    decreases |due|
  {
    if due != [] {
      ClaimIds(rows, due[1..], now);
      var rest := Claims(rows, due[1..], now);
      var all := Claims(rows, due, now);
      if rows[due[0]].nextRun.Some? {
        var first := all[0];
        assert all == [first] + rest;
        assert Ids(all) == {first.id} + Ids(rest) by {
          forall i | 0 <= i < |rest| ensures rest[i].id in Ids(all) { assert all[i + 1] == rest[i]; }
        }
      } else {
        assert all == rest;
      }
      assert due == [due[0]] + due[1..];
    }
  }

  lemma ClaimedTwoSteps(rows: map<nat, Row>, due: seq<nat>, now: int)
    requires forall i :: 0 <= i < |due| ==> due[i] in rows
    ensures MarkedRows(InitialisedRows(rows, due, now), Ids(Claims(rows, due, now)), now) == ClaimedRows(rows, due, now)
  {
    hide NextRun, Claims, Ids;
    ClaimIds(rows, due, now);
  }

  /** The row once its claimed run is done with: the run it had stored becomes the
      last one, and the next is counted from the claimed one. */
  function AdvancedRow(r: Row, c: Claim, last: LastStatus, now: int): Row {
    r.(lastRun := if r.nextRun.Some? then r.nextRun else Some(now),
       nextRun := Some(Advanced(c.timing, c.nextRun)), last := last, updatedAt := now)
  }

  function AdvanceRow(rows: map<nat, Row>, c: Claim, last: LastStatus, now: int): map<nat, Row> {
    if c.id in rows then rows[c.id := AdvancedRow(rows[c.id], c, last, now)] else rows
  }

  /** What a finished run leaves in the schedules, column by column: its own row
      gets the earliest slot after the claimed run, the run it had stored and the
      outcome; nothing else changes. */
  ghost predicate RunRecorded(before: map<nat, Row>, after: map<nat, Row>, c: Claim, last: LastStatus, now: int) {
    && after.Keys == before.Keys
    && (forall k :: k in before && k != c.id ==> after[k] == before[k])
    && (c.id in before ==>
          var r, u := before[c.id], after[c.id];
          && u.key == r.key && u.timing == r.timing && u.enabled == r.enabled
          && u.last == last && u.updatedAt == now
          && (if r.nextRun.Some? then u.lastRun == r.nextRun else u.lastRun == Some(now))
          && u.nextRun.Some?
          && (Anchored(c.timing, c.nextRun) ==> LeastSlotAfter(c.timing, c.nextRun, c.nextRun, u.nextRun.value)))
  }

  lemma AdvanceRecorded(rows: map<nat, Row>, c: Claim, last: LastStatus, now: int)
    ensures RunRecorded(rows, AdvanceRow(rows, c, last, now), c, last, now)
  {
    hide Advanced, LeastSlotAfter, Anchored;
    if Anchored(c.timing, c.nextRun) { AdvancedIsLeast(c.timing, c.nextRun); }
  }

  /** The claim is a snapshot of a due row that had a next run. */
  predicate Taken(rows: map<nat, Row>, due: seq<nat>, c: Claim, now: int) {
    && c.id in due && c.id in rows && rows[c.id].nextRun == Some(c.nextRun)
    && c.key == rows[c.id].key && c.timing == rows[c.id].timing && c.at == now
  }

  predicate Apart(cs: seq<Claim>) {
    forall i, j :: 0 <= i < j < |cs| ==> cs[i].id != cs[j].id
  }

  /** What a claim leaves in the schedules and takes from them. */
  ghost predicate ClaimRecorded(before: map<nat, Row>, after: map<nat, Row>, due: seq<nat>, cs: seq<Claim>, now: int) {
    && after.Keys == before.Keys
    && (forall k :: k in before && k !in due ==> after[k] == before[k])
    && (forall k :: k in before && k in due && before[k].nextRun.Some? ==>
          after[k] == before[k].(last := InProgress, updatedAt := now))
    && (forall k :: k in before && k in due && before[k].nextRun.None? ==>
          && after[k] == before[k].(nextRun := after[k].nextRun, updatedAt := now) && after[k].nextRun.Some?
          && (Anchored(before[k].timing, now) ==> FirstRun(before[k].timing, now, after[k].nextRun.value)))
    && (forall i :: 0 <= i < |cs| ==> Taken(before, due, cs[i], now))
    && (forall k :: k in before && k in due && before[k].nextRun.Some? ==> exists i :: 0 <= i < |cs| && cs[i].id == k)
    && (NoRepeats(due) ==> Apart(cs))
  }

  lemma ClaimsSplit(rows: map<nat, Row>, due: seq<nat>, now: int)
    requires due != [] && forall i :: 0 <= i < |due| ==> due[i] in rows
    ensures var rest, all := Claims(rows, due[1..], now), Claims(rows, due, now);
            if rows[due[0]].nextRun.Some? then
              all[1..] == rest && |all| == |rest| + 1 && Taken(rows, due, all[0], now) && all[0].id == due[0]
            else all == rest
  {
  }

  lemma {:induction false} ClaimsTaken(rows: map<nat, Row>, due: seq<nat>, now: int)
    requires forall i :: 0 <= i < |due| ==> due[i] in rows
    ensures forall i :: 0 <= i < |Claims(rows, due, now)| ==> Taken(rows, due, Claims(rows, due, now)[i], now)
    decreases |due|
  {
    if due != [] {
      ClaimsTaken(rows, due[1..], now);
      ClaimsSplit(rows, due, now);
      hide Claims;
      var rest, all := Claims(rows, due[1..], now), Claims(rows, due, now);
      var n := |all| - |rest|;
      forall i | 0 <= i < |all| ensures Taken(rows, due, all[i], now) {
        if i >= n { assert all[i] == rest[i - n]; assert Taken(rows, due[1..], rest[i - n], now); }
      }
    }
  }

  lemma HeadApart(due: seq<nat>)
    requires due != [] && NoRepeats(due)
    ensures NoRepeats(due[1..]) && due[0] !in due[1..]
  {
    forall i, j | 0 <= i < j < |due| - 1 ensures due[1..][i] != due[1..][j] {
      assert due[1..][i] == due[i + 1] && due[1..][j] == due[j + 1];
    }
  }

  lemma {:induction false} ClaimsApart(rows: map<nat, Row>, due: seq<nat>, now: int)
    requires NoRepeats(due) && forall i :: 0 <= i < |due| ==> due[i] in rows
    ensures Apart(Claims(rows, due, now))
    decreases |due|
  {
    hide NoRepeats, Claims;
    if due == [] {
      assert Claims(rows, due, now) == [] by { ClaimsNone(rows, now); }
    } else {
      HeadApart(due);
      ClaimsApart(rows, due[1..], now);
      ClaimsTaken(rows, due[1..], now);
      ClaimsSplit(rows, due, now);
      var rest, all := Claims(rows, due[1..], now), Claims(rows, due, now);
      if rows[due[0]].nextRun.Some? {
        assert all == [all[0]] + rest;
        forall j | 0 <= j < |rest| ensures rest[j].id != all[0].id { assert Taken(rows, due[1..], rest[j], now); }
      }
    }
  }

  lemma ClaimsNone(rows: map<nat, Row>, now: int)
    ensures Claims(rows, [], now) == []
  {
  }

  lemma ClaimIsRecorded(rows: map<nat, Row>, due: seq<nat>, now: int)
    requires forall i :: 0 <= i < |due| ==> due[i] in rows
    ensures ClaimRecorded(rows, ClaimedRows(rows, due, now), due, Claims(rows, due, now), now)
  {
    hide NextRun, Claims, FirstRun, Anchored, NoRepeats, Taken, Apart;
    ClaimIds(rows, due, now);
    ClaimsTaken(rows, due, now);
    if NoRepeats(due) { ClaimsApart(rows, due, now); }
    var cs := Claims(rows, due, now);
    forall k | k in rows && k in due && rows[k].nextRun.Some? ensures exists i :: 0 <= i < |cs| && cs[i].id == k {
      assert k in Ids(cs);
    }
    forall k | k in rows && k in due && rows[k].nextRun.None? && Anchored(rows[k].timing, now)
      ensures FirstRun(rows[k].timing, now, ClaimedRow(rows[k], now).nextRun.value)
    {
      NextIsFirstRun(rows[k].timing, now);
    }
  }

  /** Enabled, without a run to come later, and not marked running in the last 15 minutes. */
  predicate MayBeClaimed(r: Row, now: int) {
    && r.enabled && (r.nextRun.Some? ==> r.nextRun.value <= now)
    && (r.last == InProgress ==> now - r.updatedAt > 15 * 60 * 1000)
  }

  /** Settling one event changes its status and no other event. */
  predicate EventSettled(before: map<nat, Event>, after: map<nat, Event>, e: nat, status: Status) {
    && after.Keys == before.Keys
    && (forall k :: k in before && k != e ==> after[k] == before[k])
    && (e in before ==> after[e].status == status && after[e].(status := before[e].status) == before[e])
  }

  function EventKeys(events: map<nat, Event>): set<string> {
    set e | e in events :: events[e].key
  }

  lemma KeyInserted(events: map<nat, Event>, id: nat, e: Event)
    ensures e.key in EventKeys(events[id := e])
  {
    assert events[id := e][id].key == e.key;
  }

  function JobKeys(jobs: map<nat, Job>): set<string> {
    set j | j in jobs :: jobs[j].key
  }

  /** Insert on conflict do nothing: the new event's id, if inserted. */
  function InsertEvent(db: Db, c: Claim): (Db, Option<nat>) {
    var key := EventKey(c.key, c.nextRun);
    if key in EventKeys(db.events) then (db, None)
    else
      (db.(events := db.events[db.nextId := Event(c.key, c.nextRun, key, Running)], nextId := db.nextId + 1),
       Some(db.nextId))
  }

  function JobKey(eventKey: string, recipient: string): string {
    eventKey + ":" + recipient
  }

  /** One job for each recipient whose idempotency key is new. */
  function AddJobs(db: Db, event: nat, key: string, recipients: seq<string>): (Db, seq<nat>)
    decreases |recipients|
  {
    if recipients == [] then (db, [])
    else
      var k := JobKey(key, recipients[0]);
      if k in JobKeys(db.jobs) then AddJobs(db, event, key, recipients[1..])
      else
        var id := db.nextId;
        var (after, rest) :=
          AddJobs(db.(jobs := db.jobs[id := Job(event, recipients[0], k)], nextId := id + 1), event, key, recipients[1..]);
        (after, [id] + rest)
  }

  /** Inserting jobs changes no other table. */
  lemma {:induction false} AddJobsFrame(db: Db, event: nat, key: string, recipients: seq<string>)
    ensures var after := AddJobs(db, event, key, recipients).0;
            after.rows == db.rows && after.events == db.events && after.outbox == db.outbox
    decreases |recipients|
  {
    hide JobKey;
    if recipients != [] {
      var k := JobKey(key, recipients[0]);
      AddJobsFrame(db, event, key, recipients[1..]);
      AddJobsFrame(db.(jobs := db.jobs[db.nextId := Job(event, recipients[0], k)], nextId := db.nextId + 1),
                   event, key, recipients[1..]);
    }
  }

  function SetStatus(events: map<nat, Event>, event: nat, status: Status): map<nat, Event> {
    if event in events then events[event := events[event].(status := status)] else events
  }

  function Finalized(db: Db, c: Claim, event: nat, jobs: seq<nat>, now: int): Db {
    db.(outbox := db.outbox + jobs,
        events := SetStatus(db.events, event, if jobs != [] then Completed else Skipped),
        rows := AdvanceRow(db.rows, c, if jobs != [] then Succeeded else Passed, now))
  }

  function MarkedFailed(db: Db, c: Claim, event: Option<nat>, now: int): Db {
    db.(events := match event case Some(e) => SetStatus(db.events, e, Failed) case None => db.events,
        rows := AdvanceRow(db.rows, c, Broken, now))
  }

  /** The tables, updated in place by the statements of each transaction. */
  class Tables {
    var rows: map<nat, Row>
    var events: map<nat, Event>
    var jobs: map<nat, Job>
    var outbox: seq<nat>
    var nextId: nat

    function View(): Db reads this {
      Db(rows, events, jobs, outbox, nextId)
    }

    constructor (rows: map<nat, Row>)
      ensures View() == Db(rows, map[], map[], [], 0)
    {
      this.rows, events, jobs, outbox, nextId := rows, map[], map[], [], 0;
    }

    method ClaimDueNotificationSchedules(due: seq<nat>, now: int) returns (schedules: seq<Claim>)
      requires Picked(rows, due, now)
      modifies this`rows
      ensures rows == ClaimedRows(old(rows), due, now)
      ensures schedules == Claims(old(rows), due, now)
      ensures ClaimRecorded(old(rows), rows, due, schedules, now)
    {
      hide Due, ClaimedRow, ClaimRecorded;
      ClaimIsRecorded(rows, due, now);
      schedules := InitialiseOrCollect(due, now);
      ClaimIds(old(rows), due, now);
      assert forall i :: 0 <= i < |schedules| ==> schedules[i].id in Ids(schedules);
      MarkRunning(schedules, now);
      ClaimedTwoSteps(old(rows), due, now);
    }

    method InitialiseOrCollect(due: seq<nat>, now: int) returns (schedules: seq<Claim>)
      requires NoRepeats(due) && forall i :: 0 <= i < |due| ==> due[i] in rows
      modifies this`rows
      ensures rows == InitialisedRows(old(rows), due, now)
      ensures schedules == Claims(old(rows), due, now)
    {
      hide InitialisedRows, NextRun;
      schedules := [];
      ghost var before := rows;
      assert InitialisedRows(before, [], now) == before by { InitialisedNone(before, now); }
      assert due[..0] == [];
      for i := 0 to |due|
        invariant rows == InitialisedRows(before, due[..i], now)
        invariant schedules + Claims(before, due[i..], now) == Claims(before, due, now)
      {
        assert due[i..][0] == due[i] && due[i..][1..] == due[i + 1..];
        assert due[..i + 1] == due[..i] + [due[i]];
        InitialisedOne(before, due[..i], due[i], now);
        var r := rows[due[i]];
        if r.nextRun.None? {
          rows := rows[due[i] := r.(nextRun := Some(NextRun(r.timing, None, now)), updatedAt := now)];
        } else {
          schedules := schedules + [Claim(due[i], r.key, r.timing, r.nextRun.value, now)];
        }
      }
      assert due[..|due|] == due && due[|due|..] == [];
    }

    method MarkRunning(schedules: seq<Claim>, now: int)
      requires forall i :: 0 <= i < |schedules| ==> schedules[i].id in rows
      modifies this`rows
      ensures rows == MarkedRows(old(rows), Ids(schedules), now)
    {
      for i := 0 to |schedules|
        invariant rows == MarkedRows(old(rows), Ids(schedules[..i]), now)
      {
        assert schedules[..i + 1] == schedules[..i] + [schedules[i]];
        assert Ids(schedules[..i + 1]) == Ids(schedules[..i]) + {schedules[i].id} by {
          assert schedules[..i + 1][i] == schedules[i];
          assert forall j :: 0 <= j < i ==> schedules[..i + 1][j] == schedules[..i][j];
        }
        var k := schedules[i].id;
        rows := rows[k := rows[k].(last := InProgress, updatedAt := now)];
      }
      assert schedules[..|schedules|] == schedules;
    }

    method AdvanceSchedule(c: Claim, last: LastStatus, now: int)
      modifies this`rows
      ensures rows == AdvanceRow(old(rows), c, last, now)
      ensures RunRecorded(old(rows), rows, c, last, now)
    {
      hide RunRecorded;
      AdvanceRecorded(rows, c, last, now);
      if c.id in rows {
        var r := rows[c.id];
        var lastRun := if r.nextRun.Some? then r.nextRun else Some(now);
        rows := rows[c.id := r.(lastRun := lastRun, nextRun := Some(Advanced(c.timing, c.nextRun)), last := last, updatedAt := now)];
      }
    }

    method InsertScheduleEvent(c: Claim) returns (event: Option<nat>)
      modifies this`events, this`nextId
      ensures (View(), event) == InsertEvent(old(View()), c)
      ensures event.Some? <==> EventKey(c.key, c.nextRun) !in EventKeys(old(events))
      ensures EventKey(c.key, c.nextRun) in EventKeys(events)
      ensures match event
              case None => events == old(events)
              case Some(e) => events == old(events)[e := Event(c.key, c.nextRun, EventKey(c.key, c.nextRun), Running)]
    {
      hide EventKey, EventKeys;
      KeyInserted(events, nextId, Event(c.key, c.nextRun, EventKey(c.key, c.nextRun), Running));
      var key := EventKey(c.key, c.nextRun);
      event := None;
      if key !in EventKeys(events) {
        event := Some(nextId);
        events := events[nextId := Event(c.key, c.nextRun, key, Running)];
        nextId := nextId + 1;
      }
    }

    method BuildJobsForSchedule(event: nat, key: string, recipients: seq<string>) returns (created: seq<nat>)
      modifies this`jobs, this`nextId
      ensures (View(), created) == AddJobs(old(View()), event, key, recipients)
    {
      created := [];
      ghost var whole := AddJobs(View(), event, key, recipients);
      for i := 0 to |recipients|
        invariant rows == old(rows) && events == old(events) && outbox == old(outbox)
        invariant var (after, rest) := AddJobs(View(), event, key, recipients[i..]);
                  after == whole.0 && created + rest == whole.1
      {
        assert recipients[i..][0] == recipients[i] && recipients[i..][1..] == recipients[i + 1..];
        ghost var step := AddJobs(View(), event, key, recipients[i..]);
        var k := JobKey(key, recipients[i]);
        if k !in JobKeys(jobs) {
          ghost var id := nextId;
          ghost var taken := created;
          jobs := jobs[nextId := Job(event, recipients[i], k)];
          created := created + [nextId];
          nextId := nextId + 1;
          ghost var rest := AddJobs(View(), event, key, recipients[i + 1..]).1;
          assert created + rest == taken + ([id] + rest);
        }
      }
      assert recipients[|recipients|..] == [];
      assert created + [] == created;
    }

    method FinalizeScheduleRun(c: Claim, event: nat, created: seq<nat>, now: int)
      modifies this`rows, this`events, this`outbox
      ensures View() == Finalized(old(View()), c, event, created, now)
      ensures RunRecorded(old(rows), rows, c, if created != [] then Succeeded else Passed, now)
      ensures EventSettled(old(events), events, event, if created != [] then Completed else Skipped)
      ensures outbox == old(outbox) + created && jobs == old(jobs)
    {
      hide AdvanceRow, RunRecorded;
      for i := 0 to |created|
        invariant rows == old(rows) && events == old(events) && outbox == old(outbox) + created[..i]
      {
        assert created[..i + 1] == created[..i] + [created[i]];
        outbox := outbox + [created[i]];
      }
      assert created[..|created|] == created;
      events := SetStatus(events, event, if |created| > 0 then Completed else Skipped);
      AdvanceSchedule(c, if |created| > 0 then Succeeded else Passed, now);
    }

    method MarkScheduleRunFailed(c: Claim, event: Option<nat>, now: int)
      modifies this`rows, this`events
      ensures View() == MarkedFailed(old(View()), c, event, now)
      ensures RunRecorded(old(rows), rows, c, Broken, now)
      ensures if event.Some? then EventSettled(old(events), events, event.value, Failed) else events == old(events)
      ensures outbox == old(outbox) && jobs == old(jobs)
    {
      hide AdvanceRow, RunRecorded;
      if event.Some? { events := SetStatus(events, event.value, Failed); }
      AdvanceSchedule(c, Broken, now);
    }
  }

  // ----- processes -----

  /** What a process holds in memory between two transactions. */
  datatype Phase =
    | Working(todo: seq<Claim>)
    | Built(claim: Claim, event: nat, jobs: seq<nat>, todo: seq<Claim>)
    | Erred(claim: Claim, failing: Option<nat>, todo: seq<Claim>)

  datatype State = State(db: Db, runs: map<nat, Phase>, abandoned: set<nat>, clock: int)

  datatype Action =
    | ClaimDue(p: nat, now: int, due: seq<nat>)
    | BuildRun(p: nat, now: int, recipients: seq<string>)
    | Fail(p: nat, inserted: bool)
    | Finalize(p: nat, now: int)
    | MarkFailed(p: nat, now: int)
    | Abandon(p: nat)
    | Edit(id: nat, row: Row, now: int)

  predicate Enabled(s: State, a: Action) {
    match a
    case ClaimDue(p, now, due) =>
      (p in s.runs ==> s.runs[p] == Working([])) && now >= s.clock && Picked(s.db.rows, due, now)
    case BuildRun(p, now, recipients) =>
      && p in s.runs && s.runs[p].Working? && s.runs[p].todo != [] && now >= s.clock
      && forall i :: 0 <= i < |recipients| ==> NoColon(recipients[i])
    case Fail(p, _) => p in s.runs && (s.runs[p].Built? || (s.runs[p].Working? && s.runs[p].todo != []))
    case Finalize(p, now) => p in s.runs && s.runs[p].Built? && now >= s.clock
    case MarkFailed(p, now) => p in s.runs && s.runs[p].Erred? && now >= s.clock
    case Abandon(p) => p in s.runs
    case Edit(id, row, now) =>
      && now >= s.clock && row.updatedAt == now
      && row.last == if id in s.db.rows then s.db.rows[id].last else NeverRun
  }

  function OwnedEvent(ph: Phase): Option<nat> {
    match ph
    case Working(_) => None
    case Built(_, e, _, _) => Some(e)
    case Erred(_, e, _) => e
  }

  /** One committed transaction, one failure, one death of a process, or one
      administrator's edit. An action that is not enabled changes nothing. */
  function Apply(s: State, a: Action): State {
    if !Enabled(s, a) then s else
    match a
    case ClaimDue(p, now, due) =>
      s.(db := s.db.(rows := ClaimedRows(s.db.rows, due, now)),
         runs := s.runs[p := Working(Claims(s.db.rows, due, now))], clock := now)
    case BuildRun(p, now, recipients) =>
      var c, rest := s.runs[p].todo[0], s.runs[p].todo[1..];
      var (db, event) := InsertEvent(s.db, c);
      if event.None? then
        s.(db := s.db.(rows := AdvanceRow(s.db.rows, c, Passed, now)), runs := s.runs[p := Working(rest)], clock := now)
      else
        var (after, created) := AddJobs(db, event.value, EventKey(c.key, c.nextRun), recipients);
        s.(db := after, runs := s.runs[p := Built(c, event.value, created, rest)], clock := now)
    case Fail(p, inserted) =>
      // A failure before the commit rolls the event back; its id stays in memory.
      (match s.runs[p]
       case Built(c, e, _, todo) => s.(runs := s.runs[p := Erred(c, Some(e), todo)])
       case _ =>
         var c, rest := s.runs[p].todo[0], s.runs[p].todo[1..];
         if inserted then
           s.(db := s.db.(nextId := s.db.nextId + 1), runs := s.runs[p := Erred(c, Some(s.db.nextId), rest)])
         else s.(runs := s.runs[p := Erred(c, None, rest)]))
    case Finalize(p, now) =>
      var ph := s.runs[p];
      s.(db := Finalized(s.db, ph.claim, ph.event, ph.jobs, now), runs := s.runs[p := Working(ph.todo)], clock := now)
    case MarkFailed(p, now) =>
      var ph := s.runs[p];
      s.(db := MarkedFailed(s.db, ph.claim, ph.failing, now), runs := s.runs[p := Working(ph.todo)], clock := now)
    case Abandon(p) =>
      s.(runs := s.runs - {p},
         abandoned := s.abandoned + match OwnedEvent(s.runs[p]) case Some(e) => {e} case None => {})
    case Edit(id, row, now) =>
      s.(db := s.db.(rows := s.db.rows[id := row]), clock := now)
  }

  function Start(rows: map<nat, Row>, clock: int): State {
    State(Db(rows, map[], map[], [], 0), map[], {}, clock)
  }

  function Run(s: State, actions: seq<Action>): State
    decreases |actions|
  {
    if actions == [] then s else Run(Apply(s, actions[0]), actions[1..])
  }

  /** However a run ends, by finalising, by a recorded failure, or passed over for
      the key it finds taken, the schedule it was claimed from moves on to its next
      slot, and everything else is as the outcome says. */
  lemma EveryEndAdvances(s: State, a: Action)
    requires Enabled(s, a)
    ensures var u := Apply(s, a);
            match a
            case Finalize(p, now) =>
              var ph := s.runs[p]; var any := ph.jobs != [];
              && RunRecorded(s.db.rows, u.db.rows, ph.claim, if any then Succeeded else Passed, now)
              && EventSettled(s.db.events, u.db.events, ph.event, if any then Completed else Skipped)
              && u.db.outbox == s.db.outbox + ph.jobs && u.db.jobs == s.db.jobs && u.runs == s.runs[p := Working(ph.todo)]
            case MarkFailed(p, now) =>
              var ph := s.runs[p];
              && RunRecorded(s.db.rows, u.db.rows, ph.claim, Broken, now)
              && (if ph.failing.Some? then EventSettled(s.db.events, u.db.events, ph.failing.value, Failed)
                  else u.db.events == s.db.events)
              && u.db.outbox == s.db.outbox && u.db.jobs == s.db.jobs && u.runs == s.runs[p := Working(ph.todo)]
            case BuildRun(p, now, _) =>
              var c := s.runs[p].todo[0];
              if EventKey(c.key, c.nextRun) in EventKeys(s.db.events) then
                && RunRecorded(s.db.rows, u.db.rows, c, Passed, now)
                && u.db.(rows := s.db.rows) == s.db && u.runs == s.runs[p := Working(s.runs[p].todo[1..])]
              else u.db.rows == s.db.rows && u.db.outbox == s.db.outbox
            case ClaimDue(p, now, due) =>
              && u.runs.Keys == s.runs.Keys + {p} && u.runs[p].Working?
              && ClaimRecorded(s.db.rows, u.db.rows, due, u.runs[p].todo, now) && u.db.(rows := s.db.rows) == s.db
              && |due| <= 10 && forall i :: 0 <= i < |due| ==> due[i] in s.db.rows && MayBeClaimed(s.db.rows[due[i]], now)
            case _ => true
  {
    hide RunRecorded, ClaimRecorded, AdvanceRow, EventKey, EventKeys, NoColon, Claims, ClaimedRows, AddJobs;
    match a
    case Finalize(p, now) =>
      var ph := s.runs[p];
      AdvanceRecorded(s.db.rows, ph.claim, if ph.jobs != [] then Succeeded else Passed, now);
    case MarkFailed(p, now) => AdvanceRecorded(s.db.rows, s.runs[p].claim, Broken, now);
    case BuildRun(p, now, recipients) =>
      var c := s.runs[p].todo[0];
      AdvanceRecorded(s.db.rows, c, Passed, now);
      var (db, event) := InsertEvent(s.db, c);
      if event.Some? { AddJobsFrame(db, event.value, EventKey(c.key, c.nextRun), recipients); }
    case ClaimDue(p, now, due) => ClaimIsRecorded(s.db.rows, due, now);
    case _ =>
  }
}

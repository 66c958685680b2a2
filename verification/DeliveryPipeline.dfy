/** The scheduler and the outbox together: which notification jobs can reach a
    queue, and what becomes of those that should. */
module DeliveryPipeline {
  import opened Text
  import S = SchedulerProtocol
  import Safety = SchedulerSafety
  import O = Outbox
  import C = ScheduleClock

  /** Both components over one database; an outbox row carries its job's id. */
  datatype State = State(sched: S.State, outbox: O.State)

  datatype Action = Schedule(step: S.Action, now: int) | Dispatching(move: O.Action)

  /** Outbox rows inserted by a finalising transaction. */
  function InsertAll(o: O.State, ids: seq<nat>, now: int, max: int): O.State
    decreases |ids|
  {
    if ids == [] then o else InsertAll(O.Apply(o, O.Insert(ids[0], now), max), ids[1..], now, max)
  }

  /** The rows a scheduler action adds to its outbox. */
  function Added(s: S.State, a: S.Action): seq<nat> {
    if S.Enabled(s, a) && a.Finalize? then s.runs[a.p].jobs else []
  }

  function Apply(s: State, a: Action, max: int): State {
    match a
    case Schedule(b, now) => State(S.Apply(s.sched, b), InsertAll(s.outbox, Added(s.sched, b), now, max))
    case Dispatching(b) => if b.Insert? then s else State(s.sched, O.Apply(s.outbox, b, max))
  }

  function Run(s: State, actions: seq<Action>, max: int): State
    decreases |actions|
  {
    if actions == [] then s else Run(Apply(s, actions[0], max), actions[1..], max)
  }

  function Start(rows: map<nat, S.Row>, clock: int): State {
    State(S.Start(rows, clock), O.Start())
  }

  ghost predicate Linked(s: State) {
    && (forall id :: id in s.outbox.t.rows <==> id in s.sched.db.outbox)
    && (forall id :: id in s.outbox.t.queue ==> id in s.outbox.t.rows)
  }

  ghost predicate Inv(s: State, max: int) {
    Safety.Inv(s.sched) && O.Inv(s.outbox, max) && Linked(s)
  }

  lemma {:induction false} InsertAllKeeps(o: O.State, ids: seq<nat>, now: int, max: int)
    requires O.Inv(o, max)
    ensures var p := InsertAll(o, ids, now, max);
            && O.Inv(p, max) && p.t.queue == o.t.queue
            && forall id :: id in p.t.rows <==> id in o.t.rows || id in ids
    decreases |ids|
  {
    hide O.Inv;
    if ids != [] {
      O.ApplyKeeps(o, O.Insert(ids[0], now), max);
      InsertAllKeeps(O.Apply(o, O.Insert(ids[0], now), max), ids[1..], now, max);
      assert ids == [ids[0]] + ids[1..];
    }
  }

  /** Only a finalising action appends outbox rows, exactly those of its jobs. */
  lemma OutboxGrows(s: S.State, a: S.Action)
    ensures forall id :: id in S.Apply(s, a).db.outbox <==> id in s.db.outbox || id in Added(s, a)
  {
    hide S.EventKeys, S.AdvanceRow, S.ClaimedRows, S.Claims, S.AddJobs, S.Picked;
    if S.Enabled(s, a) && a.BuildRun? {
      var (db, event) := S.InsertEvent(s.db, s.runs[a.p].todo[0]);
      if event.Some? { S.AddJobsFrame(db, event.value, C.EventKey(s.runs[a.p].todo[0].key, s.runs[a.p].todo[0].nextRun), a.recipients); }
    }
  }

  /** Dispatchers create no rows and queue only ids that have one. */
  lemma DispatchLinked(o: O.State, a: O.Action, max: int)
    requires O.Inv(o, max) && !a.Insert? && forall id :: id in o.t.queue ==> id in o.t.rows
    ensures var p := O.Apply(o, a, max);
            (forall id :: id in p.t.rows <==> id in o.t.rows) && (forall id :: id in p.t.queue ==> id in p.t.rows)
  {
    hide O.DeadExact, O.Marked;
    if O.Enabled(o, a) && a.Commit? {
      assert O.BatchOk(o.t, o.open[a.p], max);
      O.BatchWrites(o.t, o.open[a.p], max);
    }
  }

  lemma ApplyKeeps(s: State, a: Action, max: int)
    requires Inv(s, max)
    ensures Inv(Apply(s, a, max), max)
  {
    hide Safety.Inv, O.Inv, InsertAll, Added;
    match a
    case Schedule(b, now) =>
      Safety.ApplyKeeps(s.sched, b);
      InsertAllKeeps(s.outbox, Added(s.sched, b), now, max);
      OutboxGrows(s.sched, b);
    case Dispatching(b) =>
      if !b.Insert? {
        O.ApplyKeeps(s.outbox, b, max);
        DispatchLinked(s.outbox, b, max);
      }
  }

  lemma {:induction false} RunKeeps(s: State, actions: seq<Action>, max: int)
    requires Inv(s, max)
    ensures Inv(Run(s, actions, max), max)
    decreases |actions|
  {
    hide Inv, Apply;
    if actions != [] {
      ApplyKeeps(s, actions[0], max);
      RunKeeps(Apply(s, actions[0], max), actions[1..], max);
    }
  }

  predicate JobOf(s: State, j: nat, e: nat) {
    j in s.sched.db.jobs && s.sched.db.jobs[j].event == e && e in s.sched.db.events
  }

  /** Over every interleaving of schedulers and dispatchers: a job is queued for
      sending only when its event completed, and every job of a completed event
      still waits for a dispatcher, was queued, or has its one dead letter. */
  lemma QueuedIffCompleted(rows: map<nat, S.Row>, clock: int, actions: seq<Action>, max: int, j: nat, e: nat)
    requires JobOf(Run(Start(rows, clock), actions, max), j, e)
    ensures var s := Run(Start(rows, clock), actions, max); var o := s.outbox.t;
            && (j in o.queue ==> s.sched.db.events[e].status == S.Completed)
            && (s.sched.db.events[e].status == S.Completed <==> j in o.rows)
            && (j in o.rows ==>
                  || O.Retryable(o.rows[j])
                  || (o.rows[j].status == O.Processed && j in o.queue)
                  || (o.rows[j].status == O.DeadLetter && exists i :: 0 <= i < |o.dead| && o.dead[i].source == j))
  {
    hide Run, Start;
    assert Inv(Start(rows, clock), max) by { StartInv(rows, clock, max); }
    RunKeeps(Start(rows, clock), actions, max);
    var s := Run(Start(rows, clock), actions, max);
    JobRow(s, j, e);
    if j in s.outbox.t.rows { RowFate(s.outbox, j, max); }
  }

  lemma StartInv(rows: map<nat, S.Row>, clock: int, max: int)
    ensures Inv(Start(rows, clock), max)
  {
    Safety.StartInv(rows, clock);
    O.EmptyInv(max);
  }

  lemma JobRow(s: State, j: nat, e: nat)
    requires Safety.Inv(s.sched) && Linked(s) && JobOf(s, j, e)
    ensures j in s.outbox.t.rows <==> s.sched.db.events[e].status == S.Completed
    ensures j in s.outbox.t.queue ==> s.sched.db.events[e].status == S.Completed
  {
    hide Safety.EventsKeyed, Safety.JobsKeyed, Safety.Ownership, Safety.RunningHeld, Safety.HasJob;
  }

  lemma RowFate(o: O.State, j: nat, max: int)
    requires O.Inv(o, max) && j in o.t.rows
    ensures || O.Retryable(o.t.rows[j])
            || (o.t.rows[j].status == O.Processed && j in o.t.queue)
            || (o.t.rows[j].status == O.DeadLetter && exists i :: 0 <= i < |o.t.dead| && o.t.dead[i].source == j)
  {
    hide O.BatchOk, O.Disjoint;
    assert O.RowOk(o.t, j, max);
  }
}

/** The transactional outbox: concurrent dispatchers lock batches of retryable
    events, hand each one to a queue at once, and mark it when they commit. */
module Outbox {
  const BATCH := 25
  const BASE_DELAY := 30_000
  const MAX_DELAY := 900_000

  datatype Status = Pending | Failed | Processed | DeadLetter

  datatype Row = Row(status: Status, attempts: nat, availableAt: int)

  datatype Dead = Dead(source: nat, attempts: nat)

  predicate Retryable(r: Row) {
    r.status == Pending || r.status == Failed
  }

  /** The attempt at which an event is given up: the configured maximum, and the
      first one when that is not positive. */
  function Limit(max: int): nat {
    if max >= 1 then max else 1
  }

  function Pow2(n: nat): nat {
    if n == 0 then 1 else 2 * Pow2(n - 1)
  }

  function RetryDelay(attempts: int): int {
    var d := BASE_DELAY * Pow2(if attempts - 1 > 0 then attempts - 1 else 0);
    if d < MAX_DELAY then d else MAX_DELAY
  }

  lemma {:induction false} Pow2Grows(a: nat, b: nat)
    requires a <= b
    ensures Pow2(a) <= Pow2(b) && Pow2(a) >= 1
    decreases b
  {
    if a < b { Pow2Grows(a, b - 1); } else if b > 0 { Pow2Grows(a - 1, b - 1); }
  }

  /** The wait doubles with each failure from 30 seconds, and is 15 minutes
      exactly from the sixth failure on. */
  lemma RetryDelayExact(attempts: int)
    ensures RetryDelay(attempts) == MAX_DELAY <==> attempts >= 6
    ensures 1 <= attempts < 5 ==> RetryDelay(attempts + 1) == 2 * RetryDelay(attempts)
    ensures attempts <= 1 ==> RetryDelay(attempts) == BASE_DELAY
  {
    assert Pow2(1) == 2 && Pow2(2) == 4 && Pow2(3) == 8 && Pow2(4) == 16 && Pow2(5) == 32;
    if attempts >= 6 { Pow2Grows(5, attempts - 1); }
  }

  // ----- marking one event -----

  /** The row a dispatcher writes for an event it handed over, or failed to. */
  function Marked(r: Row, added: bool, max: int, now: int): Row {
    if added then r.(status := Processed)
    else if r.attempts + 1 >= max then r.(status := DeadLetter, attempts := r.attempts + 1)
    else Row(Failed, r.attempts + 1, now + RetryDelay(r.attempts + 1))
  }

  function DeadFor(id: nat, r: Row): seq<Dead> {
    if r.status == DeadLetter then [Dead(id, r.attempts)] else []
  }

  /** What became of handing an event to its queue: taken, refused, or taken
      although the caller saw an error. */
  datatype Outcome = Taken | Refused | TakenUnseen

  // ----- one transaction, event by event -----

  datatype Batch = Batch(ids: seq<nat>, done: nat, writes: map<nat, Row>, dead: seq<Dead>)

  datatype Tables = Tables(rows: map<nat, Row>, dead: seq<Dead>, queue: seq<nat>)

  /** The batch's uncommitted writes after its next event. */
  function Advanced(rows: map<nat, Row>, b: Batch, outcome: Outcome, max: int, now: int): Batch
    requires b.done < |b.ids| && b.ids[b.done] in rows
  {
    var id := b.ids[b.done];
    var r := Marked(rows[id], outcome == Taken, max, now);
    Batch(b.ids, b.done + 1, b.writes[id := r], b.dead + DeadFor(id, r))
  }

  function Queued(queue: seq<nat>, id: nat, outcome: Outcome): seq<nat> {
    if outcome == Refused then queue else queue + [id]
  }

  function Processing(t: Tables, b: Batch, outcomes: seq<Outcome>, max: int, now: int): (Batch, seq<nat>)
    requires b.done + |outcomes| <= |b.ids| && forall i :: 0 <= i < |b.ids| ==> b.ids[i] in t.rows
    decreases |outcomes|
  {
    if outcomes == [] then (b, t.queue)
    else
      Processing(t.(queue := Queued(t.queue, b.ids[b.done], outcomes[0])),
                 Advanced(t.rows, b, outcomes[0], max, now), outcomes[1..], max, now)
  }

  // ----- what a hand-over leaves in the rows -----

  const WAITS: seq<int> := [30_000, 60_000, 120_000, 240_000, 480_000]

  /** The row after an event was handed over: processed when the queue took it; else
      one more attempt, given up exactly when that reaches the maximum, and otherwise
      due again after a wait that grows from 30 seconds to at most 15 minutes. */
  predicate Recorded(r: Row, u: Row, outcome: Outcome, max: int, now: int) {
    if outcome == Taken then u.status == Processed && u.attempts == r.attempts
    else
      && u.attempts == r.attempts + 1
      && (u.status == DeadLetter <==> u.attempts >= max)
      && (u.attempts < max ==>
            && u.status == Failed
            && u.availableAt == now + if u.attempts <= |WAITS| then WAITS[u.attempts - 1] else 900_000)
  }

  lemma MarkedIsRecorded(r: Row, outcome: Outcome, max: int, now: int)
    ensures Recorded(r, Marked(r, outcome == Taken, max, now), outcome, max, now)
  {
    WaitsExact(r.attempts + 1);
  }

  lemma WaitsExact(attempts: int)
    requires attempts >= 1
    ensures RetryDelay(attempts) == if attempts <= |WAITS| then WAITS[attempts - 1] else 900_000
  {
    assert Pow2(1) == 2 && Pow2(2) == 4 && Pow2(3) == 8 && Pow2(4) == 16 && Pow2(5) == 32;
    if attempts >= 6 { Pow2Grows(5, attempts - 1); }
  }

  /** The events of a batch that reached their queue, in order. */
  function HandedOver(batch: seq<nat>, outcomes: seq<Outcome>): seq<nat>
    requires |batch| == |outcomes|
  {
    if batch == [] then []
    else
      var n := |batch| - 1;
      HandedOver(batch[..n], outcomes[..n]) + if outcomes[n] == Refused then [] else [batch[n]]
  }

  /** One dead-letter row for each event of the batch given up, in order. */
  function Letters(batch: seq<nat>, rows: map<nat, Row>): seq<Dead>
    requires forall i :: 0 <= i < |batch| ==> batch[i] in rows
  {
    if batch == [] then []
    else
      var id := batch[|batch| - 1];
      Letters(batch[..|batch| - 1], rows) + if rows[id].status == DeadLetter then [Dead(id, rows[id].attempts)] else []
  }

  predicate Distinct(ids: seq<nat>) {
    forall i, j :: 0 <= i < j < |ids| ==> ids[i] != ids[j]
  }

  /** What dispatching a batch leaves in the tables. */
  predicate BatchRecorded(t: Tables, u: Tables, batch: seq<nat>, outcomes: seq<Outcome>, max: int, now: int)
    requires |batch| == |outcomes| && forall i :: 0 <= i < |batch| ==> batch[i] in t.rows
  {
    && u.rows.Keys == t.rows.Keys
    && (forall i :: 0 <= i < |batch| ==> Recorded(t.rows[batch[i]], u.rows[batch[i]], outcomes[i], max, now))
    && (forall id :: id in t.rows && id !in batch ==> u.rows[id] == t.rows[id])
    && u.queue == t.queue + HandedOver(batch, outcomes)
    && u.dead == t.dead + Letters(batch, u.rows)
  }

  /** The writes and rows of the first k events, before the commit. */
  ghost predicate PartRecorded(t: Tables, b: Batch, queue: seq<nat>, outcomes: seq<Outcome>, max: int, now: int)
    requires |outcomes| == b.done <= |b.ids| && forall i :: 0 <= i < |b.ids| ==> b.ids[i] in t.rows
  {
    && (forall id :: id in b.writes <==> id in b.ids[..b.done])
    && (forall i :: 0 <= i < b.done ==> Recorded(t.rows[b.ids[i]], b.writes[b.ids[i]], outcomes[i], max, now))
    && queue == t.queue + HandedOver(b.ids[..b.done], outcomes)
    && b.dead == Letters(b.ids[..b.done], b.writes)
  }

  lemma {:induction false} LettersAgree(batch: seq<nat>, a: map<nat, Row>, b: map<nat, Row>)
    requires forall i :: 0 <= i < |batch| ==> batch[i] in a && batch[i] in b && a[batch[i]] == b[batch[i]]
    ensures Letters(batch, a) == Letters(batch, b)
  {
    if batch != [] { LettersAgree(batch[..|batch| - 1], a, b); }
  }

  lemma HandedOverStep(ids: seq<nat>, outcomes: seq<Outcome>, outcome: Outcome)
    requires |outcomes| < |ids|
    ensures var k := |outcomes|;
            HandedOver(ids[..k + 1], outcomes + [outcome]) ==
            HandedOver(ids[..k], outcomes) + if outcome == Refused then [] else [ids[k]]
  {
    var k := |outcomes|;
    assert ids[..k + 1][..k] == ids[..k] && (outcomes + [outcome])[..k] == outcomes;
  }

  lemma LettersStep(ids: seq<nat>, k: nat, rows: map<nat, Row>)
    requires k < |ids| && forall i :: 0 <= i <= k ==> ids[i] in rows
    ensures Letters(ids[..k + 1], rows) == Letters(ids[..k], rows) + DeadFor(ids[k], rows[ids[k]])
  {
    assert ids[..k + 1][..k] == ids[..k];
  }

  lemma PartStep(t: Tables, b: Batch, queue: seq<nat>, outcomes: seq<Outcome>, outcome: Outcome, max: int, now: int)
    requires |outcomes| == b.done < |b.ids| && Distinct(b.ids) && forall i :: 0 <= i < |b.ids| ==> b.ids[i] in t.rows
    requires PartRecorded(t, b, queue, outcomes, max, now)
    ensures PartRecorded(t, Advanced(t.rows, b, outcome, max, now), Queued(queue, b.ids[b.done], outcome), outcomes + [outcome],
                         max, now)
  {
    hide Recorded, Marked, HandedOver, Letters, DeadFor;
    var k, id := b.done, b.ids[b.done];
    var c := Advanced(t.rows, b, outcome, max, now);
    MarkedIsRecorded(t.rows[id], outcome, max, now);
    HandedOverStep(b.ids, outcomes, outcome);
    assert b.ids[..k + 1] == b.ids[..k] + [id];
    LettersAgree(b.ids[..k], b.writes, c.writes);
    LettersStep(b.ids, k, c.writes);
  }

  lemma {:induction false} ProcessingRecorded(t: Tables, b: Batch, queue: seq<nat>, done: seq<Outcome>, rest: seq<Outcome>,
                                              max: int, now: int)
    requires |done| == b.done && b.done + |rest| == |b.ids| && Distinct(b.ids)
    requires forall i :: 0 <= i < |b.ids| ==> b.ids[i] in t.rows
    requires PartRecorded(t, b, queue, done, max, now)
    ensures var (c, q) := Processing(t.(queue := queue), b, rest, max, now);
            c.ids == b.ids && c.done == |b.ids| && PartRecorded(t, c, q, done + rest, max, now)
    decreases |rest|
  {
    hide PartRecorded, Advanced, Queued;
    if rest == [] {
      assert done + rest == done;
    } else {
      PartStep(t, b, queue, done, rest[0], max, now);
      AdvancedShape(t.rows, b, rest[0], max, now);
      ProcessingRecorded(t, Advanced(t.rows, b, rest[0], max, now), Queued(queue, b.ids[b.done], rest[0]), done + [rest[0]],
                         rest[1..], max, now);
      assert done + [rest[0]] + rest[1..] == done + rest;
    }
  }

  lemma AdvancedShape(rows: map<nat, Row>, b: Batch, outcome: Outcome, max: int, now: int)
    requires b.done < |b.ids| && b.ids[b.done] in rows
    ensures Advanced(rows, b, outcome, max, now).ids == b.ids && Advanced(rows, b, outcome, max, now).done == b.done + 1
  {
  }

  /** The whole transaction, from the batch as locked to the commit. */
  lemma CommittedRecorded(t: Tables, batch: seq<nat>, outcomes: seq<Outcome>, max: int, now: int)
    requires |batch| == |outcomes| && Distinct(batch) && forall i :: 0 <= i < |batch| ==> batch[i] in t.rows
    ensures var (b, q) := Processing(t, Opened(batch), outcomes, max, now);
            BatchRecorded(t, Committed(t, b).(queue := q), batch, outcomes, max, now)
  {
    hide Recorded, Processing, PartRecorded, Opened;
    NothingRecorded(t, batch, max, now);
    assert [] + outcomes == outcomes && t.(queue := t.queue) == t;
    ProcessingRecorded(t, Opened(batch), t.queue, [], outcomes, max, now);
    var (b, q) := Processing(t, Opened(batch), outcomes, max, now);
    PartCommitted(t, b, q, outcomes, max, now);
  }

  lemma NothingRecorded(t: Tables, batch: seq<nat>, max: int, now: int)
    requires forall i :: 0 <= i < |batch| ==> batch[i] in t.rows
    ensures Opened(batch).ids == batch && Opened(batch).done == 0
    ensures PartRecorded(t, Opened(batch), t.queue, [], max, now)
  {
    assert batch[..0] == [] && t.queue + [] == t.queue;
  }

  lemma PartCommitted(t: Tables, b: Batch, queue: seq<nat>, outcomes: seq<Outcome>, max: int, now: int)
    requires |outcomes| == b.done == |b.ids| && Distinct(b.ids) && forall i :: 0 <= i < |b.ids| ==> b.ids[i] in t.rows
    requires PartRecorded(t, b, queue, outcomes, max, now)
    ensures BatchRecorded(t, Committed(t, b).(queue := queue), b.ids, outcomes, max, now)
  {
    hide Recorded, HandedOver, Letters;
    assert b.ids[..|b.ids|] == b.ids;
    LettersAgree(b.ids, b.writes, t.rows + b.writes);
  }

  function Opened(ids: seq<nat>): Batch {
    Batch(ids, 0, map[], [])
  }

  function Committed(t: Tables, b: Batch): Tables {
    t.(rows := t.rows + b.writes, dead := t.dead + b.dead)
  }

  /** The tables of the outbox; statements of the open transaction update a copy
      that replaces the committed rows at the end. */
  class Dispatcher {
    const max: int
    var rows: map<nat, Row>
    var dead: seq<Dead>
    var queue: seq<nat>

    function View(): Tables reads this {
      Tables(rows, dead, queue)
    }

    constructor (max: int)
      ensures View() == Tables(map[], [], []) && this.max == max
    {
      this.max := max;
      rows, dead, queue := map[], [], [];
    }

    method DispatchPendingOutbox(batch: seq<nat>, outcomes: seq<Outcome>, now: int) returns (count: nat)
      requires |batch| == |outcomes| && forall i :: 0 <= i < |batch| ==> batch[i] in rows
      requires Distinct(batch)
      modifies this
      ensures count == |batch|
      ensures BatchRecorded(old(View()), View(), batch, outcomes, max, now)
      ensures var (b, q) := Processing(old(View()), Opened(batch), outcomes, max, now);
              View() == Committed(old(View()), b).(queue := q)
    {
      hide BatchRecorded;
      CommittedRecorded(View(), batch, outcomes, max, now);
      var writes: map<nat, Row>, deadRows: seq<Dead> := map[], [];
      ghost var goal := Processing(View(), Opened(batch), outcomes, max, now);
      for i := 0 to |batch|
        invariant rows == old(rows) && dead == old(dead)
        invariant Processing(View(), Batch(batch, i, writes, deadRows), outcomes[i..], max, now) == goal
      {
        assert outcomes[i..][0] == outcomes[i] && outcomes[i..][1..] == outcomes[i + 1..];
        var id := batch[i];
        if outcomes[i] != Refused { queue := queue + [id]; }
        if outcomes[i] == Taken {
          writes := writes[id := rows[id].(status := Processed)];
          assert deadRows + [] == deadRows;
        } else {
          var r, letters := MarkDispatchFailure(id, rows[id], now);
          writes := writes[id := r];
          deadRows := deadRows + letters;
        }
      }
      assert outcomes[|batch|..] == [];
      rows := rows + writes;
      dead := dead + deadRows;
      count := |batch|;
    }

    method MarkDispatchFailure(id: nat, event: Row, now: int) returns (r: Row, letters: seq<Dead>)
      ensures r == Marked(event, false, max, now) && letters == DeadFor(id, r)
      ensures Recorded(event, r, Refused, max, now)
      ensures letters == if r.status == DeadLetter then [Dead(id, r.attempts)] else []
    {
      MarkedIsRecorded(event, Refused, max, now);
      var attempts := event.attempts + 1;
      if attempts >= max {
        return event.(status := DeadLetter, attempts := attempts), [Dead(id, attempts)];
      }
      r, letters := Row(Failed, attempts, now + RetryDelay(attempts)), [];
    }
  }

  // ----- any number of dispatchers -----

  datatype State = State(t: Tables, open: map<nat, Batch>)

  datatype Action =
    | Insert(id: nat, now: int)
    | Begin(p: nat, ids: seq<nat>, now: int)
    | Dispatch(p: nat, outcome: Outcome, now: int)
    | Commit(p: nat)
    | Rollback(p: nat)

  /** Due rows that no other open transaction has locked. */
  predicate Lockable(s: State, ids: seq<nat>, now: int) {
    && |ids| <= BATCH
    && (forall i, j :: 0 <= i < j < |ids| ==> ids[i] != ids[j])
    && forall i :: 0 <= i < |ids| ==>
         && ids[i] in s.t.rows && Retryable(s.t.rows[ids[i]]) && s.t.rows[ids[i]].availableAt <= now
         && forall q :: q in s.open ==> ids[i] !in s.open[q].ids
  }

  predicate Enabled(s: State, a: Action) {
    match a
    case Insert(id, _) => id !in s.t.rows
    case Begin(p, ids, now) => p !in s.open && Lockable(s, ids, now)
    case Dispatch(p, _, _) => p in s.open && s.open[p].done < |s.open[p].ids| && s.open[p].ids[s.open[p].done] in s.t.rows
    case Commit(p) => p in s.open && s.open[p].done == |s.open[p].ids|
    case Rollback(p) => p in s.open
  }

  /** Handing over is immediate; everything else waits for the commit. */
  function Apply(s: State, a: Action, max: int): State {
    if !Enabled(s, a) then s else
    match a
    case Insert(id, now) => s.(t := s.t.(rows := s.t.rows[id := Row(Pending, 0, now)]))
    case Begin(p, ids, _) => s.(open := s.open[p := Opened(ids)])
    case Dispatch(p, outcome, now) =>
      var b := s.open[p];
      State(s.t.(queue := Queued(s.t.queue, b.ids[b.done], outcome)),
            s.open[p := Advanced(s.t.rows, b, outcome, max, now)])
    case Commit(p) => State(Committed(s.t, s.open[p]), s.open - {p})
    case Rollback(p) => s.(open := s.open - {p})
  }

  function Run(s: State, actions: seq<Action>, max: int): State
    decreases |actions|
  {
    if actions == [] then s else Run(Apply(s, actions[0], max), actions[1..], max)
  }

  // ----- the invariant -----

  predicate RowOk(t: Tables, id: nat, max: int) {
    id in t.rows &&
    match t.rows[id].status
    case Pending => t.rows[id].attempts < Limit(max)
    case Failed => t.rows[id].attempts < Limit(max)
    case Processed => t.rows[id].attempts < Limit(max) && id in t.queue
    case DeadLetter => t.rows[id].attempts == Limit(max)
  }

  ghost predicate RowsOk(t: Tables, max: int) {
    forall id :: id in t.rows ==> RowOk(t, id, max)
  }

  /** One dead-letter row for each id given up, and none for any other. */
  ghost predicate DeadExact(rows: map<nat, Row>, dead: seq<Dead>, max: int) {
    && (forall i, j :: 0 <= i < j < |dead| ==> dead[i].source != dead[j].source)
    && (forall i :: 0 <= i < |dead| ==>
          dead[i].source in rows && rows[dead[i].source].status == DeadLetter && dead[i].attempts == Limit(max))
    && (forall id :: id in rows && rows[id].status == DeadLetter ==> exists i :: 0 <= i < |dead| && dead[i].source == id)
  }

  /** The only two ways a row moves on: processed with its attempts kept, or one
      more attempt, given up exactly when that reaches the maximum. */
  predicate Follows(r: Row, w: Row, max: int) {
    || (w.status == Processed && w.attempts == r.attempts)
    || (w.attempts == r.attempts + 1 && w.status == if w.attempts >= max then DeadLetter else Failed)
  }

  /** An open batch: locked retryable rows, and proper writes for those done. */
  ghost predicate BatchOk(t: Tables, b: Batch, max: int) {
    && b.done <= |b.ids|
    && (forall i, j :: 0 <= i < j < |b.ids| ==> b.ids[i] != b.ids[j])
    && (forall i :: 0 <= i < |b.ids| ==> b.ids[i] in t.rows && Retryable(t.rows[b.ids[i]]))
    && (forall id :: id in b.writes <==> id in b.ids[..b.done])
    && (forall id :: id in b.writes && id in t.rows ==> Follows(t.rows[id], b.writes[id], max))
    && RowsOk(Tables(b.writes, [], t.queue), max)
    && DeadExact(b.writes, b.dead, max)
  }

  ghost predicate Disjoint(open: map<nat, Batch>) {
    forall p, q, i, j :: (p in open && q in open && 0 <= i < |open[p].ids| && 0 <= j < |open[q].ids|
                          && open[p].ids[i] == open[q].ids[j]) ==> p == q
  }

  ghost predicate Inv(s: State, max: int) {
    && RowsOk(s.t, max) && DeadExact(s.t.rows, s.t.dead, max)
    && Disjoint(s.open)
    && forall p :: p in s.open ==> BatchOk(s.t, s.open[p], max)
  }

  lemma AdvancedOk(t: Tables, b: Batch, outcome: Outcome, max: int, now: int)
    requires RowsOk(t, max) && BatchOk(t, b, max) && b.done < |b.ids|
    ensures BatchOk(t.(queue := Queued(t.queue, b.ids[b.done], outcome)), Advanced(t.rows, b, outcome, max, now), max)
    ensures Advanced(t.rows, b, outcome, max, now).ids == b.ids
  {
    hide RetryDelay, DeadExact;
    var id := b.ids[b.done];
    var c := Advanced(t.rows, b, outcome, max, now);
    assert id !in b.ids[..b.done];
    assert b.ids[..b.done + 1] == b.ids[..b.done] + [id];
    assert RowOk(t, id, max);
    var u := Tables(c.writes, [], Queued(t.queue, id, outcome));
    forall k | k in c.writes ensures RowOk(u, k, max) {
      if k != id { assert RowOk(Tables(b.writes, [], t.queue), k, max); }
    }
    DeadGrows(b.writes, b.dead, id, c.writes[id], max);
  }

  lemma DeadGrows(rows: map<nat, Row>, dead: seq<Dead>, id: nat, r: Row, max: int)
    requires DeadExact(rows, dead, max) && id !in rows && (r.status == DeadLetter ==> r.attempts == Limit(max))
    ensures DeadExact(rows[id := r], dead + DeadFor(id, r), max)
  {
    var after, more := rows[id := r], dead + DeadFor(id, r);
    forall k | k in after && after[k].status == DeadLetter ensures exists i :: 0 <= i < |more| && more[i].source == k {
      if k == id {
        assert more[|dead|].source == k;
      } else {
        var i :| 0 <= i < |dead| && dead[i].source == k;
        assert more[i].source == k;
      }
    }
  }

  lemma CommittedDead(rows: map<nat, Row>, dead: seq<Dead>, writes: map<nat, Row>, more: seq<Dead>, max: int)
    requires DeadExact(rows, dead, max) && DeadExact(writes, more, max)
    requires forall id :: id in writes ==> id in rows && Retryable(rows[id])
    ensures DeadExact(rows + writes, dead + more, max)
  {
    var rows', dead' := rows + writes, dead + more;
    forall k | k in rows' && rows'[k].status == DeadLetter ensures exists i :: 0 <= i < |dead'| && dead'[i].source == k {
      if k in writes {
        var i :| 0 <= i < |more| && more[i].source == k;
        assert dead'[|dead| + i].source == k;
      } else {
        var i :| 0 <= i < |dead| && dead[i].source == k;
        assert dead'[i].source == k;
      }
    }
  }

  lemma BatchWrites(t: Tables, b: Batch, max: int)
    requires BatchOk(t, b, max)
    ensures forall id :: id in b.writes ==>
              id in b.ids && id in t.rows && Retryable(t.rows[id]) && RowOk(Tables(b.writes, [], t.queue), id, max)
  {
    hide DeadExact, RowOk, Follows;
  }

  /** Writes to rows a batch has not locked leave it as it was. */
  lemma OtherBatch(t: Tables, u: Tables, b: Batch, max: int)
    requires BatchOk(t, b, max) && u.queue == t.queue
    requires forall i :: 0 <= i < |b.ids| ==> b.ids[i] in u.rows && u.rows[b.ids[i]] == t.rows[b.ids[i]]
    ensures BatchOk(u, b, max)
  {
    hide DeadExact, RowOk, Follows;
    forall id | id in b.writes ensures id in t.rows && id in u.rows && u.rows[id] == t.rows[id] { assert id in b.ids; }
  }

  lemma CommitKeeps(s: State, p: nat, max: int)
    requires Inv(s, max) && Enabled(s, Commit(p))
    ensures Inv(Apply(s, Commit(p), max), max)
  {
    hide DeadExact, BatchOk, Follows;
    var b, u := s.open[p], Apply(s, Commit(p), max);
    BatchWrites(s.t, b, max);
    assert DeadExact(u.t.rows, u.t.dead, max) by {
      assert DeadExact(b.writes, b.dead, max) by { BatchDead(s.t, b, max); }
      CommittedDead(s.t.rows, s.t.dead, b.writes, b.dead, max);
    }
    forall id | id in u.t.rows ensures RowOk(u.t, id, max) {
      if id in b.writes { assert RowOk(Tables(b.writes, [], s.t.queue), id, max); } else { assert RowOk(s.t, id, max); }
    }
    forall q | q in u.open ensures BatchOk(u.t, u.open[q], max) {
      var c := s.open[q];
      LockedRows(s.t, c, max);
      forall i | 0 <= i < |c.ids| ensures c.ids[i] !in b.writes {
        assert forall j :: 0 <= j < |b.ids| ==> b.ids[j] != c.ids[i];
      }
      OtherBatch(s.t, u.t, c, max);
    }
  }

  lemma BatchDead(t: Tables, b: Batch, max: int)
    requires BatchOk(t, b, max)
    ensures DeadExact(b.writes, b.dead, max)
  {
    hide DeadExact, RowOk, Follows;
  }

  lemma LockedRows(t: Tables, b: Batch, max: int)
    requires BatchOk(t, b, max)
    ensures forall i :: 0 <= i < |b.ids| ==> b.ids[i] in t.rows
  {
    hide DeadExact, RowOk, Follows;
  }

  lemma ApplyKeeps(s: State, a: Action, max: int)
    requires Inv(s, max)
    ensures Inv(Apply(s, a, max), max)
  {
    hide DeadExact, Marked;
    if Enabled(s, a) {
      var u := Apply(s, a, max);
      match a
      case Insert(id, now) => InsertKeeps(s, id, now, max);
      case Begin(p, ids, now) => BeginKeeps(s, p, ids, now, max);
      case Dispatch(p, outcome, now) => DispatchKeeps(s, p, outcome, now, max);
      case Commit(p) => CommitKeeps(s, p, max);
      case Rollback(p) =>
    }
  }

  lemma InsertKeeps(s: State, id: nat, now: int, max: int)
    requires Inv(s, max) && id !in s.t.rows
    ensures Inv(Apply(s, Insert(id, now), max), max)
  {
    hide RowsOk;
    var u := Apply(s, Insert(id, now), max);
    forall k | k in u.t.rows ensures RowOk(u.t, k, max) {
      if k != id { assert RowOk(s.t, k, max) by { RowOf(s.t, k, max); } }
    }
    assert RowsOk(u.t, max) by { AllRows(u.t, max); }
    forall q | q in u.open ensures BatchOk(u.t, u.open[q], max) {
      assert BatchOk(s.t, s.open[q], max);
    }
  }

  lemma RowOf(t: Tables, id: nat, max: int)
    requires RowsOk(t, max) && id in t.rows
    ensures RowOk(t, id, max)
  {
  }

  lemma AllRows(t: Tables, max: int)
    requires forall id :: id in t.rows ==> RowOk(t, id, max)
    ensures RowsOk(t, max)
  {
  }

  lemma BeginKeeps(s: State, p: nat, ids: seq<nat>, now: int, max: int)
    requires Inv(s, max) && Enabled(s, Begin(p, ids, now))
    ensures Inv(Apply(s, Begin(p, ids, now), max), max)
  {
    hide RowOk;
  }

  lemma DispatchKeeps(s: State, p: nat, outcome: Outcome, now: int, max: int)
    requires Inv(s, max) && Enabled(s, Dispatch(p, outcome, now))
    ensures Inv(Apply(s, Dispatch(p, outcome, now), max), max)
  {
    hide DeadExact, Advanced, BatchOk, RowsOk;
    var u := Apply(s, Dispatch(p, outcome, now), max);
    var b := s.open[p];
    AdvancedOk(s.t, b, outcome, max, now);
    MoreQueue(s.t, u.t.queue, max);
    forall q | q in u.open && q != p ensures BatchOk(u.t, u.open[q], max) {
      BatchQueue(s.t, s.open[q], u.t.queue, max);
    }
    assert Disjoint(u.open) by { SameIds(s.open, u.open); }
  }

  lemma BatchQueue(t: Tables, b: Batch, queue: seq<nat>, max: int)
    requires BatchOk(t, b, max) && forall id :: id in t.queue ==> id in queue
    ensures BatchOk(t.(queue := queue), b, max)
  {
    hide DeadExact, RowsOk, Follows;
    MoreQueue(Tables(b.writes, [], t.queue), queue, max);
  }

  lemma SameIds(a: map<nat, Batch>, b: map<nat, Batch>)
    requires Disjoint(a) && a.Keys == b.Keys && forall p :: p in a ==> a[p].ids == b[p].ids
    ensures Disjoint(b)
  {
  }

  lemma MoreQueue(t: Tables, queue: seq<nat>, max: int)
    requires RowsOk(t, max) && forall id :: id in t.queue ==> id in queue
    ensures RowsOk(t.(queue := queue), max)
  {
    forall id | id in t.rows ensures RowOk(t.(queue := queue), id, max) { assert RowOk(t, id, max); }
  }

  // ----- safety of every run -----

  function Start(): State {
    State(Tables(map[], [], []), map[])
  }

  lemma {:induction false} RunKeeps(s: State, actions: seq<Action>, max: int)
    requires Inv(s, max)
    ensures Inv(Run(s, actions, max), max)
    decreases |actions|
  {
    hide Inv, Apply;
    if actions != [] {
      ApplyKeeps(s, actions[0], max);
      RunKeeps(Apply(s, actions[0], max), actions[1..], max);
    }
  }

  /** Batches are disjoint, a processed event reached its queue, retryable events
      are below the maximum, and exactly the given-up ones are at it, each with
      exactly one dead-letter row: for every interleaving. */
  lemma EveryRunIsSafe(actions: seq<Action>, max: int)
    ensures var s := Run(Start(), actions, max);
            && Disjoint(s.open)
            && DeadExact(s.t.rows, s.t.dead, max)
            && forall id :: id in s.t.rows ==>
                 && (s.t.rows[id].status == Processed ==> id in s.t.queue)
                 && (s.t.rows[id].status != DeadLetter <==> s.t.rows[id].attempts < Limit(max))
                 && (s.t.rows[id].status == DeadLetter <==> s.t.rows[id].attempts == Limit(max))
  {
    hide Run, DeadExact;
    assert Inv(Start(), max) by { EmptyInv(max); }
    RunKeeps(Start(), actions, max);
    var s := Run(Start(), actions, max);
    forall id | id in s.t.rows ensures RowOk(s.t, id, max) {}
  }

  lemma EmptyInv(max: int)
    ensures Inv(Start(), max)
  {
  }

  /** An event's row changes only when a dispatcher that had it locked and retryable
      commits, and then moves on in one of the two ways; processed and given-up events
      never change again, and a new one is pending with no attempts, due at once. */
  lemma OnlyCommitsChange(s: State, a: Action, max: int, id: nat)
    requires Inv(s, max)
    ensures var u := Apply(s, a, max);
            && (id in s.t.rows ==>
                  id in u.t.rows && (u.t.rows[id] != s.t.rows[id] ==>
                    && a.Commit? && a.p in s.open && id in s.open[a.p].ids && s.t.rows[id].status in {Pending, Failed}
                    && Follows(s.t.rows[id], u.t.rows[id], max)))
            && (id !in s.t.rows && id in u.t.rows ==> a.Insert? && a.id == id && u.t.rows[id] == Row(Pending, 0, a.now))
  {
    hide DeadExact;
    if Enabled(s, a) && a.Commit? {
      var b := s.open[a.p];
      assert BatchOk(s.t, b, max) && b.ids[..b.done] == b.ids;
    }
  }

  // ----- one dispatcher on its own -----

  function Dispatches(p: nat, outcomes: seq<Outcome>, now: int): seq<Action> {
    if outcomes == [] then [] else [Dispatch(p, outcomes[0], now)] + Dispatches(p, outcomes[1..], now)
  }

  lemma {:induction false} RunAppend(s: State, a: seq<Action>, b: seq<Action>, max: int)
    ensures Run(s, a + b, max) == Run(Run(s, a, max), b, max)
    decreases |a|
  {
    hide Apply;
    if a == [] {
      assert a + b == b;
    } else {
      assert (a + b)[0] == a[0] && (a + b)[1..] == a[1..] + b;
      RunAppend(Apply(s, a[0], max), a[1..], b, max);
    }
  }

  lemma {:induction false} DispatchesAreProcessing(s: State, p: nat, outcomes: seq<Outcome>, max: int, now: int)
    requires p in s.open && s.open[p].done + |outcomes| <= |s.open[p].ids|
    requires forall i :: 0 <= i < |s.open[p].ids| ==> s.open[p].ids[i] in s.t.rows
    ensures var (b, q) := Processing(s.t, s.open[p], outcomes, max, now);
            Run(s, Dispatches(p, outcomes, now), max) == State(s.t.(queue := q), s.open[p := b])
    ensures Processing(s.t, s.open[p], outcomes, max, now).0.done == s.open[p].done + |outcomes|
    ensures Processing(s.t, s.open[p], outcomes, max, now).0.ids == s.open[p].ids
    decreases |outcomes|
  {
    hide Marked, Queued;
    if outcomes == [] {
      assert s.open[p := s.open[p]] == s.open;
    } else {
      var next := Apply(s, Dispatch(p, outcomes[0], now), max);
      DispatchesAreProcessing(next, p, outcomes[1..], max, now);
      var all := Dispatches(p, outcomes, now);
      assert all[0] == Dispatch(p, outcomes[0], now) && all[1..] == Dispatches(p, outcomes[1..], now);
      var b := Processing(next.t, next.open[p], outcomes[1..], max, now).0;
      assert next.open[p := b] == s.open[p := b];
    }
  }

  /** The protocol run of a single dispatcher from its begin to its commit is what
      the dispatching loop does to the tables. */
  lemma SoloRun(s: State, p: nat, ids: seq<nat>, outcomes: seq<Outcome>, max: int, now: int)
    requires Enabled(s, Begin(p, ids, now)) && |outcomes| == |ids|
    ensures var (b, q) := Processing(s.t, Opened(ids), outcomes, max, now);
            Run(s, [Begin(p, ids, now)] + Dispatches(p, outcomes, now) + [Commit(p)], max)
            == State(Committed(s.t, b).(queue := q), s.open)
    ensures var u := Run(s, [Begin(p, ids, now)] + Dispatches(p, outcomes, now) + [Commit(p)], max);
            BatchRecorded(s.t, u.t, ids, outcomes, max, now) && u.open == s.open
    ensures |ids| <= 25 && forall i :: 0 <= i < |ids| ==>
              var r := s.t.rows[ids[i]];
              r.status in {Pending, Failed} && r.availableAt <= now && forall q :: q in s.open ==> ids[i] !in s.open[q].ids
  {
    hide Processing, Dispatches, BatchRecorded;
    CommittedRecorded(s.t, ids, outcomes, max, now);
    var begun := Apply(s, Begin(p, ids, now), max);
    var steps := Dispatches(p, outcomes, now);
    DispatchesAreProcessing(begun, p, outcomes, max, now);
    RunAppend(s, [Begin(p, ids, now)], steps, max);
    RunAppend(s, [Begin(p, ids, now)] + steps, [Commit(p)], max);
    assert Run(s, [Begin(p, ids, now)], max) == begun by { assert Run(begun, [], max) == begun; }
    var worked := Run(begun, steps, max);
    assert Run(worked, [Commit(p)], max) == Apply(worked, Commit(p), max);
    assert worked.open - {p} == s.open;
  }
}

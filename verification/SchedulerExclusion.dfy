/** The 15-minute takeover rule: as long as no claim is older than that when
    another process claims, no schedule is worked on twice at the same time. */
module SchedulerExclusion {
  import opened Text
  import opened ScheduleClock
  import opened SchedulerProtocol

  /** The claims a process still has to finish, the current one first. */
  function Held(ph: Phase): seq<Claim> {
    match ph
    case Working(todo) => todo
    case Built(c, _, _, todo) => [c] + todo
    case Erred(c, _, todo) => [c] + todo
  }

  function HeldBy(s: State, p: nat): seq<Claim> {
    if p in s.runs then Held(s.runs[p]) else []
  }

  /** No claim still held is older than the takeover time. */
  ghost predicate Prompt(s: State, now: int) {
    forall p: nat, i: nat :: i < |HeldBy(s, p)| ==> now - HeldBy(s, p)[i].at <= TAKEOVER
  }

  /** At every claim of the run, earlier claims were still young. */
  ghost predicate PromptRun(s: State, actions: seq<Action>)
    decreases |actions|
  {
    actions != [] ==>
      && (actions[0].ClaimDue? ==> Prompt(s, actions[0].now))
      && PromptRun(Apply(s, actions[0]), actions[1..])
  }

  /** No schedule is held twice, neither by two processes nor by one. */
  ghost predicate Exclusive(s: State) {
    forall p: nat, i: nat, q: nat, j: nat ::
      i < |HeldBy(s, p)| && j < |HeldBy(s, q)| && HeldBy(s, p)[i].id == HeldBy(s, q)[j].id ==> p == q && i == j
  }

  predicate Marked(s: State, c: Claim) {
    c.id in s.db.rows && s.db.rows[c.id].last == InProgress && s.clock >= s.db.rows[c.id].updatedAt >= c.at
  }

  ghost predicate AllMarked(s: State) {
    forall p: nat, i: nat :: i < |HeldBy(s, p)| ==> Marked(s, HeldBy(s, p)[i])
  }

  predicate DistinctIds(cs: seq<Claim>) {
    forall i, j :: 0 <= i < j < |cs| ==> cs[i].id != cs[j].id
  }

  lemma DistinctCons(c: Claim, rest: seq<Claim>)
    requires DistinctIds(rest) && c.id !in Ids(rest)
    ensures DistinctIds([c] + rest)
  {
    forall j | 0 <= j < |rest| ensures rest[j].id != c.id { assert rest[j].id in Ids(rest); }
  }

  lemma {:induction false} ClaimsDistinct(rows: map<nat, Row>, due: seq<nat>, now: int)
    requires NoRepeats(due) && forall i :: 0 <= i < |due| ==> due[i] in rows
    ensures DistinctIds(Claims(rows, due, now))
    decreases |due|
  {
    hide DistinctIds, Ids;
    if due == [] {
      assert DistinctIds([]) by { NoneDistinct(); }
    } else {
      ClaimsDistinct(rows, due[1..], now);
      ClaimIds(rows, due[1..], now);
      var rest := Claims(rows, due[1..], now);
      assert due == [due[0]] + due[1..];
      assert due[0] !in due[1..];
      var r := rows[due[0]];
      if r.nextRun.Some? {
        DistinctCons(Claim(due[0], r.key, r.timing, r.nextRun.value, now), rest);
      } else {
        assert Claims(rows, due, now) == rest;
      }
    }
  }

  lemma NoneDistinct()
    ensures DistinctIds([])
  {
  }

  lemma ClaimExclusive(s: State, a: Action)
    requires Exclusive(s) && AllMarked(s) && Enabled(s, a) && a.ClaimDue? && Prompt(s, a.now)
    ensures Exclusive(Apply(s, a)) && AllMarked(Apply(s, a))
  {
    hide Claims, NextRun;
    var t := Apply(s, a);
    var cs := Claims(s.db.rows, a.due, a.now);
    ClaimsDistinct(s.db.rows, a.due, a.now);
    ClaimIds(s.db.rows, a.due, a.now);
    forall i: nat | i < |cs| ensures cs[i].id in a.due && Marked(t, cs[i]) {
      assert cs[i].id in Ids(cs);
    }
    forall q: nat, i: nat | q != a.p && i < |HeldBy(s, q)|
      ensures HeldBy(t, q) == HeldBy(s, q) && HeldBy(s, q)[i].id !in a.due && Marked(t, HeldBy(t, q)[i])
    {
      var c := HeldBy(s, q)[i];
      assert Marked(s, c);
      assert a.now - c.at <= TAKEOVER;
      NotPicked(s.db.rows, a.due, a.now, c.id);
    }
    forall q: nat | q != a.p ensures HeldBy(t, q) == HeldBy(s, q) {}
    assert HeldBy(t, a.p) == Claims(s.db.rows, a.due, a.now);
  }

  lemma NotPicked(rows: map<nat, Row>, due: seq<nat>, now: int, id: nat)
    requires Picked(rows, due, now) && id in rows && !Due(rows[id], now)
    ensures id !in due
  {
  }

  /** Dropping claims from the front of one process's list, at most the first
      claim's row having changed. */
  lemma DropExclusive(s: State, t: State, p: nat, dropped: nat)
    requires Exclusive(s) && AllMarked(s) && t.clock >= s.clock
    requires dropped <= |HeldBy(s, p)| && HeldBy(t, p) == HeldBy(s, p)[dropped..]
    requires forall q: nat :: q != p ==> HeldBy(t, q) == HeldBy(s, q)
    requires forall id :: id in s.db.rows && (dropped > 0 ==> id != HeldBy(s, p)[0].id) ==>
               id in t.db.rows && t.db.rows[id] == s.db.rows[id]
    ensures Exclusive(t) && AllMarked(t)
  {
    forall q: nat, i: nat | i < |HeldBy(t, q)| ensures Marked(t, HeldBy(t, q)[i]) {
      var k := if q == p then i + dropped else i;
      assert HeldBy(t, q)[i] == HeldBy(s, q)[k];
      assert Marked(s, HeldBy(s, q)[k]);
      assert dropped > 0 ==> HeldBy(s, q)[k].id != HeldBy(s, p)[0].id;
    }
    forall q: nat, i: nat, r: nat, j: nat
      | i < |HeldBy(t, q)| && j < |HeldBy(t, r)| && HeldBy(t, q)[i].id == HeldBy(t, r)[j].id
      ensures q == r && i == j
    {
      var k, l := if q == p then i + dropped else i, if r == p then j + dropped else j;
      assert HeldBy(t, q)[i] == HeldBy(s, q)[k] && HeldBy(t, r)[j] == HeldBy(s, r)[l];
    }
  }

  /** Building, failing, finishing or passing over a claim, dying, and edits. */
  lemma OthersExclusive(s: State, a: Action)
    requires Exclusive(s) && AllMarked(s) && Enabled(s, a) && !a.ClaimDue?
    ensures Exclusive(Apply(s, a)) && AllMarked(Apply(s, a))
  {
    hide NextRun, Advanced, EventKey, EventKeys, SetStatus, Picked, NoColon, Exclusive, AllMarked;
    var t := Apply(s, a);
    match a
    case BuildRun(p, now, recipients) => BuildExclusive(s, p, now, recipients);
    case Fail(p, _) => DropExclusive(s, t, p, 0);
    case Finalize(p, _) => DropExclusive(s, t, p, 1);
    case MarkFailed(p, _) => DropExclusive(s, t, p, 1);
    case Abandon(p) => DropExclusive(s, t, p, |HeldBy(s, p)|);
    case Edit(_, _, _) => EditExclusive(s, a);
  }

  lemma BuildExclusive(s: State, p: nat, now: int, recipients: seq<string>)
    requires Exclusive(s) && AllMarked(s) && Enabled(s, BuildRun(p, now, recipients))
    ensures var t := Apply(s, BuildRun(p, now, recipients)); Exclusive(t) && AllMarked(t)
  {
    hide Advanced, EventKey, EventKeys, NoColon, Exclusive, AllMarked, AddJobs;
    var c := s.runs[p].todo[0];
    var (db, event) := InsertEvent(s.db, c);
    if event.Some? { AddJobsFrame(db, event.value, EventKey(c.key, c.nextRun), recipients); }
    DropExclusive(s, Apply(s, BuildRun(p, now, recipients)), p, if event.None? then 1 else 0);
  }

  lemma EditExclusive(s: State, a: Action)
    requires Exclusive(s) && AllMarked(s) && Enabled(s, a) && a.Edit?
    ensures Exclusive(Apply(s, a)) && AllMarked(Apply(s, a))
  {
    var t := Apply(s, a);
    assert forall q: nat :: HeldBy(t, q) == HeldBy(s, q);
    forall q: nat, i: nat | i < |HeldBy(t, q)| ensures Marked(t, HeldBy(t, q)[i]) {
      assert Marked(s, HeldBy(s, q)[i]);
    }
  }

  lemma {:induction false} RunExclusive(s: State, actions: seq<Action>)
    requires Exclusive(s) && AllMarked(s) && PromptRun(s, actions)
    ensures Exclusive(Run(s, actions)) && AllMarked(Run(s, actions))
    decreases |actions|
  {
    hide Apply, Enabled, Exclusive, AllMarked, Prompt;
    if actions != [] {
      var a := actions[0];
      if Enabled(s, a) {
        if a.ClaimDue? { ClaimExclusive(s, a); } else { OthersExclusive(s, a); }
      } else {
        NotEnabled(s, a);
      }
      RunExclusive(Apply(s, a), actions[1..]);
    }
  }

  lemma NotEnabled(s: State, a: Action)
    requires !Enabled(s, a)
    ensures Apply(s, a) == s
  {
  }

  /** While claims are finished in time, every schedule has at most one process,
      and is marked as running for as long as that process holds it. */
  lemma PromptRunsExclude(rows: map<nat, Row>, clock: int, actions: seq<Action>)
    requires PromptRun(Start(rows, clock), actions)
    ensures Exclusive(Run(Start(rows, clock), actions)) && AllMarked(Run(Start(rows, clock), actions))
  {
    RunExclusive(Start(rows, clock), actions);
  }
}

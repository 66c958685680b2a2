/** The life of one notification job under any number of workers: claiming,
    sending, recording the outcome, retrying, and giving up. */
module NotificationJob {

  datatype JobStatus = Queued | Sending | Sent | Failed | Cancelled | DeadLetter

  datatype AttemptStatus = InFlight | Delivered | Errored

  datatype Attempt = Attempt(number: nat, status: AttemptStatus)

  /** The job row with its attempt rows, its dead-letter rows, and how many times
      the mail provider was called for it. */
  datatype Job = Job(status: JobStatus, count: nat, max: nat, attempts: seq<Attempt>, deadRows: seq<nat>, sends: nat)

  const QUEUE_TRIES := 5

  predicate Claimable(j: Job) {
    j.status == Queued || j.status == Failed
  }

  // ----- the statements -----

  function Cancel(j: Job): Job {
    j.(status := Cancelled)
  }

  function Claim(j: Job): Job {
    j.(status := Sending, count := j.count + 1, attempts := j.attempts + [Attempt(j.count + 1, InFlight)])
  }

  function Called(j: Job): Job {
    j.(sends := j.sends + 1)
  }

  function MarkAttempt(j: Job, number: nat, status: AttemptStatus): Job {
    if 1 <= number <= |j.attempts| then
      j.(attempts := j.attempts[number - 1 := j.attempts[number - 1].(status := status)])
    else j
  }

  function MarkSent(j: Job): Job {
    j.(status := Sent)
  }

  function MarkFailed(j: Job, number: nat, max: nat): Job {
    j.(status := if number >= max then DeadLetter else Failed)
  }

  function Bury(j: Job, number: nat): Job {
    j.(deadRows := j.deadRows + [number])
  }

  /** Where a delivery can go wrong, in the order of its steps. */
  datatype Outcome = RuleOff | BeforeSend | DuringSend | RecordingAttempt | RecordingJob | AfterRecording | Success

  function Sends(j: Job, outcome: Outcome): Job {
    if outcome == BeforeSend then j else Called(j)
  }

  /** All that happens between the claim and the failure handler, or the end. */
  function Worked(j: Job, number: nat, outcome: Outcome): Job {
    var sent := Sends(j, outcome);
    if outcome == BeforeSend || outcome == DuringSend || outcome == RecordingAttempt then sent
    else
      var recorded := MarkAttempt(sent, number, Delivered);
      if outcome == RecordingJob then recorded else MarkSent(recorded)
  }

  /** How far the failure handler gets before one of its own statements throws; an
      audit row that cannot be written comes after all of them. */
  datatype Handler = Completes | AttemptUpdateThrows | JobUpdateThrows | DeadInsertThrows

  /** What befalls one delivery. */
  datatype Try = Try(outcome: Outcome, handler: Handler)

  function HandleFailure(j: Job, number: nat, max: nat, h: Handler): Job {
    if h == AttemptUpdateThrows then j
    else
      var marked := MarkAttempt(j, number, Errored);
      if h == JobUpdateThrows then marked
      else
        var failed := MarkFailed(marked, number, max);
        if number >= max && h != DeadInsertThrows then Bury(failed, number) else failed
  }

  /** One delivery by a worker that does not die, and whether it threw. */
  function Delivery(j: Job, t: Try): (Job, bool) {
    if !Claimable(j) then (j, false)
    else if t.outcome == RuleOff then (Cancel(j), false)
    else
      var worked := Worked(Claim(j), j.count + 1, t.outcome);
      if t.outcome == Success then (worked, false) else (HandleFailure(worked, j.count + 1, j.max, t.handler), true)
  }

  /** The number of the attempt a delivery makes, and what it leaves of it. */
  predicate AttemptMade(before: Job, after: Job, status: AttemptStatus) {
    && after.count == before.count + 1
    && after.attempts == before.attempts + [Attempt(before.count + 1, status)]
  }

  /** What one delivery leaves in the job's rows. A job that is not waiting is left
      alone; one whose rule is off is cancelled and nothing else; one delivered to the
      end is sent, with one more provider call and its attempt delivered. After a
      failure the handler, if it gets that far, marks the attempt and gives the job
      up exactly at its last attempt, with a dead-letter row unless that insert throws. */
  predicate DeliverySays(before: Job, after: Job, t: Try, threw: bool) {
    var waiting := before.status == Queued || before.status == Failed;
    var lastTry := before.count + 1 >= before.max;
    && after.max == before.max
    && (threw <==> waiting && t.outcome != RuleOff && t.outcome != Success)
    && (!waiting ==> after == before)
    && (waiting && t.outcome == RuleOff ==> after == before.(status := Cancelled))
    && (waiting && t.outcome == Success ==>
          && after.status == Sent && AttemptMade(before, after, Delivered)
          && after.sends == before.sends + 1 && after.deadRows == before.deadRows)
    && (threw ==>
          && after.sends == before.sends + (if t.outcome == BeforeSend then 0 else 1)
          && AttemptMade(before, after,
               if t.handler != AttemptUpdateThrows then Errored
               else if t.outcome in {RecordingJob, AfterRecording} then Delivered else InFlight)
          && after.status == (if t.handler in {AttemptUpdateThrows, JobUpdateThrows} then
                                if t.outcome == AfterRecording then Sent else Sending
                              else if lastTry then DeadLetter else Failed)
          && after.deadRows == before.deadRows + (if t.handler == Completes && lastTry then [before.count + 1] else []))
  }

  lemma DeliveryExact(j: Job, t: Try)
    requires |j.attempts| == j.count
    ensures DeliverySays(j, Delivery(j, t).0, t, Delivery(j, t).1)
  {
  }

  /** The queue's tries: delivered again for as long as it throws. */
  function Tries(j: Job, tries: seq<Try>): Job
    decreases |tries|
  {
    if tries == [] then j
    else
      var (after, threw) := Delivery(j, tries[0]);
      if threw then Tries(after, tries[1..]) else after
  }

  /** The job's rows, changed statement by statement. */
  class Worker {
    var status: JobStatus
    var count: nat
    const max: nat
    var attempts: seq<Attempt>
    var deadRows: seq<nat>
    var sends: nat

    function View(): Job reads this {
      Job(status, count, max, attempts, deadRows, sends)
    }

    constructor (max: nat)
      ensures View() == Fresh(max)
    {
      this.max := max;
      status, count, attempts, deadRows, sends := Queued, 0, [], [], 0;
    }

    method ProcessNotificationJob(t: Try) returns (threw: bool)
      modifies this
      ensures (View(), threw) == Delivery(old(View()), t)
      ensures |old(attempts)| == old(count) ==> DeliverySays(old(View()), View(), t, threw)
    {
      hide MarkAttempt, HandleFailure, DeliverySays;
      if |attempts| == count { DeliveryExact(View(), t); }
      var outcome := t.outcome;
      threw := false;
      if status != Queued && status != Failed { return; }
      if outcome == RuleOff {
        status := Cancelled;
        return;
      }
      var attemptNumber := count + 1;
      var maxAttempts := max;
      attempts := attempts + [Attempt(attemptNumber, InFlight)];
      status, count := Sending, attemptNumber;

      threw := outcome != Success;
      if outcome != BeforeSend {
        sends := sends + 1;
        if outcome != DuringSend && outcome != RecordingAttempt {
          MarkAttemptRow(attemptNumber, Delivered);
          if outcome != RecordingJob { status := Sent; }
        }
      }
      if threw { HandleNotificationDeliveryFailure(attemptNumber, maxAttempts, t.handler); }
    }

    method MarkAttemptRow(number: nat, result: AttemptStatus)
      modifies this`attempts
      ensures View() == MarkAttempt(old(View()), number, result)
    {
      if 1 <= number <= |attempts| {
        attempts := attempts[number - 1 := attempts[number - 1].(status := result)];
      }
    }

    method HandleNotificationDeliveryFailure(attemptNumber: nat, maxAttempts: nat, h: Handler)
      modifies this`attempts, this`status, this`deadRows
      ensures View() == HandleFailure(old(View()), attemptNumber, maxAttempts, h)
      ensures status == (if h in {AttemptUpdateThrows, JobUpdateThrows} then old(status)
                         else if attemptNumber >= maxAttempts then DeadLetter else Failed)
      ensures deadRows == old(deadRows) + (if h == Completes && attemptNumber >= maxAttempts then [attemptNumber] else [])
      ensures 1 <= attemptNumber <= |old(attempts)| && h != AttemptUpdateThrows ==>
                attempts == old(attempts)[attemptNumber - 1 := old(attempts)[attemptNumber - 1].(status := Errored)]
      ensures h == AttemptUpdateThrows ==> attempts == old(attempts)
    {
      var exhausted := attemptNumber >= maxAttempts;
      if h == AttemptUpdateThrows { return; }
      MarkAttemptRow(attemptNumber, Errored);
      if h == JobUpdateThrows { return; }
      status := if exhausted then DeadLetter else Failed;
      if exhausted && h != DeadInsertThrows { deadRows := deadRows + [attemptNumber]; }
    }
  }

  function Fresh(max: nat): Job {
    Job(Queued, 0, max, [], [], 0)
  }

  // ----- any number of workers -----

  /** How far a worker past its claim has come; the number is its attempt's. */
  datatype Phase =
    | Claimed(number: nat)
    | Accepted(number: nat)
    | Recorded(number: nat)
    | Completed(number: nat)
    | Failing(number: nat)
    | FailRecorded(number: nat)
    | Burying(number: nat)

  datatype State = State(job: Job, workers: map<nat, Phase>, lost: bool)

  datatype Action =
    | ClaimJob(p: nat, ruleOn: bool)
    | CallProvider(p: nat, ok: bool)
    | RecordAttempt(p: nat)
    | RecordJob(p: nat)
    | Finish(p: nat)
    | Stumble(p: nat)
    | FailAttempt(p: nat)
    | FailJob(p: nat)
    | BuryJob(p: nat)
    | Die(p: nat)

  predicate Enabled(s: State, a: Action) {
    match a
    case ClaimJob(p, _) => p !in s.workers && Claimable(s.job)
    case CallProvider(p, _) => p in s.workers && s.workers[p].Claimed?
    case RecordAttempt(p) => p in s.workers && s.workers[p].Accepted?
    case RecordJob(p) => p in s.workers && s.workers[p].Recorded?
    case Finish(p) => p in s.workers && s.workers[p].Completed?
    case Stumble(p) =>
      p in s.workers && (s.workers[p].Claimed? || s.workers[p].Accepted? || s.workers[p].Recorded? || s.workers[p].Completed?)
    case FailAttempt(p) => p in s.workers && s.workers[p].Failing?
    case FailJob(p) => p in s.workers && s.workers[p].FailRecorded?
    case BuryJob(p) => p in s.workers && s.workers[p].Burying?
    case Die(p) => p in s.workers
  }

  /** One committed statement or transaction, one failure, or one death. */
  function Apply(s: State, a: Action): State {
    if !Enabled(s, a) then s else
    match a
    case ClaimJob(p, ruleOn) =>
      if ruleOn then s.(job := Claim(s.job), workers := s.workers[p := Claimed(s.job.count + 1)])
      else s.(job := Cancel(s.job))
    case CallProvider(p, ok) =>
      var n := s.workers[p].number;
      s.(job := Called(s.job), workers := s.workers[p := if ok then Accepted(n) else Failing(n)])
    case RecordAttempt(p) =>
      var n := s.workers[p].number;
      s.(job := MarkAttempt(s.job, n, Delivered), workers := s.workers[p := Recorded(n)])
    case RecordJob(p) => s.(job := MarkSent(s.job), workers := s.workers[p := Completed(s.workers[p].number)])
    case Finish(p) => s.(workers := s.workers - {p})
    case Stumble(p) => s.(workers := s.workers[p := Failing(s.workers[p].number)])
    case FailAttempt(p) =>
      var n := s.workers[p].number;
      s.(job := MarkAttempt(s.job, n, Errored), workers := s.workers[p := FailRecorded(n)])
    case FailJob(p) =>
      var n := s.workers[p].number;
      s.(job := MarkFailed(s.job, n, s.job.max),
         workers := if n >= s.job.max then s.workers[p := Burying(n)] else s.workers - {p})
    case BuryJob(p) => s.(job := Bury(s.job, s.workers[p].number), workers := s.workers - {p})
    case Die(p) => State(s.job, s.workers - {p}, s.lost || s.workers[p].Burying?)
  }

  function Run(s: State, actions: seq<Action>): State
    decreases |actions|
  {
    if actions == [] then s else Run(Apply(s, actions[0]), actions[1..])
  }

  function Start(max: nat): State {
    State(Fresh(max), map[], false)
  }

  // ----- the invariant -----

  predicate Numbered(attempts: seq<Attempt>) {
    forall i :: 0 <= i < |attempts| ==> attempts[i].number == i + 1
  }

  /** The outcome of the latest attempt, in flight when there is none. */
  function LastAttempt(j: Job): AttemptStatus {
    if j.attempts == [] then InFlight else j.attempts[|j.attempts| - 1].status
  }

  /** A job recorded as sent had the provider called for it, and its latest attempt
      delivered, or marked failed by a handler that ran after the recording. */
  predicate SentOk(j: Job) {
    j.status == Sent ==> j.count >= 1 && j.sends >= 1 && LastAttempt(j) != InFlight
  }

  /** What a worker's phase says about the job. */
  predicate PhaseOk(j: Job, ph: Phase) {
    && ph.number == j.count >= 1
    && match ph
       case Claimed(_) => j.status == Sending && j.sends < j.count
       case Accepted(_) => j.status == Sending && j.sends >= 1
       case Recorded(_) => j.status == Sending && j.sends >= 1 && LastAttempt(j) == Delivered
       case Completed(_) => j.status == Sent
       case Failing(_) => j.status == Sending || j.status == Sent
       case FailRecorded(_) => j.status == Sending || j.status == Sent
       case Burying(_) => j.status == DeadLetter && j.deadRows == []
  }

  predicate Inv(s: State) {
    var j := s.job;
    && |j.attempts| == j.count <= j.max && Numbered(j.attempts) && j.sends <= j.count
    && (Claimable(j) ==> j.count < j.max)
    && (j.status == DeadLetter ==> j.count == j.max)
    && |j.deadRows| <= 1 && (j.deadRows != [] ==> j.deadRows == [j.max] && !s.lost)
    && (j.status == DeadLetter <==> j.deadRows != [] || s.lost || exists p :: p in s.workers && s.workers[p].Burying?)
    && SentOk(j)
    && (s.lost ==> s.workers == map[])
    && (forall p, q :: p in s.workers && q in s.workers ==> p == q)
    && (forall p :: p in s.workers ==> PhaseOk(j, s.workers[p]))
  }

  lemma ApplyKeeps(s: State, a: Action)
    requires Inv(s)
    ensures Inv(Apply(s, a)) && Apply(s, a).job.max == s.job.max
  {
    if a.ClaimJob? || a.FailJob? || a.BuryJob? || a.Die? {
      BoundaryKeeps(s, a);
    } else {
      MiddleKeeps(s, a);
    }
  }

  lemma BoundaryKeeps(s: State, a: Action)
    requires Inv(s) && (a.ClaimJob? || a.FailJob? || a.BuryJob? || a.Die?)
    ensures Inv(Apply(s, a)) && Apply(s, a).job.max == s.job.max
  {
    if Enabled(s, a) {
      var t := Apply(s, a);
      if a.Die? {
        assert t.workers == map[];
      } else if a.FailJob? && s.workers[a.p].number >= s.job.max {
        assert t.workers[a.p].Burying?;
      }
    }
  }

  lemma MiddleKeeps(s: State, a: Action)
    requires Inv(s) && !(a.ClaimJob? || a.FailJob? || a.BuryJob? || a.Die?)
    ensures Inv(Apply(s, a)) && Apply(s, a).job.max == s.job.max
  {
  }

  lemma {:induction false} RunKeeps(s: State, actions: seq<Action>)
    requires Inv(s)
    ensures Inv(Run(s, actions)) && Run(s, actions).job.max == s.job.max
    decreases |actions|
  {
    hide Inv, Apply;
    if actions != [] {
      ApplyKeeps(s, actions[0]);
      RunKeeps(Apply(s, actions[0]), actions[1..]);
    }
  }

  /** Every interleaving: at most one worker is past the claim; attempts are
      numbered from one without gaps; the provider is called at most once for
      each attempt and at most the maximum number of times; a failed job has
      attempts left and a given-up one has none; and a given-up job has exactly
      one dead-letter row unless a worker is about to write it or died there. */
  lemma EveryRunIsSafe(max: nat, actions: seq<Action>)
    requires max > 0
    ensures var s := Run(Start(max), actions); var j := s.job;
            && (forall p, q :: p in s.workers && q in s.workers ==> p == q)
            && |j.attempts| == j.count && Numbered(j.attempts)
            && j.sends <= j.count <= j.max == max
            && (Claimable(j) ==> j.count < j.max && s.workers == map[])
            && (j.status == DeadLetter ==> j.count == max)
            && (s.workers == map[] && !s.lost ==> (j.status == DeadLetter <==> |j.deadRows| == 1))
            && (j.status != DeadLetter ==> j.deadRows == [])
            && (j.status == Sent ==> j.count >= 1 && j.sends >= 1 && j.attempts[j.count - 1].status in {Delivered, Errored})
  {
    RunKeeps(Start(max), actions);
    var s := Run(Start(max), actions);
    assert Claimable(s.job) ==> s.workers.Keys == {};
  }

  /** A job becomes cancelled only by a claim that finds its rule off, and that claim
      changes nothing else; it becomes sent only when a worker records the attempt
      it delivered, and given up only with its last attempt. */
  lemma StatusMoves(s: State, a: Action)
    requires Inv(s)
    ensures var j, u := s.job, Apply(s, a).job;
            && (u.status == Cancelled && j.status != Cancelled <==>
                  a.ClaimJob? && !a.ruleOn && a.p !in s.workers && (j.status == Queued || j.status == Failed))
            && (u.status == Cancelled && j.status != Cancelled ==> u == j.(status := Cancelled) && Apply(s, a).workers == s.workers)
            && (u.status == Sent && j.status != Sent ==> a.RecordJob? && LastAttempt(j) == Delivered && u == j.(status := Sent))
            && (u.status in {DeadLetter, Failed} && j.status != u.status ==>
                  a.FailJob? && u == j.(status := if j.count >= j.max then DeadLetter else Failed))
            && (u.status == Sending && j.status != Sending ==>
                  a.ClaimJob? && u.count == j.count + 1 && u.attempts == j.attempts + [Attempt(u.count, InFlight)] && u.sends == j.sends)
            && (u.sends != j.sends ==> a.CallProvider? && u == j.(sends := j.sends + 1))
  {
  }

  /** A worker that dies between giving up and writing the dead-letter row leaves
      a dead job without one: no later action can add it. */
  lemma {:induction false} LostForever(s: State, actions: seq<Action>)
    requires Inv(s) && s.lost
    ensures Run(s, actions) == s && s.job.status == DeadLetter && s.job.deadRows == []
    decreases |actions|
  {
    if actions != [] {
      assert !Enabled(s, actions[0]);
      LostForever(s, actions[1..]);
    }
  }

  // ----- the bound on sending is reached -----

  /** One delivery whose mail goes out but whose last recording fails. */
  function ResendCycle(): seq<Action> {
    [ClaimJob(0, true), CallProvider(0, true), RecordAttempt(0), RecordJob(0), Stumble(0), FailAttempt(0), FailJob(0)]
  }

  function Cycles(k: nat): seq<Action> {
    if k == 0 then [] else Cycles(k - 1) + ResendCycle()
  }

  lemma {:induction false} RunAppend(s: State, a: seq<Action>, b: seq<Action>)
    ensures Run(s, a + b) == Run(Run(s, a), b)
    decreases |a|
  {
    hide Apply;
    if a == [] {
      assert a + b == b;
    } else {
      assert (a + b)[0] == a[0] && (a + b)[1..] == a[1..] + b;
      RunAppend(Apply(s, a[0]), a[1..], b);
    }
  }

  lemma CycleSends(j: Job, lost: bool)
    requires Claimable(j) && j.count + 1 < j.max
    ensures var s := Run(State(j, map[], lost), ResendCycle());
            Claimable(s.job) && s.workers == map[] && s.job.count == j.count + 1 && s.job.sends == j.sends + 1
            && s.job.max == j.max && s.lost == lost
  {
    hide Run;
    var t := Try(AfterRecording, Completes);
    assert ResendCycle() == Script(j, t);
    DeliveryIsRun(j, t, lost);
  }

  lemma {:induction false} CyclesSend(max: nat, k: nat)
    requires k < max
    ensures var s := Run(Start(max), Cycles(k));
            Claimable(s.job) && s.workers == map[] && s.job.count == s.job.sends == k && s.job.max == max
  {
    hide ResendCycle;
    if k > 0 {
      CyclesSend(max, k - 1);
      var s := Run(Start(max), Cycles(k - 1));
      RunAppend(Start(max), Cycles(k - 1), ResendCycle());
      CycleSends(s.job, s.lost);
      assert s == State(s.job, map[], s.lost);
    }
  }

  /** A mail may go out again after it was sent, when recording it fails: exactly
      the counts up to the maximum number of attempts can happen. */
  lemma SendsUpToMax(max: nat, k: nat)
    requires max > 0
    ensures (exists actions :: Run(Start(max), actions).job.sends == k) <==> k <= max
  {
    hide Run, Cycles, Inv, Start;
    if k <= max {
      SendsReach(max, k);
    }
    forall actions ensures Run(Start(max), actions).job.sends <= max { EveryRunIsSafe(max, actions); }
  }

  lemma SendsReach(max: nat, k: nat)
    requires 0 < max && k <= max
    ensures exists actions :: Run(Start(max), actions).job.sends == k
  {
    hide Cycles, Inv;
    if k == 0 {
      assert Run(Start(max), []).job.sends == 0;
    } else {
      CyclesSend(max, k - 1);
      var s := Run(Start(max), Cycles(k - 1));
      var last := [ClaimJob(0, true), CallProvider(0, true)];
      RunAppend(Start(max), Cycles(k - 1), last);
      assert last[1..] == [last[1]];
      assert Run(s, last) == Apply(Apply(s, last[0]), last[1]);
      assert Run(Start(max), Cycles(k - 1) + last).job.sends == k;
    }
  }

  // ----- one worker on its own -----

  /** The steps of an undisturbed worker between its claim and its handler. */
  function WorkSteps(outcome: Outcome): seq<Action> {
    match outcome
    case RuleOff => []
    case BeforeSend => [Stumble(0)]
    case DuringSend => [CallProvider(0, false)]
    case RecordingAttempt => [CallProvider(0, true), Stumble(0)]
    case RecordingJob => [CallProvider(0, true), RecordAttempt(0), Stumble(0)]
    case AfterRecording => [CallProvider(0, true), RecordAttempt(0), RecordJob(0), Stumble(0)]
    case Success => [CallProvider(0, true), RecordAttempt(0), RecordJob(0), Finish(0)]
  }

  /** A handler whose statement throws ends there, as if its worker had died. */
  function HandlerSteps(exhausted: bool, h: Handler): seq<Action> {
    match h
    case AttemptUpdateThrows => [Die(0)]
    case JobUpdateThrows => [FailAttempt(0), Die(0)]
    case DeadInsertThrows => if exhausted then [FailAttempt(0), FailJob(0), Die(0)] else [FailAttempt(0), FailJob(0)]
    case Completes => if exhausted then [FailAttempt(0), FailJob(0), BuryJob(0)] else [FailAttempt(0), FailJob(0)]
  }

  function Script(j: Job, t: Try): seq<Action> {
    if t.outcome == RuleOff then [ClaimJob(0, false)]
    else
      [ClaimJob(0, true)]
      + (WorkSteps(t.outcome) + if t.outcome == Success then [] else HandlerSteps(j.count + 1 >= j.max, t.handler))
  }

  /** The delivery throws while its job's last attempt is being given up, so the
      dead-letter row is never written. */
  predicate Unburied(j: Job, t: Try) {
    t.outcome != RuleOff && t.outcome != Success && t.handler == DeadInsertThrows && j.count + 1 >= j.max
  }

  lemma RunCons(s: State, a: Action, rest: seq<Action>)
    ensures Run(s, [a] + rest) == Run(Apply(s, a), rest)
  {
    assert ([a] + rest)[1..] == rest;
  }

  lemma {:induction false} RunThrough(s: State, steps: seq<Action>, k: nat)
    requires k < |steps|
    ensures Run(s, steps[k..]) == Run(Apply(s, steps[k]), steps[k + 1..])
  {
    assert steps[k..] == [steps[k]] + steps[k + 1..];
    RunCons(s, steps[k], steps[k + 1..]);
  }

  lemma WorkIsRun(j: Job, n: nat, outcome: Outcome, lost: bool)
    requires outcome != RuleOff
    ensures Run(State(j, map[0 := Claimed(n)], lost), WorkSteps(outcome)) ==
            State(Worked(j, n, outcome), if outcome == Success then map[] else map[0 := Failing(n)], lost)
  {
    hide Run, MarkAttempt;
    var steps := WorkSteps(outcome);
    var s := State(j, map[0 := Claimed(n)], lost);
    assert steps[0..] == steps && steps[|steps|..] == [];
    RunThrough(s, steps, 0);
    var s1 := Apply(s, steps[0]);
    if |steps| > 1 {
      RunThrough(s1, steps, 1);
      var s2 := Apply(s1, steps[1]);
      if |steps| > 2 {
        RunThrough(s2, steps, 2);
        var s3 := Apply(s2, steps[2]);
        if |steps| > 3 {
          RunThrough(s3, steps, 3);
          RunNothing(Apply(s3, steps[3]));
        } else {
          RunNothing(s3);
        }
      } else {
        RunNothing(s2);
      }
    } else {
      RunNothing(s1);
    }
  }

  lemma RunNothing(s: State)
    ensures Run(s, []) == s
  {
  }

  lemma MarkKeepsMax(j: Job, n: nat, status: AttemptStatus)
    ensures MarkAttempt(j, n, status).max == j.max
  {
  }

  lemma RunOne(s: State, a: Action)
    ensures Run(s, [a]) == Apply(s, a)
  {
    hide Apply;
    assert [a][1..] == [];
    RunNothing(Apply(s, a));
  }

  /** Two or three steps, run in order. */
  lemma FewSteps(s: State, a: Action, b: Action, c: Action)
    ensures Run(s, [a, b]) == Apply(Apply(s, a), b)
    ensures Run(s, [a, b, c]) == Apply(Apply(Apply(s, a), b), c)
  {
    hide Apply, Run;
    var s1, s2 := Apply(s, a), Apply(Apply(s, a), b);
    assert [a, b] == [a] + [b] && [a, b, c] == [a] + ([b] + [c]);
    RunCons(s, a, [b]);
    RunCons(s, a, [b] + [c]);
    RunCons(s1, b, [c]);
    RunOne(s1, b);
    RunOne(s2, c);
  }

  lemma StepFailAttempt(j: Job, n: nat, lost: bool)
    ensures Apply(State(j, map[0 := Failing(n)], lost), FailAttempt(0)) ==
            State(MarkAttempt(j, n, Errored), map[0 := FailRecorded(n)], lost)
  {
    hide MarkAttempt;
    assert map[0 := Failing(n)][0 := FailRecorded(n)] == map[0 := FailRecorded(n)];
  }

  lemma StepFailJob(j: Job, n: nat, lost: bool)
    ensures Apply(State(j, map[0 := FailRecorded(n)], lost), FailJob(0)) ==
            State(MarkFailed(j, n, j.max), if n >= j.max then map[0 := Burying(n)] else map[], lost)
  {
    assert map[0 := FailRecorded(n)][0 := Burying(n)] == map[0 := Burying(n)];
    assert map[0 := FailRecorded(n)] - {0} == map[];
  }

  lemma StepBury(j: Job, n: nat, lost: bool)
    ensures Apply(State(j, map[0 := Burying(n)], lost), BuryJob(0)) == State(Bury(j, n), map[], lost)
  {
    assert map[0 := Burying(n)] - {0} == map[];
  }

  lemma StepDie(j: Job, ph: Phase, lost: bool)
    ensures Apply(State(j, map[0 := ph], lost), Die(0)) == State(j, map[], lost || ph.Burying?)
  {
    assert map[0 := ph] - {0} == map[];
  }

  lemma HandlerIsRun(j: Job, n: nat, h: Handler, lost: bool)
    ensures Run(State(j, map[0 := Failing(n)], lost), HandlerSteps(n >= j.max, h)) ==
            State(HandleFailure(j, n, j.max, h), map[], lost || (n >= j.max && h == DeadInsertThrows))
  {
    hide Run, MarkAttempt, Apply;
    var s := State(j, map[0 := Failing(n)], lost);
    var marked := MarkAttempt(j, n, Errored);
    var failed := MarkFailed(marked, n, j.max);
    MarkKeepsMax(j, n, Errored);
    StepFailAttempt(j, n, lost);
    StepFailJob(marked, n, lost);
    match h
    case AttemptUpdateThrows =>
      RunOne(s, Die(0));
      StepDie(j, Failing(n), lost);
    case JobUpdateThrows =>
      FewSteps(s, FailAttempt(0), Die(0), Die(0));
      StepDie(marked, FailRecorded(n), lost);
    case DeadInsertThrows =>
      FewSteps(s, FailAttempt(0), FailJob(0), Die(0));
      StepDie(failed, Burying(n), lost);
    case Completes =>
      FewSteps(s, FailAttempt(0), FailJob(0), BuryJob(0));
      StepBury(failed, n, lost);
  }

  /** What the worker's method does to the rows is the protocol run of one worker,
      a throwing handler counting as its death. */
  lemma DeliveryIsRun(j: Job, t: Try, lost: bool)
    requires Claimable(j)
    ensures Run(State(j, map[], lost), Script(j, t)) == State(Delivery(j, t).0, map[], lost || Unburied(j, t))
  {
    hide Run, WorkSteps, HandlerSteps, Worked, HandleFailure;
    var s := State(j, map[], lost);
    var first := ClaimJob(0, t.outcome != RuleOff);
    var claimed := Apply(s, first);
    if t.outcome == RuleOff {
      RunCons(s, first, []);
      RunNothing(claimed);
      assert [first] + [] == [first];
    } else {
      var tail := if t.outcome == Success then [] else HandlerSteps(j.count + 1 >= j.max, t.handler);
      RunCons(s, first, WorkSteps(t.outcome) + tail);
      WorkIsRun(Claim(j), j.count + 1, t.outcome, lost);
      RunAppend(claimed, WorkSteps(t.outcome), tail);
      assert claimed.workers == map[0 := Claimed(j.count + 1)];
      var worked := Run(claimed, WorkSteps(t.outcome));
      if t.outcome == Success {
        RunNothing(worked);
      } else {
        WorkedKeepsMax(Claim(j), j.count + 1, t.outcome);
        HandlerIsRun(worked.job, j.count + 1, t.handler, lost);
      }
    }
  }

  lemma WorkedKeepsMax(j: Job, n: nat, outcome: Outcome)
    ensures Worked(j, n, outcome).max == j.max
  {
  }

  // ----- a claim transaction that fails -----

  /** A claim transaction that fails runs the failure handler although nothing was
      claimed: attempt number 0 and maximum 5 when the job was not read, the next
      number and the job's maximum when it was. The attempt row was rolled back,
      and the update of the job has no status guard. */
  function FailedClaim(s: State, number: nat, max: nat): State {
    var failed := MarkFailed(s.job, number, max);
    s.(job := if number >= max then Bury(failed, number) else failed)
  }

  /** Such a claim keeps the invariant exactly when no worker is past its claim,
      the job is not given up, and the job's own count agrees with the verdict. */
  lemma FailedClaimExact(s: State, seen: bool, count: nat)
    requires Inv(s) && s.job.max > 0 && (seen ==> count < s.job.max)
    ensures var number, max := if seen then count + 1 else 0, if seen then s.job.max else 5;
            Inv(FailedClaim(s, number, max)) <==>
              && s.workers == map[] && s.job.status != DeadLetter
              && (number < max <==> s.job.count < s.job.max)
  {
    var number, max := if seen then count + 1 else 0, if seen then s.job.max else 5;
    var t := FailedClaim(s, number, max);
    assert s.workers == map[] <==> forall p :: p !in s.workers;
  }

  /** Two workers past the claim, once a failing claim has reset a job in flight. */
  lemma FailedClaimLetsTwoIn(max: nat)
    requires max >= 2
    ensures var s := Run(Start(max), [ClaimJob(0, true)]);
            var t := Run(FailedClaim(s, 0, 5), [ClaimJob(1, true)]);
            0 in t.workers && 1 in t.workers && t.workers[0].Claimed? && t.workers[1].Claimed?
  {
    var s := Apply(Start(max), ClaimJob(0, true));
    assert Run(Start(max), [ClaimJob(0, true)]) == s by { assert Run(s, []) == s; }
    var u := FailedClaim(s, 0, 5);
    RunOne(u, ClaimJob(1, true));
  }

  // ----- the queue's tries settle the job -----

  predicate Settled(j: Job) {
    j.status == Sent || j.status == DeadLetter || j.status == Cancelled
  }

  predicate Waiting(j: Job) {
    Claimable(j) && j.count < j.max && |j.attempts| == j.count
  }

  predicate Throws(t: Try) {
    t.outcome != RuleOff && t.outcome != Success
  }

  /** The failure update of the job is reached. */
  predicate Updates(t: Try) {
    t.handler == Completes || t.handler == DeadInsertThrows
  }

  /** The mail was not recorded as sent and the failure update throws as well: the
      job stays in flight with nobody working on it. */
  predicate Freezes(t: Try) {
    Throws(t) && !Updates(t) && t.outcome != AfterRecording
  }

  predicate Retries(t: Try) {
    Throws(t) && Updates(t)
  }

  /** One of the first n tries freezes the job, and all before it hand it back. */
  predicate Frozen(tries: seq<Try>, n: nat)
    requires n <= |tries|
  {
    exists i :: 0 <= i < n && Freezes(tries[i]) && forall k :: 0 <= k < i ==> Retries(tries[k])
  }

  /** A try that hands the job back has used up one attempt, the one that uses the
      last gives up, and any other try but a freezing one settles the job. */
  lemma DeliveryMeasure(j: Job, t: Try)
    requires Waiting(j)
    ensures var (after, threw) := Delivery(j, t);
            && (threw <==> Throws(t))
            && (Retries(t) ==> after.count == j.count + 1 && after.max == j.max
                               && if after.count < j.max then Waiting(after) else Settled(after))
            && (Freezes(t) ==> after.status == Sending)
            && (!Retries(t) && !Freezes(t) ==> Settled(after))
            && (t.outcome == RuleOff ==> after == j.(status := Cancelled))
            && (t.outcome == Success ==> after.status == Sent && after.sends == j.sends + 1 && LastAttempt(after) == Delivered)
  {
  }

  /** As many tries as attempts remain settle the job, exactly when no freezing try
      comes up; a frozen job stays in flight for good. */
  lemma {:induction false} TriesSettle(j: Job, tries: seq<Try>)
    requires Waiting(j) && |tries| >= j.max - j.count
    ensures Settled(Tries(j, tries)) <==> !Frozen(tries, j.max - j.count)
    ensures Frozen(tries, j.max - j.count) ==> Tries(j, tries).status == Sending
    decreases |tries|
  {
    hide Delivery, Retries, Freezes;
    var t, rest, n := tries[0], tries[1..], j.max - j.count;
    DeliveryMeasure(j, t);
    var (after, threw) := Delivery(j, t);
    RetryKind(t);
    if Retries(t) {
      FrozenLater(tries, n);
      if after.count < j.max { TriesSettle(after, rest); } else { SettledStays(after, rest); }
    } else if Freezes(t) {
      NotClaimableStays(after, rest);
      assert Freezes(tries[0]);
    } else {
      SettledStays(after, rest);
      forall i | 0 <= i < n && Freezes(tries[i]) ensures exists k :: 0 <= k < i && !Retries(tries[k]) {
        assert !Retries(tries[0]);
      }
    }
  }

  lemma RetryKind(t: Try)
    ensures Retries(t) || Freezes(t) ==> Throws(t)
    ensures !(Retries(t) && Freezes(t))
  {
  }

  lemma FrozenLater(tries: seq<Try>, n: nat)
    requires 1 <= n <= |tries| && Retries(tries[0])
    ensures Frozen(tries, n) <==> Frozen(tries[1..], n - 1)
  {
    var rest := tries[1..];
    RetryKind(tries[0]);
    assert forall i :: 0 <= i < |rest| ==> rest[i] == tries[i + 1];
    if Frozen(tries, n) {
      var i :| 0 <= i < n && Freezes(tries[i]) && forall k :: 0 <= k < i ==> Retries(tries[k]);
      assert Freezes(rest[i - 1]);
    }
    if Frozen(rest, n - 1) {
      var i :| 0 <= i < n - 1 && Freezes(rest[i]) && forall k :: 0 <= k < i ==> Retries(rest[k]);
      assert Freezes(tries[i + 1]);
      forall k | 0 <= k < i + 1 ensures Retries(tries[k]) { if k > 0 { assert Retries(rest[k - 1]); } }
    }
  }

  lemma NotClaimableStays(j: Job, tries: seq<Try>)
    requires !Claimable(j)
    ensures Tries(j, tries) == j
  {
  }

  lemma SettledStays(j: Job, tries: seq<Try>)
    requires Settled(j)
    ensures Tries(j, tries) == j
  {
  }

  function AllFail(k: nat): seq<Try> {
    if k == 0 then [] else [Try(DuringSend, Completes)] + AllFail(k - 1)
  }

  lemma {:induction false} TooFewTries(j: Job, k: nat)
    requires Waiting(j) && k < j.max - j.count
    ensures |AllFail(k)| == k && (forall i :: 0 <= i < k ==> AllFail(k)[i] == Try(DuringSend, Completes))
    ensures Tries(j, AllFail(k)).status in {Queued, Failed}
    decreases k
  {
    hide Delivery;
    if k > 0 {
      DeliveryMeasure(j, Try(DuringSend, Completes));
      assert AllFail(k)[1..] == AllFail(k - 1);
      TooFewTries(Delivery(j, Try(DuringSend, Completes)).0, k - 1);
    }
  }

  predicate NoneFreezes(tries: seq<Try>) {
    forall i :: 0 <= i < |tries| ==> !Freezes(tries[i])
  }

  /** The queue's five tries end every fresh job as sent, given up or cancelled,
      whatever goes wrong short of freezing it, exactly when it allows at most
      five attempts. */
  lemma FiveTriesSettle(max: nat)
    requires max > 0
    ensures (forall tries :: |tries| == QUEUE_TRIES && NoneFreezes(tries) ==> Settled(Tries(Fresh(max), tries)))
       <==> max <= QUEUE_TRIES
  {
    hide Tries;
    if max <= QUEUE_TRIES {
      forall tries | |tries| == QUEUE_TRIES && NoneFreezes(tries) ensures Settled(Tries(Fresh(max), tries)) {
        TriesSettle(Fresh(max), tries);
      }
    } else {
      TooFewTries(Fresh(max), QUEUE_TRIES);
      assert NoneFreezes(AllFail(QUEUE_TRIES));
    }
  }
}

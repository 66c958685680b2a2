/** The fixed-window login limiter, the order in which a login consults it, and
    how many failures it lets through in any interval one window long. */
module LoginLimiter {
  import opened Text

  /** Instants and durations in milliseconds. */
  datatype Config = Config(max: nat, window: int, lockout: int)

  datatype Row = Row(attempts: nat, windowStart: int, lockedUntil: Option<int>)

  // ----- the statements -----

  predicate IsLocked(row: Option<Row>, now: int) {
    row.Some? && row.value.lockedUntil.Some? && row.value.lockedUntil.value > now
  }

  /** Insert, or on conflict count on, or start over once the window has passed. */
  function Failed(row: Option<Row>, cfg: Config, now: int): Row {
    match row
    case None => Row(1, now, None)
    case Some(r) =>
      var over := r.windowStart < now - cfg.window;
      var attempts := if over then 1 else r.attempts + 1;
      Row(attempts, if over then now else r.windowStart,
          if attempts >= cfg.max then Some(now + cfg.lockout) else r.lockedUntil)
  }

  /** What recording a failure leaves: the count goes on, or starts again at one when
      more than a window has passed since it started, and the key is locked for the
      lockout from the maximum on, but never by the first failure of a new key. */
  predicate FailureSays(before: Option<Row>, after: Row, cfg: Config, now: int) {
    match before
    case None => after.attempts == 1 && after.windowStart == now && after.lockedUntil == None
    case Some(r) =>
      && (if now - r.windowStart > cfg.window then after.attempts == 1 && after.windowStart == now
          else after.attempts == r.attempts + 1 && after.windowStart == r.windowStart)
      && (if after.attempts < cfg.max then after.lockedUntil == r.lockedUntil
          else after.lockedUntil == Some(now + cfg.lockout))
  }

  lemma FailedSays(row: Option<Row>, cfg: Config, now: int)
    ensures FailureSays(row, Failed(row, cfg, now), cfg, now)
  {
  }

  datatype UserStatus = Active | LockedStatus | Inactive

  datatype User = User(hasHash: bool, lockedUntil: Option<int>, status: UserStatus)

  predicate Ahead(until: Option<int>, now: int) {
    until.Some? && until.value > now
  }

  /** When a login has which outcome. Only a user with a password who is neither
      locked out at that moment nor inactive may try the password, and only a right,
      unexpired one of a user whose tenant resolves logs in. */
  predicate LoginSays(blocked: bool, user: Option<User>, valid: bool, expired: bool, resolves: bool, now: int,
                      outcome: Outcome) {
    var known := !blocked && user.Some? && user.value.hasHash;
    var free := known && !Ahead(user.value.lockedUntil, now);
    var mayTry := free && user.value.status in {Active, LockedStatus};
    && (outcome == TooMany <==> blocked)
    && (outcome == Unknown <==> !blocked && !known)
    && (outcome == AccountLocked <==> known && !free)
    && (outcome == NotActive <==> free && !mayTry)
    && (outcome == WrongPassword <==> mayTry && !valid)
    && (outcome == Expired <==> mayTry && valid && expired)
    && (outcome == NoTenant <==> mayTry && valid && !expired && !resolves)
    && (outcome == LoggedIn <==> mayTry && valid && !expired && resolves)
  }

  datatype Outcome = TooMany | Unknown | AccountLocked | NotActive | WrongPassword | Expired | NoTenant | LoggedIn

  class Limiter {
    const cfg: Config
    var rows: map<string, Row>

    constructor (cfg: Config)
      ensures this.cfg == cfg && rows == map[]
    {
      this.cfg := cfg;
      rows := map[];
    }

    method CheckLocked(key: string, now: int) returns (locked: bool)
      ensures locked == IsLocked(Lookup(rows, key), now)
    {
      locked := key in rows && rows[key].lockedUntil.Some? && rows[key].lockedUntil.value > now;
    }

    method RecordFailure(key: string, now: int)
      modifies this`rows
      ensures rows == old(rows)[key := Failed(old(Lookup(rows, key)), cfg, now)]
      ensures FailureSays(old(Lookup(rows, key)), rows[key], cfg, now) && rows - {key} == old(rows) - {key}
    {
      if key !in rows {
        rows := rows[key := Row(1, now, None)];
      } else {
        var r := rows[key];
        var attempts, windowStart, lockedUntil := r.attempts + 1, r.windowStart, r.lockedUntil;
        if r.windowStart < now - cfg.window { attempts, windowStart := 1, now; }
        if attempts >= cfg.max { lockedUntil := Some(now + cfg.lockout); }
        rows := rows[key := Row(attempts, windowStart, lockedUntil)];
      }
    }

    method Clear(key: string)
      modifies this`rows
      ensures rows == old(rows) - {key}
    {
      rows := rows - {key};
    }

    /** A login: the limiter is asked at `checkAt`, and told at `recordAt`. The
        password is verified only when the key is not locked and the account may
        log in, and every outcome leaves the limiter in a definite state. */
    method Login(key: string, user: Option<User>, valid: bool, expired: bool, resolves: bool, checkAt: int, recordAt: int)
      returns (outcome: Outcome, verified: bool)
      modifies this`rows
      ensures outcome == TooMany <==> IsLocked(old(Lookup(rows, key)), checkAt)
      ensures verified ==> !IsLocked(old(Lookup(rows, key)), checkAt)
      ensures verified <==> outcome in {WrongPassword, Expired, NoTenant, LoggedIn}
      ensures outcome == Unknown || outcome == WrongPassword ==>
                rows == old(rows)[key := Failed(old(Lookup(rows, key)), cfg, recordAt)]
      ensures outcome == LoggedIn ==> rows == old(rows) - {key} && valid && !expired && resolves
      ensures outcome !in {Unknown, WrongPassword, LoggedIn} ==> rows == old(rows)
      ensures outcome == WrongPassword ==> !valid
      ensures LoginSays(key in old(rows) && Ahead(old(rows)[key].lockedUntil, checkAt), user, valid, expired, resolves,
                        checkAt, outcome)
      ensures outcome in {Unknown, WrongPassword} ==>
                FailureSays(old(Lookup(rows, key)), rows[key], cfg, recordAt) && rows - {key} == old(rows) - {key}
    {
      verified := false;
      var locked := CheckLocked(key, checkAt);
      if locked { return TooMany, false; }
      if user.None? || !user.value.hasHash {
        RecordFailure(key, recordAt);
        return Unknown, false;
      }
      if user.value.lockedUntil.Some? && user.value.lockedUntil.value > checkAt { return AccountLocked, false; }
      if user.value.status == Inactive { return NotActive, false; }
      verified := true;
      if !valid {
        RecordFailure(key, recordAt);
        return WrongPassword, true;
      }
      if expired { return Expired, true; }
      if !resolves { return NoTenant, true; }
      Clear(key);
      outcome := LoggedIn;
    }
  }

  // ----- a run of logins under one key -----

  datatype Kind = Failure | Success | Neither

  /** One login: when the limiter was asked, when it was told, and what it was told. */
  datatype Attempt = Attempt(checkAt: int, recordAt: int, kind: Kind)

  /** Logins one after the other, on a clock that never goes back. */
  predicate Ordered(attempts: seq<Attempt>, from: int)
    decreases |attempts|
  {
    attempts == [] ||
    (from <= attempts[0].checkAt <= attempts[0].recordAt && Ordered(attempts[1..], attempts[0].recordAt))
  }

  function Next(row: Option<Row>, cfg: Config, a: Attempt): Option<Row> {
    if IsLocked(row, a.checkAt) then row
    else match a.kind case Failure => Some(Failed(row, cfg, a.recordAt)) case Success => None case Neither => row
  }

  predicate Counts(row: Option<Row>, a: Attempt, s: int, w: int) {
    !IsLocked(row, a.checkAt) && a.kind == Failure && s <= a.recordAt < s + w
  }

  /** How many failures the run records in the half-open interval from s of one window. */
  function Recorded(row: Option<Row>, cfg: Config, attempts: seq<Attempt>, s: int): nat
    decreases |attempts|
  {
    if attempts == [] then 0
    else (if Counts(row, attempts[0], s, cfg.window) then 1 else 0)
         + Recorded(Next(row, cfg, attempts[0]), cfg, attempts[1..], s)
  }

  predicate NoSuccess(attempts: seq<Attempt>) {
    forall i :: 0 <= i < |attempts| ==> attempts[i].kind != Success
  }

  predicate Sensible(cfg: Config) {
    cfg.max >= 2 && cfg.window > 0 && cfg.lockout >= cfg.window
  }

  function Min(a: int, b: int): int {
    if a < b then a else b
  }

  /** What is known between two logins: n failures recorded in the interval so far,
      the last one (in or before it) at `last`. */
  predicate Tally(row: Option<Row>, cfg: Config, s: int, n: int, last: int) {
    && 0 <= n && (n > 0 ==> last >= s)
    && match row
       case None => n == 0
       case Some(r) =>
         && r.attempts >= 1 && r.windowStart <= last
         && (r.attempts >= cfg.max ==> r.lockedUntil == Some(last + cfg.lockout))
         && if last >= s + cfg.window then n <= 2 * cfg.max - 2
            else if r.windowStart >= s then n <= cfg.max - 2 + Min(r.attempts, cfg.max)
            else n <= Min(r.attempts - 1, cfg.max - 1)
  }

  lemma TallyStep(row: Option<Row>, cfg: Config, s: int, n: int, last: int, a: Attempt)
    requires Sensible(cfg) && Tally(row, cfg, s, n, last) && last <= a.checkAt <= a.recordAt && a.kind != Success
    ensures var counted := if Counts(row, a, s, cfg.window) then 1 else 0;
            var recorded := !IsLocked(row, a.checkAt) && a.kind == Failure;
            Tally(Next(row, cfg, a), cfg, s, n + counted, if recorded then a.recordAt else last)
  {
  }

  lemma {:induction false} TallyBound(row: Option<Row>, cfg: Config, attempts: seq<Attempt>, s: int, n: int, last: int, now: int)
    requires Sensible(cfg) && Tally(row, cfg, s, n, last) && last <= now
    requires Ordered(attempts, now) && NoSuccess(attempts)
    ensures n + Recorded(row, cfg, attempts, s) <= 2 * cfg.max - 2
    decreases |attempts|
  {
    hide Failed;
    if attempts != [] {
      var a := attempts[0];
      TallyStep(row, cfg, s, n, last, a);
      var recorded := !IsLocked(row, a.checkAt) && a.kind == Failure;
      TallyBound(Next(row, cfg, a), cfg, attempts[1..], s,
                 n + (if Counts(row, a, s, cfg.window) then 1 else 0), if recorded then a.recordAt else last, a.recordAt);
    }
  }

  /** No interval one window long sees more than twice the maximum, less two,
      recorded failures, when the lockout is at least as long as the window. */
  lemma AtMostTwiceMaxLessTwo(cfg: Config, attempts: seq<Attempt>, s: int, start: int)
    requires Sensible(cfg) && Ordered(attempts, start) && NoSuccess(attempts)
    ensures Recorded(None, cfg, attempts, s) <= 2 * cfg.max - 2
  {
    TallyBound(None, cfg, attempts, s, 0, start, start);
  }

  /** The row after k failures recorded at one instant. */
  function AfterFailures(cfg: Config, t: int, k: nat): Option<Row> {
    if k == 0 then None else Some(Failed(AfterFailures(cfg, t, k - 1), cfg, t))
  }

  /** A fresh key is locked by its k-th failure exactly when k reaches the maximum
      and is not the first: inserting the row never sets a lock, so a maximum of
      one locks only at the second failure. */
  lemma {:induction false} LocksExactly(cfg: Config, t: int, k: nat)
    requires cfg.window > 0 && cfg.lockout > 0 && k > 0
    ensures IsLocked(AfterFailures(cfg, t, k), t) <==> k >= cfg.max && k >= 2
    ensures AfterFailures(cfg, t, k).value.attempts == k && AfterFailures(cfg, t, k).value.windowStart == t
    ensures k < cfg.max || k == 1 ==> AfterFailures(cfg, t, k).value.lockedUntil == None
  {
    if k > 1 { LocksExactly(cfg, t, k - 1); }
  }

  // ----- the bound is reached -----

  function Repeat(t: int, k: nat): seq<Attempt> {
    if k == 0 then [] else [Attempt(t, t, Failure)] + Repeat(t, k - 1)
  }

  lemma {:induction false} RepeatCounts(r: Row, cfg: Config, t: int, k: nat, rest: seq<Attempt>, s: int)
    requires s <= t < s + cfg.window && r.windowStart <= t <= r.windowStart + cfg.window
    requires 1 <= r.attempts && r.attempts + k <= cfg.max && r.lockedUntil == None
    ensures var after := Row(r.attempts + k, r.windowStart, if k > 0 && r.attempts + k == cfg.max then Some(t + cfg.lockout) else None);
            Recorded(Some(r), cfg, Repeat(t, k) + rest, s) == k + Recorded(Some(after), cfg, rest, s)
    decreases k
  {
    if k == 0 {
      assert Repeat(t, 0) + rest == rest;
    } else {
      var a := Attempt(t, t, Failure);
      var all := Repeat(t, k) + rest;
      assert all[0] == a && all[1..] == Repeat(t, k - 1) + rest;
      hide Recorded;
      var next := Failed(Some(r), cfg, t);
      assert all == [a] + (Repeat(t, k - 1) + rest);
      RecordedCons(Some(r), cfg, a, Repeat(t, k - 1) + rest, s);
      if k == 1 {
        assert Repeat(t, 0) + rest == rest;
      } else {
        RepeatCounts(next, cfg, t, k - 1, rest, s);
      }
    }
  }

  lemma {:induction false} RepeatOrdered(t: int, k: nat, rest: seq<Attempt>, from: int)
    requires from <= t && Ordered(rest, t) && NoSuccess(rest)
    ensures Ordered(Repeat(t, k) + rest, if k == 0 then t else from) && NoSuccess(Repeat(t, k) + rest)
    decreases k
  {
    if k == 0 {
      assert Repeat(t, 0) + rest == rest;
    } else {
      RepeatOrdered(t, k - 1, rest, t);
      var all := Repeat(t, k) + rest;
      assert all == [Attempt(t, t, Failure)] + (Repeat(t, k - 1) + rest);
      assert all[1..] == Repeat(t, k - 1) + rest;
    }
  }

  /** One failure, then a burst at the window's last instant that stops short of the
      lock, then a full burst right after: twice the maximum, less two. */
  function WorstCase(cfg: Config): seq<Attempt>
    requires cfg.max >= 2
  {
    [Attempt(0, 0, Failure)] + (Repeat(cfg.window, cfg.max - 2) + ([Attempt(cfg.window + 1, cfg.window + 1, Failure)]
                                + (Repeat(cfg.window + 1, cfg.max - 1) + [])))
  }

  lemma RecordedCons(row: Option<Row>, cfg: Config, a: Attempt, rest: seq<Attempt>, s: int)
    ensures Recorded(row, cfg, [a] + rest, s) ==
            (if Counts(row, a, s, cfg.window) then 1 else 0) + Recorded(Next(row, cfg, a), cfg, rest, s)
  {
    assert ([a] + rest)[1..] == rest;
  }

  lemma OrderedCons(a: Attempt, rest: seq<Attempt>, from: int)
    requires from <= a.checkAt <= a.recordAt && Ordered(rest, a.recordAt)
    ensures Ordered([a] + rest, from)
  {
    assert ([a] + rest)[1..] == rest;
  }

  lemma BoundIsTight(cfg: Config)
    requires Sensible(cfg) && cfg.window >= 2
    ensures Ordered(WorstCase(cfg), 0) && NoSuccess(WorstCase(cfg))
    ensures Recorded(None, cfg, WorstCase(cfg), cfg.window) == 2 * cfg.max - 2
  {
    hide Ordered;
    var w := cfg.window;
    var fourth := Repeat(w + 1, cfg.max - 1) + [];
    var third := [Attempt(w + 1, w + 1, Failure)] + fourth;
    var second := Repeat(w, cfg.max - 2) + third;
    assert Ordered([], w + 1) by { NothingOrdered(w + 1); }
    RepeatOrdered(w + 1, cfg.max - 1, [], w + 1);
    OrderedCons(Attempt(w + 1, w + 1, Failure), fourth, w);
    RepeatOrdered(w, cfg.max - 2, third, w);
    OrderedEarlier(second, w, 0);
    OrderedCons(Attempt(0, 0, Failure), second, 0);

    RecordedCons(None, cfg, Attempt(0, 0, Failure), second, w);
    RepeatCounts(Row(1, 0, None), cfg, w, cfg.max - 2, third, w);
    RecordedCons(Some(Row(cfg.max - 1, 0, None)), cfg, Attempt(w + 1, w + 1, Failure), fourth, w);
    RepeatCounts(Row(1, w + 1, None), cfg, w + 1, cfg.max - 1, [], w);
  }

  lemma NothingOrdered(t: int)
    ensures Ordered([], t)
  {
  }

  lemma OrderedEarlier(attempts: seq<Attempt>, t: int, from: int)
    requires Ordered(attempts, t) && from <= t
    ensures Ordered(attempts, from)
  {
  }
}

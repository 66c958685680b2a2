/** Permission closure by a worklist, and the row scopes that the API and the
    export worker derive from it. */
module Permissions {
  import opened Sets
  import opened Text

  type Table = map<string, seq<string>>

  const IMPLICATIONS: Table := map[
    "case.delay.manage.all" := ["case.delay.read.all"],
    "case.read.all" := ["case.read.entity", "case.read.assigned"],
    "case.read.entity" := ["case.read.assigned"],
    "case.update.all" := ["case.read.all", "case.update.entity", "case.update.assigned"],
    "case.update.entity" := ["case.read.entity", "case.update.assigned"],
    "catalog.manage" := ["catalog.read"],
    "entity.manage" := ["entity.read"],
    "report.export" := ["report.read"],
    "role.manage" := ["permission.read"],
    "user.manage" := ["user.read.all"],
    "user.read.all" := ["user.read.entity"],
    "user.read.entity" := ["user.read"]]

  // ----- the worklist -----

  function Implied(table: Table, p: string): seq<string> {
    if p in table then table[p] else []
  }

  /** What going through one permission's implications does to the set and the queue. */
  function AddAll(granted: set<string>, queue: seq<string>, implied: seq<string>): (set<string>, seq<string>)
    decreases |implied|
  {
    if implied == [] then (granted, queue)
    else if implied[0] in granted then AddAll(granted, queue, implied[1..])
    else AddAll(granted + {implied[0]}, queue + [implied[0]], implied[1..])
  }

  function Elements(s: seq<string>): set<string> {
    set x | x in s
  }

  function AllImplied(table: Table): set<string> {
    set p, q | p in table && q in table[p] :: q
  }

  /** Every name the closure can ever hold. */
  function Universe(table: Table, granted: set<string>): set<string> {
    granted + AllImplied(table)
  }

  lemma {:induction false} AddAllFacts(granted: set<string>, queue: seq<string>, implied: seq<string>)
    ensures var (g, q) := AddAll(granted, queue, implied);
            && g == granted + Elements(implied)
            && Elements(q) == Elements(queue) + (g - granted)
            && (g == granted ==> q == queue)
    decreases |implied|
  {
    if implied != [] {
      assert implied == [implied[0]] + implied[1..];
      assert Elements(implied) == {implied[0]} + Elements(implied[1..]);
      if implied[0] in granted {
        AddAllFacts(granted, queue, implied[1..]);
      } else {
        AddAllFacts(granted + {implied[0]}, queue + [implied[0]], implied[1..]);
        assert Elements(queue + [implied[0]]) == Elements(queue) + {implied[0]};
      }
    }
  }

  lemma Progress(table: Table, granted: set<string>, queue: seq<string>)
    requires queue != [] && queue[0] != ""
    ensures var (g, q) := AddAll(granted, queue[1..], Implied(table, queue[0]));
            Universe(table, g) == Universe(table, granted) && (g == granted ==> |q| < |queue|)
            && (g != granted ==> Universe(table, g) - g < Universe(table, granted) - granted)
  {
    var (g, q) := AddAll(granted, queue[1..], Implied(table, queue[0]));
    AddAllFacts(granted, queue[1..], Implied(table, queue[0]));
    assert Elements(Implied(table, queue[0])) <= AllImplied(table);
    if g != granted {
      var x :| x in g && x !in granted;
      assert x in Universe(table, granted) - granted;
    }
  }

  /** Each step shrinks what is still to be granted, or the queue. */
  lemma SmallerRest(table: Table, granted: set<string>, queue: seq<string>)
    requires queue != [] && queue[0] != ""
    ensures var (g, q) := AddAll(granted, queue[1..], Implied(table, queue[0]));
            var rest, rest' := |Universe(table, granted) - granted|, |Universe(table, g) - g|;
            rest' < rest || (rest' == rest && |q| < |queue|)
  {
    hide Universe, AddAll;
    Progress(table, granted, queue);
    var g := AddAll(granted, queue[1..], Implied(table, queue[0])).0;
    if g != granted { SubsetSize(Universe(table, g) - g, Universe(table, granted) - granted); }
  }

  /** The worklist run to its end. */
  function Work(table: Table, granted: set<string>, queue: seq<string>): set<string>
    decreases |Universe(table, granted) - granted|, |queue|
  {
    hide AddAll, Universe;
    if queue == [] then granted
    else if queue[0] == "" then Work(table, granted, queue[1..])
    else
      var (g, q) := AddAll(granted, queue[1..], Implied(table, queue[0]));
      SmallerRest(table, granted, queue);
      Work(table, g, q)
  }

  function Distinct(s: seq<string>): seq<string> {
    if s == [] then []
    else if s[|s| - 1] in s[..|s| - 1] then Distinct(s[..|s| - 1])
    else Distinct(s[..|s| - 1]) + [s[|s| - 1]]
  }

  lemma {:induction false} DistinctElements(s: seq<string>)
    ensures Elements(Distinct(s)) == Elements(s)
  {
    if s != [] {
      var rest, last := s[..|s| - 1], s[|s| - 1];
      assert s == rest + [last];
      DistinctElements(rest);
      assert Elements(s) == Elements(rest) + {last};
      if last in rest { assert last in Elements(rest); }
    }
  }

  function Expand(table: Table, permissions: seq<string>): set<string> {
    Work(table, Elements(permissions), Distinct(permissions))
  }

  method ExpandPermissions(table: Table, permissions: seq<string>) returns (granted: set<string>)
    ensures granted == Expand(table, permissions)
  {
    hide Work, Universe, AddAll;
    granted := Elements(permissions);
    var queue := Distinct(permissions);
    while |queue| > 0
      invariant Work(table, granted, queue) == Expand(table, permissions)
      decreases |Universe(table, granted) - granted|, |queue|
    {
      WorkStep(table, granted, queue);
      var permission := queue[0];
      ghost var before, whole := granted, queue;
      queue := queue[1..];
      if permission != "" {
        var implied := Implied(table, permission);
        ghost var rest := queue;
        for i := 0 to |implied|
          invariant AddAll(granted, queue, implied[i..]) == AddAll(before, rest, implied)
        {
          AddAllStep(granted, queue, implied[i..]);
          assert implied[i..][1..] == implied[i + 1..];
          if implied[i] !in granted {
            granted := granted + {implied[i]};
            queue := queue + [implied[i]];
          }
        }
        assert implied[|implied|..] == [];
        AddAllStep(granted, queue, []);
        SmallerRest(table, before, whole);
      }
    }
    WorkStep(table, granted, queue);
  }

  lemma WorkStep(table: Table, granted: set<string>, queue: seq<string>)
    ensures Work(table, granted, queue) ==
            if queue == [] then granted
            else if queue[0] == "" then Work(table, granted, queue[1..])
            else
              var (g, q) := AddAll(granted, queue[1..], Implied(table, queue[0]));
              Work(table, g, q)
  {
    hide AddAll, Universe;
  }

  lemma AddAllStep(granted: set<string>, queue: seq<string>, implied: seq<string>)
    ensures AddAll(granted, queue, implied) ==
            if implied == [] then (granted, queue)
            else if implied[0] in granted then AddAll(granted, queue, implied[1..])
            else AddAll(granted + {implied[0]}, queue + [implied[0]], implied[1..])
  {
  }

  // ----- the least closed superset -----

  predicate Closed(table: Table, s: set<string>) {
    forall p :: p in s && p in table ==> Elements(table[p]) <= s
  }

  /** Everything granted has been worked off or still waits. */
  predicate Pending(table: Table, granted: set<string>, queue: seq<string>) {
    forall p :: p in granted && p in table && p !in queue ==> Elements(table[p]) <= granted
  }

  lemma {:induction false} WorkCloses(table: Table, granted: set<string>, queue: seq<string>)
    requires "" !in table && Elements(queue) <= granted && Pending(table, granted, queue)
    ensures granted <= Work(table, granted, queue) && Closed(table, Work(table, granted, queue))
    decreases |Universe(table, granted) - granted|, |queue|
  {
    hide Work, Universe, AddAll;
    WorkStep(table, granted, queue);
    if queue != [] {
      assert queue == [queue[0]] + queue[1..];
      if queue[0] == "" {
        WorkCloses(table, granted, queue[1..]);
      } else {
        var (g, q) := AddAll(granted, queue[1..], Implied(table, queue[0]));
        AddAllFacts(granted, queue[1..], Implied(table, queue[0]));
        SmallerRest(table, granted, queue);
        assert forall x :: x in q <==> x in Elements(q);
        WorkCloses(table, g, q);
      }
    }
  }

  lemma {:induction false} WorkIsLeast(table: Table, granted: set<string>, queue: seq<string>, s: set<string>)
    requires Closed(table, s) && granted <= s && Elements(queue) <= s
    ensures Work(table, granted, queue) <= s
    decreases |Universe(table, granted) - granted|, |queue|
  {
    hide Work, Universe, AddAll;
    WorkStep(table, granted, queue);
    if queue != [] {
      assert queue == [queue[0]] + queue[1..];
      if queue[0] == "" {
        WorkIsLeast(table, granted, queue[1..], s);
      } else {
        var (g, q) := AddAll(granted, queue[1..], Implied(table, queue[0]));
        AddAllFacts(granted, queue[1..], Implied(table, queue[0]));
        SmallerRest(table, granted, queue);
        assert queue[0] in Elements(queue);
        WorkIsLeast(table, g, q, s);
      }
    }
  }

  /** The expansion is the least superset of the given permissions that is closed
      under the implications. */
  lemma ExpandIsLeastClosed(table: Table, permissions: seq<string>)
    requires "" !in table
    ensures Elements(permissions) <= Expand(table, permissions) && Closed(table, Expand(table, permissions))
    ensures forall s :: Elements(permissions) <= s && Closed(table, s) ==> Expand(table, permissions) <= s
  {
    hide Work, Closed;
    DistinctElements(permissions);
    assert Pending(table, Elements(permissions), Distinct(permissions)) by {
      assert forall x :: x in Distinct(permissions) <==> x in Elements(Distinct(permissions));
    }
    WorkCloses(table, Elements(permissions), Distinct(permissions));
    forall s | Elements(permissions) <= s && Closed(table, s) ensures Expand(table, permissions) <= s {
      WorkIsLeast(table, Elements(permissions), Distinct(permissions), s);
    }
  }

  /** More permissions expand to more, whatever their order and repetition; so the
      expansion depends only on which permissions are listed, and expanding an
      expansion adds nothing. */
  lemma ExpandMonotone(table: Table, a: seq<string>, b: seq<string>)
    requires "" !in table && Elements(a) <= Expand(table, b)
    ensures Expand(table, a) <= Expand(table, b)
  {
    hide Expand, Closed;
    ExpandIsLeastClosed(table, a);
    ExpandIsLeastClosed(table, b);
  }

  lemma ExpandSameSet(table: Table, a: seq<string>, b: seq<string>)
    requires "" !in table && Elements(a) == Elements(b)
    ensures Expand(table, a) == Expand(table, b)
  {
    hide Expand, Closed;
    ExpandIsLeastClosed(table, a);
    ExpandIsLeastClosed(table, b);
    ExpandMonotone(table, a, b);
    ExpandMonotone(table, b, a);
  }

  lemma ExpandIdempotent(table: Table, a: seq<string>, b: seq<string>)
    requires "" !in table && Elements(b) == Expand(table, a)
    ensures Expand(table, b) == Expand(table, a)
  {
    hide Expand, Closed;
    ExpandIsLeastClosed(table, a);
    ExpandIsLeastClosed(table, b);
    ExpandMonotone(table, b, a);
  }

  // ----- scopes -----

  datatype AccessLevel = Entity | Group | User

  /** A user as the tables hold it; only platform super administrators may have
      no home tenant. */
  datatype UserRow = UserRow(home: Option<nat>, deleted: bool, active: bool, level: AccessLevel, superAdmin: bool,
                             permissions: set<string>, entities: set<nat>)

  type Users = u: map<nat, UserRow> | forall id :: id in u ==> u[id].home.Some? || u[id].superAdmin

  /** An account as a query returns it; the arrays come in no particular order. */
  datatype Account = Account(id: nat, level: AccessLevel, superAdmin: bool, permissions: seq<string>, entityIds: seq<nat>)

  /** The account a query may return for a row. */
  ghost predicate Lists(a: Account, id: nat, u: UserRow) {
    && a.id == id && a.level == u.level && a.superAdmin == u.superAdmin
    && Elements(a.permissions) == u.permissions
    && forall e :: e in a.entityIds <==> e in u.entities
  }

  datatype Scope = Scope(actor: nat, assignedOnly: bool, entityIds: seq<nat>, tenantWide: bool)

  function CaseReadScope(table: Table, u: Account): Scope {
    if u.superAdmin then Scope(u.id, false, [], true)
    else
      var granted := Expand(table, u.permissions);
      if u.level == Group && "case.read.all" in granted then Scope(u.id, false, [], true)
      else if u.level != User && "case.read.entity" in granted then Scope(u.id, false, u.entityIds, false)
      else if "case.read.assigned" in granted then Scope(u.id, true, [], false)
      else Scope(u.id, false, [], false)
  }

  function PlanningScope(u: Account): Scope {
    if u.superAdmin || u.level == Group then Scope(u.id, false, [], true)
    else if u.level == Entity then Scope(u.id, false, u.entityIds, false)
    else Scope(u.id, true, [], false)
  }

  datatype Report = RcPoExpiry | OtherReport

  /** The worker's own copy of both, in one function over the queried actor. */
  function ExportScope(table: Table, userId: nat, actor: Option<Account>, report: Report): Scope {
    if actor.None? then Scope(userId, false, [], false)
    else
      var a := actor.value;
      if a.superAdmin then Scope(userId, false, [], true)
      else
        var granted := Expand(table, a.permissions);
        if report == RcPoExpiry then
          (if a.level == Group then Scope(userId, false, [], true)
           else if a.level == Entity then Scope(userId, false, a.entityIds, false)
           else Scope(userId, true, [], false))
        else if a.level == Group && "case.read.all" in granted then Scope(userId, false, [], true)
        else if a.level != User && "case.read.entity" in granted then Scope(userId, false, a.entityIds, false)
        else if "case.read.assigned" in granted then Scope(userId, true, [], false)
        else Scope(userId, false, [], false)
  }

  datatype Condition = OwnerIs(actor: nat) | EntityAmong(ids: seq<nat>)

  /** The condition a scope adds to a query, if any. */
  method ApplyScope(filter: seq<Condition>, scope: Scope) returns (narrowed: seq<Condition>)
    ensures forall entity, owner :: Passes(narrowed, entity, owner) <==> Passes(filter, entity, owner) && Selects(scope, entity, owner)
  {
    narrowed := filter;
    if scope.tenantWide { return; }
    var added := if scope.assignedOnly then OwnerIs(scope.actor) else EntityAmong(scope.entityIds);
    narrowed := filter + [added];
    assert narrowed[|filter|] == added;
    forall entity: nat, owner: Option<nat>
      ensures Passes(narrowed, entity, owner) <==> Passes(filter, entity, owner) && Selects(scope, entity, owner)
    {
      if Passes(narrowed, entity, owner) {
        forall i | 0 <= i < |filter| ensures Holds(filter[i], entity, owner) { assert narrowed[i] == filter[i]; }
        assert Holds(narrowed[|filter|], entity, owner);
      }
    }
  }

  predicate Holds(c: Condition, entity: nat, owner: Option<nat>) {
    match c
    case OwnerIs(a) => owner == Some(a)
    case EntityAmong(ids) => entity in ids
  }

  predicate Passes(filter: seq<Condition>, entity: nat, owner: Option<nat>) {
    forall i :: 0 <= i < |filter| ==> Holds(filter[i], entity, owner)
  }

  predicate Selects(s: Scope, entity: nat, owner: Option<nat>) {
    s.tenantWide || (if s.assignedOnly then owner == Some(s.actor) else entity in s.entityIds)
  }

  // ----- who the two sides take the actor to be -----

  /** The API's session lookup: any active user that is not deleted. */
  ghost predicate SessionFinds(users: Users, id: nat, actor: Option<Account>) {
    if id in users && !users[id].deleted && users[id].active then actor.Some? && Lists(actor.value, id, users[id])
    else actor.None?
  }

  /** The worker's lookup: a user that is not deleted and whose home is the job's tenant. */
  ghost predicate WorkerFinds(users: Users, tenant: nat, id: nat, actor: Option<Account>) {
    if id in users && !users[id].deleted && users[id].home == Some(tenant) then
      actor.Some? && Lists(actor.value, id, users[id])
    else actor.None?
  }

  /** The tenant of a session: a super administrator's is the one whose code was
      given at login, falling back to the home tenant; everyone else's is home. */
  function SessionTenant(u: UserRow, codeTenant: Option<nat>): Option<nat> {
    if u.superAdmin && codeTenant.Some? then codeTenant else u.home
  }

  function ApiScope(table: Table, u: Account, report: Report): Scope {
    if report == RcPoExpiry then PlanningScope(u) else CaseReadScope(table, u)
  }

  predicate ApiSelects(table: Table, actor: Option<Account>, report: Report, entity: nat, owner: Option<nat>) {
    actor.Some? && Selects(ApiScope(table, actor.value, report), entity, owner)
  }

  /** Which rows a user may see in a report. An expiry report goes by access level
      alone; any other one by the strongest of the three reading permissions that
      the user holds, expanded, and that fits the level. */
  predicate MaySee(table: Table, u: Account, report: Report, entity: nat, owner: Option<nat>) {
    var granted := Expand(table, u.permissions);
    var everything := u.level == Group && (report == RcPoExpiry || "case.read.all" in granted);
    var ownEntities := if report == RcPoExpiry then u.level == Entity else u.level != User && "case.read.entity" in granted;
    var ownCases := if report == RcPoExpiry then u.level == User else "case.read.assigned" in granted;
    || u.superAdmin
    || everything
    || (ownEntities && entity in u.entityIds)
    || (ownCases && !ownEntities && owner == Some(u.id))
  }

  /** Both sides' scopes select exactly the rows the user may see, and an unknown
      actor's selects none. */
  lemma ScopesExact(table: Table, u: Account, report: Report, entity: nat, owner: Option<nat>)
    ensures ApiSelects(table, Some(u), report, entity, owner) <==> MaySee(table, u, report, entity, owner)
    ensures Selects(ExportScope(table, u.id, Some(u), report), entity, owner) <==> MaySee(table, u, report, entity, owner)
    ensures !ApiSelects(table, None, report, entity, owner) && !Selects(ExportScope(table, u.id, None, report), entity, owner)
  {
    hide Expand;
  }

  /** The two scope functions agree on one user, however each side's query ordered
      its arrays. */
  lemma SameUserSameRows(table: Table, id: nat, u: UserRow, api: Account, worker: Account, report: Report,
                         entity: nat, owner: Option<nat>)
    requires "" !in table && Lists(api, id, u) && Lists(worker, id, u)
    ensures Selects(ExportScope(table, id, Some(worker), report), entity, owner) <==>
            Selects(ApiScope(table, api, report), entity, owner)
  {
    hide Expand;
    ExpandSameSet(table, api.permissions, worker.permissions);
  }

  /** A user the API authenticates: the export selects a row of the job's tenant
      exactly when the API does, if and only if the user's home is that tenant or
      the API does not select the row either. */
  lemma ExportMatchesApi(table: Table, users: Users, tenant: nat, id: nat, api: Option<Account>, worker: Option<Account>,
                         report: Report, entity: nat, owner: Option<nat>)
    requires "" !in table && SessionFinds(users, id, api) && WorkerFinds(users, tenant, id, worker) && api.Some?
    ensures (Selects(ExportScope(table, id, worker, report), entity, owner) <==> ApiSelects(table, api, report, entity, owner))
       <==> users[id].home == Some(tenant) || !ApiSelects(table, api, report, entity, owner)
  {
    hide Expand, ApiScope, Lists;
    if worker.Some? {
      SameUserSameRows(table, id, users[id], api.value, worker.value, report, entity, owner);
    }
  }

  /** Everyone but a platform super administrator: job and session are always in
      the home tenant, so worker and API agree on every row. */
  lemma OrdinaryUsersAgree(table: Table, users: Users, codeTenant: Option<nat>, tenant: nat, id: nat,
                           api: Option<Account>, worker: Option<Account>, report: Report, entity: nat, owner: Option<nat>)
    requires "" !in table && SessionFinds(users, id, api) && api.Some? && !users[id].superAdmin
    requires SessionTenant(users[id], codeTenant) == Some(tenant) && WorkerFinds(users, tenant, id, worker)
    ensures Selects(ExportScope(table, id, worker, report), entity, owner) <==> ApiSelects(table, api, report, entity, owner)
  {
    ExportMatchesApi(table, users, tenant, id, api, worker, report, entity, owner);
  }

  /** A platform super administrator selects every row through the API; the export
      job selects all of them too when the session is in the home tenant, and
      none at all in any other tenant. */
  lemma SuperAdminsExactly(table: Table, users: Users, tenant: nat, id: nat, api: Option<Account>, worker: Option<Account>,
                           report: Report, entity: nat, owner: Option<nat>)
    requires "" !in table && SessionFinds(users, id, api) && api.Some? && users[id].superAdmin
    requires WorkerFinds(users, tenant, id, worker)
    ensures ApiSelects(table, api, report, entity, owner)
    ensures Selects(ExportScope(table, id, worker, report), entity, owner) <==> users[id].home == Some(tenant)
  {
    hide Expand;
    ExportMatchesApi(table, users, tenant, id, api, worker, report, entity, owner);
  }

  /** The failing input: a platform administrator without a home tenant, logged in
      under a tenant's code. The API shows every row, the export job none. */
  lemma HomelessAdminExportsNothing(table: Table, tenant: nat, id: nat, report: Report, entity: nat, owner: Option<nat>)
    requires "" !in table
    ensures var u := UserRow(None, false, true, Group, true, {}, {});
            var users: Users := map[id := u];
            var seen := Account(id, Group, true, [], []);
            && SessionFinds(users, id, Some(seen)) && SessionTenant(u, Some(tenant)) == Some(tenant)
            && WorkerFinds(users, tenant, id, None)
            && ApiSelects(table, Some(seen), report, entity, owner)
            && !Selects(ExportScope(table, id, None, report), entity, owner)
  {
    var u := UserRow(None, false, true, Group, true, {}, {});
    var users: Users := map[id := u];
    SuperAdminsExactly(table, users, tenant, id, Some(Account(id, Group, true, [], [])), None, report, entity, owner);
  }

  /** A user deactivated after asking for the export: the API shows nothing any
      more, while the worker, which does not look at the status, still selects
      exactly the rows of the user's scope. Deleted users select nothing. */
  lemma InactiveUsersStillExport(table: Table, users: Users, tenant: nat, id: nat, api: Option<Account>,
                                 worker: Option<Account>, scope: Account, report: Report, entity: nat, owner: Option<nat>)
    requires "" !in table && id in users && !users[id].active && users[id].home == Some(tenant)
    requires SessionFinds(users, id, api) && WorkerFinds(users, tenant, id, worker) && Lists(scope, id, users[id])
    ensures !ApiSelects(table, api, report, entity, owner)
    ensures Selects(ExportScope(table, id, worker, report), entity, owner) <==>
            !users[id].deleted && Selects(ApiScope(table, scope, report), entity, owner)
  {
    hide Expand, ApiScope, Lists;
    if worker.Some? {
      SameUserSameRows(table, id, users[id], scope, worker.value, report, entity, owner);
    }
  }

  lemma BlankImpliesNothing()
    ensures "" !in IMPLICATIONS
  {
  }

  /** Whoever may update all cases of a group may also read all of them. */
  lemma UpdatersRead(u: Account, entity: nat, owner: Option<nat>)
    requires u.level == Group && "case.update.all" in u.permissions
    ensures Selects(CaseReadScope(IMPLICATIONS, u), entity, owner)
  {
    hide Expand, Closed;
    BlankImpliesNothing();
    ExpandIsLeastClosed(IMPLICATIONS, u.permissions);
    assert "case.update.all" in Elements(u.permissions);
    UpdateImpliesRead(Expand(IMPLICATIONS, u.permissions));
  }

  lemma UpdateImpliesRead(granted: set<string>)
    requires Closed(IMPLICATIONS, granted) && "case.update.all" in granted
    ensures "case.read.all" in granted
  {
    assert IMPLICATIONS["case.update.all"][0] == "case.read.all";
  }
}

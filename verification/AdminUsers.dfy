/** Administration of a tenant's users: the guards each operation runs, what it
    then writes, and the invariants that survive every sequence of operations. */
module AdminUsers {
  import opened Sets
  import opened Text

  datatype Status = Active | Inactive | Locked | PendingSetup

  datatype Level = Entity | Group | UserLevel

  datatype Role = Role(code: string, permissions: seq<string>)

  datatype User = User(status: Status, level: Level, roles: set<nat>, entities: set<nat>)

  datatype Error = NoRole | InvalidRole | EntityNeeded | LevelsDiffer | WrongLevel(needed: Level) | EntityLevelEmpty
                 | LastAdmin | Forbidden | PasswordNeeded | PasswordWeak | UnknownUser

  type Users = map<nat, User>

  /** The roles that exist and may be assigned, and the entities that exist. */
  datatype Tenant = Tenant(roles: map<nat, Role>, entities: set<nat>)

  // ----- what a role asks for -----

  const ADMINISTRATION_ROLES: set<string> := {"administration_manager", "platform_super_admin", "tenant_admin"}
  const GROUP_ROLES: set<string> :=
    {"administration_manager", "group_manager", "platform_super_admin", "group_viewer", "report_viewer", "tenant_admin"}
  const TENANT_WIDE: set<string> :=
    {"admin.console.access", "case.delay.manage.all", "case.delay.read.all", "case.read.all", "case.update.all",
     "role.manage", "system.config.manage", "tenant.manage", "user.manage", "user.read.all"}
  const ENTITY_SCOPED: set<string> :=
    {"case.delay.manage.entity", "case.read.entity", "case.update.entity", "planning.manage", "user.read.entity"}
  const OWN_CASES: set<string> := {"case.create", "case.read.assigned", "case.update.assigned"}

  predicate Grants(r: Role, codes: set<string>) {
    exists i :: 0 <= i < |r.permissions| && r.permissions[i] in codes
  }

  predicate NeedsEntityScope(r: Role) {
    !Grants(r, TENANT_WIDE) && Grants(r, ENTITY_SCOPED + {"case.create"})
  }

  function RequiredLevel(r: Role): Option<Level> {
    if r.code in GROUP_ROLES then Some(Group)
    else if r.code == "entity_manager" || r.code == "entity_viewer" then Some(Entity)
    else if r.code == "tender_owner" then Some(UserLevel)
    else if Grants(r, TENANT_WIDE) then Some(Group)
    else if Grants(r, ENTITY_SCOPED) then Some(Entity)
    else if Grants(r, OWN_CASES) then Some(UserLevel)
    else None
  }

  predicate IsAdministration(r: Role) {
    r.code in ADMINISTRATION_ROLES
  }

  predicate HasAdministration(t: Tenant, roles: set<nat>) {
    exists r :: r in roles && r in t.roles && IsAdministration(t.roles[r])
  }

  // ----- the guards -----

  function ToSet<T(==)>(s: seq<T>): set<T> {
    set x | x in s
  }

  function RequiredLevels(t: Tenant, roleIds: set<nat>): set<Level> {
    set r | r in roleIds && r in t.roles && RequiredLevel(t.roles[r]).Some? :: RequiredLevel(t.roles[r]).value
  }

  predicate SomeNeedsEntity(t: Tenant, roleIds: set<nat>) {
    exists r :: r in roleIds && r in t.roles && NeedsEntityScope(t.roles[r])
  }

  function RoleAssignmentError(t: Tenant, roleIds: set<nat>, hasEntities: bool, level: Level): Option<Error> {
    if roleIds == {} then Some(NoRole)
    else if !(roleIds <= t.roles.Keys) then Some(InvalidRole)
    else if SomeNeedsEntity(t, roleIds) && !hasEntities then Some(EntityNeeded)
    else
      var levels := RequiredLevels(t, roleIds);
      if |levels| > 1 then Some(LevelsDiffer)
      else if levels != {} && level !in levels then
        Some(WrongLevel(if Group in levels then Group else if Entity in levels then Entity else UserLevel))
      else None
  }

  function AccessLevelError(level: Level, hasEntities: bool): Option<Error> {
    if level == Entity && !hasEntities then Some(EntityLevelEmpty) else None
  }

  function ActiveAdmins(t: Tenant, users: Users): set<nat> {
    set u | u in users && users[u].status == Active && HasAdministration(t, users[u].roles)
  }

  function LastAdminByStatus(t: Tenant, users: Users, id: nat, next: Status): Option<Error> {
    if next == Active || id !in users || users[id].status != Active || !HasAdministration(t, users[id].roles) then None
    else if |ActiveAdmins(t, users)| <= 1 then Some(LastAdmin)
    else None
  }

  function LastAdminByRoles(t: Tenant, users: Users, id: nat, next: set<nat>): Option<Error> {
    if id !in users || users[id].status != Active || !HasAdministration(t, users[id].roles) then None
    else if HasAdministration(t, next) then None
    else if |ActiveAdmins(t, users)| <= 1 then Some(LastAdmin)
    else None
  }

  function First(a: Option<Error>, b: Option<Error>): Option<Error> {
    if a.Some? then a else b
  }

  /** What the guards see of a user: defaults when there is none. */
  function Seen(users: Users, id: nat): User {
    if id in users then users[id] else User(PendingSetup, UserLevel, {}, {})
  }

  // ----- the operations -----

  datatype Op =
    | Create(level: Level, roleIds: seq<nat>, entityIds: seq<nat>, password: Option<bool>, requested: Status)
    | UpdateStatus(id: nat, next: Status)
    | UpdateAccessLevel(id: nat, newLevel: Level)
    | ReplaceRoles(permitted: bool, id: nat, newRoles: seq<nat>)
    | ReplaceAccess(permitted: bool, id: nat, newLevel: Level, newRoles: seq<nat>, newEntities: seq<nat>)
    | ReplaceEntityScopes(id: nat, newEntities: seq<nat>)

  function EntitiesKept(t: Tenant, entityIds: seq<nat>): set<nat> {
    ToSet(entityIds) * t.entities
  }

  function RolesKept(t: Tenant, roleIds: seq<nat>): set<nat> {
    ToSet(roleIds) * t.roles.Keys
  }

  /** The error an operation raises before it writes anything, if any. */
  function Refusal(t: Tenant, users: Users, op: Op): Option<Error> {
    match op
    case Create(level, roleIds, entityIds, password, requested) =>
      First(AccessLevelError(level, entityIds != []),
      First(RoleAssignmentError(t, ToSet(roleIds), entityIds != [], level),
      First(if requested == Active && password.None? then Some(PasswordNeeded) else None,
            if password == Some(false) then Some(PasswordWeak) else None)))
    case UpdateStatus(id, next) => LastAdminByStatus(t, users, id, next)
    case UpdateAccessLevel(id, level) =>
      var before := Seen(users, id);
      First(AccessLevelError(level, before.entities != {}),
            RoleAssignmentError(t, before.roles, before.entities != {}, level))
    case ReplaceRoles(permitted, id, roleIds) =>
      var before := Seen(users, id);
      if !permitted then Some(Forbidden)
      else
        First(RoleAssignmentError(t, ToSet(roleIds), before.entities != {}, before.level),
        First(LastAdminByRoles(t, users, id, ToSet(roleIds)), if id in users then None else Some(UnknownUser)))
    case ReplaceAccess(permitted, id, level, roleIds, entityIds) =>
      var kept := if level == Group then [] else entityIds;
      if !permitted then Some(Forbidden)
      else
        First(AccessLevelError(level, kept != []),
        First(RoleAssignmentError(t, ToSet(roleIds), kept != [], level),
        First(LastAdminByRoles(t, users, id, ToSet(roleIds)), if id in users then None else Some(UnknownUser))))
    case ReplaceEntityScopes(id, entityIds) =>
      var before := Seen(users, id);
      First(AccessLevelError(before.level, entityIds != []),
            RoleAssignmentError(t, before.roles, entityIds != [], before.level))
  }

  /** The users after an operation; a refused one, and one on an unknown user,
      writes nothing. */
  function Applied(t: Tenant, users: Users, op: Op, newId: nat): Users {
    if Refusal(t, users, op).Some? then users
    else
      match op
      case Create(level, roleIds, entityIds, password, requested) =>
        users[newId := User(requested, level, RolesKept(t, roleIds), EntitiesKept(t, entityIds))]
      case UpdateStatus(id, next) => if id in users then users[id := users[id].(status := next)] else users
      case UpdateAccessLevel(id, level) => if id in users then users[id := users[id].(level := level)] else users
      case ReplaceRoles(_, id, roleIds) => if id in users then users[id := users[id].(roles := RolesKept(t, roleIds))] else users
      case ReplaceAccess(_, id, level, roleIds, entityIds) =>
        if id in users then
          users[id := users[id].(level := level, roles := RolesKept(t, roleIds),
                                 entities := EntitiesKept(t, if level == Group then [] else entityIds))]
        else users
      case ReplaceEntityScopes(id, entityIds) =>
        if id in users then users[id := users[id].(entities := EntitiesKept(t, entityIds))] else users
  }

  // ----- what an operation leaves -----

  /** Roles that fit a user: some, all of them existing, each asking for no other
      level than the user's, and none that needs an entity when there is none. */
  predicate RolesFit(t: Tenant, roles: set<nat>, hasEntities: bool, level: Level) {
    && roles != {} && (forall r :: r in roles ==> r in t.roles)
    && (forall r :: r in roles && r in t.roles ==> RequiredLevel(t.roles[r]).Some? ==> RequiredLevel(t.roles[r]).value == level)
    && (forall r :: r in roles && r in t.roles && NeedsEntityScope(t.roles[r]) ==> hasEntities)
  }

  /** The role guard passes exactly for roles that fit, and each of its refusals has
      its own cause, in order: no role, an unknown one, a missing entity, roles that
      ask for different levels, and roles that all ask for another level. */
  lemma RoleErrorExact(t: Tenant, roles: set<nat>, hasEntities: bool, level: Level)
    ensures RoleAssignmentError(t, roles, hasEntities, level).None? <==> RolesFit(t, roles, hasEntities, level)
    ensures var e := RoleAssignmentError(t, roles, hasEntities, level);
            && (e == Some(NoRole) <==> roles == {})
            && (e == Some(InvalidRole) <==> exists r :: r in roles && r !in t.roles)
            && (e == Some(EntityNeeded) ==> !hasEntities && exists r :: r in roles && r in t.roles && NeedsEntityScope(t.roles[r]))
            && (e == Some(LevelsDiffer) ==>
                  exists r, q ::
                    && r in roles && q in roles && r in t.roles && q in t.roles
                    && RequiredLevel(t.roles[r]).Some? && RequiredLevel(t.roles[q]).Some?
                    && RequiredLevel(t.roles[r]) != RequiredLevel(t.roles[q]))
            && (e.Some? && e.value.WrongLevel? ==>
                  e.value.needed != level && exists r :: r in roles && r in t.roles && RequiredLevel(t.roles[r]) == Some(e.value.needed))
  {
    hide RequiredLevel, NeedsEntityScope;
    var levels := RequiredLevels(t, roles);
    forall r | r in roles && r in t.roles && RequiredLevel(t.roles[r]).Some? ensures RequiredLevel(t.roles[r]).value in levels {}
    if |levels| > 1 {
      var a :| a in levels;
      assert levels - {a} != {} by { if levels - {a} == {} { SubsetSize(levels, {a}); } }
      var b :| b in levels - {a};
    } else if levels != {} {
      var a :| a in levels;
      forall b | b in levels ensures b == a { OneElement(levels, a, b); }
    }
    if RolesFit(t, roles, hasEntities, level) {
      forall l | l in levels ensures l == level {}
      AtMostOne(levels, level);
    }
  }

  lemma SoleAdmin(t: Tenant, users: Users, id: nat)
    ensures id in ActiveAdmins(t, users) && |ActiveAdmins(t, users)| <= 1 <==> ActiveAdmins(t, users) == {id}
  {
    hide HasAdministration;
    var admins := ActiveAdmins(t, users);
    if id in admins && |admins| <= 1 {
      forall x | x in admins ensures x == id { if x != id { SubsetSize({x, id}, admins); } }
    }
  }

  /** A stored list: exactly its members that exist. */
  ghost predicate Kept(ids: seq<nat>, existing: set<nat>, stored: set<nat>) {
    forall x :: x in stored <==> x in ids && x in existing
  }

  ghost predicate OthersSame(before: Users, after: Users, id: nat) {
    after.Keys == before.Keys + {id} && forall k :: k in before && k != id ==> after[k] == before[k]
  }

  /** When an operation is refused, and what it leaves in the users otherwise. */
  ghost predicate OpSays(t: Tenant, before: Users, after: Users, op: Op, newId: nat, error: Option<Error>) {
    && (error.Some? ==> after == before)
    && match op
       case Create(level, roleIds, entityIds, password, requested) =>
         && (error.None? <==>
               && (level == Entity ==> entityIds != []) && RolesFit(t, ToSet(roleIds), entityIds != [], level)
               && (requested == Active ==> password.Some?) && password != Some(false))
         && (error.None? ==>
               && OthersSame(before, after, newId) && after[newId].status == requested && after[newId].level == level
               && Kept(roleIds, t.roles.Keys, after[newId].roles) && Kept(entityIds, t.entities, after[newId].entities))
       case UpdateStatus(id, next) =>
         && (error.Some? <==> next != Active && ActiveAdmins(t, before) == {id}) && (error.Some? ==> error == Some(LastAdmin))
         && (error.None? ==> if id in before then after == before[id := before[id].(status := next)] else after == before)
       case UpdateAccessLevel(id, level) =>
         var u := Seen(before, id);
         && (error.None? <==> (level == Entity ==> u.entities != {}) && RolesFit(t, u.roles, u.entities != {}, level))
         && (error.None? ==> if id in before then after == before[id := before[id].(level := level)] else after == before)
       case ReplaceRoles(permitted, id, roleIds) =>
         var u := Seen(before, id);
         && (error.None? <==>
               && permitted && id in before && RolesFit(t, ToSet(roleIds), u.entities != {}, u.level)
               && (ActiveAdmins(t, before) == {id} ==> HasAdministration(t, ToSet(roleIds))))
         && (error.None? ==>
               && OthersSame(before, after, id) && Kept(roleIds, t.roles.Keys, after[id].roles)
               && after[id].(roles := u.roles) == u)
       case ReplaceAccess(permitted, id, level, roleIds, entityIds) =>
         var scoped := level != Group && entityIds != [];
         && (error.None? <==>
               && permitted && id in before && (level == Entity ==> scoped) && RolesFit(t, ToSet(roleIds), scoped, level)
               && (ActiveAdmins(t, before) == {id} ==> HasAdministration(t, ToSet(roleIds))))
         && (error.None? ==>
               && OthersSame(before, after, id) && after[id].level == level && after[id].status == before[id].status
               && Kept(roleIds, t.roles.Keys, after[id].roles)
               && if level == Group then after[id].entities == {} else Kept(entityIds, t.entities, after[id].entities))
       case ReplaceEntityScopes(id, entityIds) =>
         var u := Seen(before, id);
         && (error.None? <==> (u.level == Entity ==> entityIds != []) && RolesFit(t, u.roles, entityIds != [], u.level))
         && (error.None? && id in before ==>
               && OthersSame(before, after, id) && Kept(entityIds, t.entities, after[id].entities)
               && after[id].(entities := u.entities) == u)
         && (id !in before ==> after == before)
  }

  lemma CreateExact(t: Tenant, users: Users, op: Op, newId: nat)
    requires op.Create?
    ensures OpSays(t, users, Applied(t, users, op, newId), op, newId, Refusal(t, users, op))
  {
    hide RoleAssignmentError, HasAdministration, RolesFit, ActiveAdmins, LastAdminByRoles, LastAdminByStatus;
    RoleErrorExact(t, ToSet(op.roleIds), op.entityIds != [], op.level);
  }

  lemma StatusExact(t: Tenant, users: Users, op: Op, newId: nat)
    requires op.UpdateStatus?
    ensures OpSays(t, users, Applied(t, users, op, newId), op, newId, Refusal(t, users, op))
  {
    hide RoleAssignmentError, HasAdministration, RolesFit, ActiveAdmins, LastAdminByRoles, LastAdminByStatus;
    StatusGuard(t, users, op.id, op.next);
  }

  lemma LevelExact(t: Tenant, users: Users, op: Op, newId: nat)
    requires op.UpdateAccessLevel?
    ensures OpSays(t, users, Applied(t, users, op, newId), op, newId, Refusal(t, users, op))
  {
    hide RoleAssignmentError, HasAdministration, RolesFit, ActiveAdmins, LastAdminByRoles, LastAdminByStatus;
    var u := Seen(users, op.id);
    RoleErrorExact(t, u.roles, u.entities != {}, op.newLevel);
  }

  lemma RolesExact(t: Tenant, users: Users, op: Op, newId: nat)
    requires op.ReplaceRoles?
    ensures OpSays(t, users, Applied(t, users, op, newId), op, newId, Refusal(t, users, op))
  {
    hide RoleAssignmentError, HasAdministration, RolesFit, ActiveAdmins, LastAdminByRoles, LastAdminByStatus;
    var u := Seen(users, op.id);
    RoleErrorExact(t, ToSet(op.newRoles), u.entities != {}, u.level);
    RolesGuard(t, users, op.id, ToSet(op.newRoles));
  }

  lemma AccessExact(t: Tenant, users: Users, op: Op, newId: nat)
    requires op.ReplaceAccess?
    ensures OpSays(t, users, Applied(t, users, op, newId), op, newId, Refusal(t, users, op))
  {
    hide RoleAssignmentError, HasAdministration, RolesFit, ActiveAdmins, LastAdminByRoles, LastAdminByStatus;
    RoleErrorExact(t, ToSet(op.newRoles), op.newLevel != Group && op.newEntities != [], op.newLevel);
    RolesGuard(t, users, op.id, ToSet(op.newRoles));
  }

  lemma ScopesExact(t: Tenant, users: Users, op: Op, newId: nat)
    requires op.ReplaceEntityScopes?
    ensures OpSays(t, users, Applied(t, users, op, newId), op, newId, Refusal(t, users, op))
  {
    hide RoleAssignmentError, HasAdministration, RolesFit, ActiveAdmins, LastAdminByRoles, LastAdminByStatus;
    var u := Seen(users, op.id);
    RoleErrorExact(t, u.roles, op.newEntities != [], u.level);
  }

  lemma OpExact(t: Tenant, users: Users, op: Op, newId: nat)
    ensures OpSays(t, users, Applied(t, users, op, newId), op, newId, Refusal(t, users, op))
  {
    hide OpSays, Applied, Refusal;
    match op
    case Create(_, _, _, _, _) => CreateExact(t, users, op, newId);
    case UpdateStatus(_, _) => StatusExact(t, users, op, newId);
    case UpdateAccessLevel(_, _) => LevelExact(t, users, op, newId);
    case ReplaceRoles(_, _, _) => RolesExact(t, users, op, newId);
    case ReplaceAccess(_, _, _, _, _) => AccessExact(t, users, op, newId);
    case ReplaceEntityScopes(_, _) => ScopesExact(t, users, op, newId);
  }

  lemma StatusGuard(t: Tenant, users: Users, id: nat, next: Status)
    ensures LastAdminByStatus(t, users, id, next) ==
            if next != Active && ActiveAdmins(t, users) == {id} then Some(LastAdmin) else None
  {
    hide HasAdministration;
    SoleAdmin(t, users, id);
  }

  lemma RolesGuard(t: Tenant, users: Users, id: nat, roles: set<nat>)
    ensures LastAdminByRoles(t, users, id, roles) ==
            if ActiveAdmins(t, users) == {id} && !HasAdministration(t, roles) then Some(LastAdmin) else None
  {
    hide HasAdministration;
    SoleAdmin(t, users, id);
  }

  /** The user tables, written in place by the repositories. */
  class Service {
    const tenant: Tenant
    var users: Users

    constructor (tenant: Tenant, users: Users)
      ensures this.tenant == tenant && this.users == users
    {
      this.tenant, this.users := tenant, users;
    }

    method WriteRoles(id: nat, roleIds: seq<nat>)
      requires id in users
      modifies this
      ensures users == old(users)[id := old(users)[id].(roles := RolesKept(tenant, roleIds))]
    {
      ghost var before := users;
      users := users[id := users[id].(roles := {})];
      assert RolesKept(tenant, roleIds[..0]) == {};
      for i := 0 to |roleIds|
        invariant users == before[id := before[id].(roles := RolesKept(tenant, roleIds[..i]))]
      {
        assert roleIds[..i + 1] == roleIds[..i] + [roleIds[i]];
        if roleIds[i] in tenant.roles { users := users[id := users[id].(roles := users[id].roles + {roleIds[i]})]; }
        assert RolesKept(tenant, roleIds[..i + 1]) == RolesKept(tenant, roleIds[..i]) + ({roleIds[i]} * tenant.roles.Keys);
        assert users[id].roles == RolesKept(tenant, roleIds[..i + 1]);
        assert users == before[id := users[id]];
      }
      assert roleIds[..|roleIds|] == roleIds;
    }

    method WriteEntityScopes(id: nat, entityIds: seq<nat>)
      requires id in users
      modifies this
      ensures users == old(users)[id := old(users)[id].(entities := EntitiesKept(tenant, entityIds))]
    {
      ghost var before := users;
      users := users[id := users[id].(entities := {})];
      assert EntitiesKept(tenant, entityIds[..0]) == {};
      for i := 0 to |entityIds|
        invariant users == before[id := before[id].(entities := EntitiesKept(tenant, entityIds[..i]))]
      {
        assert entityIds[..i + 1] == entityIds[..i] + [entityIds[i]];
        if entityIds[i] in tenant.entities { users := users[id := users[id].(entities := users[id].entities + {entityIds[i]})]; }
        assert EntitiesKept(tenant, entityIds[..i + 1]) == EntitiesKept(tenant, entityIds[..i]) + ({entityIds[i]} * tenant.entities);
        assert users[id].entities == EntitiesKept(tenant, entityIds[..i + 1]);
        assert users == before[id := users[id]];
      }
      assert entityIds[..|entityIds|] == entityIds;
    }

    method CreatePendingUser(newId: nat, level: Level, roleIds: seq<nat>, entityIds: seq<nat>,
                             password: Option<bool>, requested: Status)
      returns (error: Option<Error>)
      requires newId !in users
      modifies this
      ensures error == Refusal(tenant, old(users), Create(level, roleIds, entityIds, password, requested))
      ensures users == Applied(tenant, old(users), Create(level, roleIds, entityIds, password, requested), newId)
      ensures OpSays(tenant, old(users), users, Create(level, roleIds, entityIds, password, requested), newId, error)
    {
      hide OpSays;
      OpExact(tenant, users, Create(level, roleIds, entityIds, password, requested), newId);
      hide RoleAssignmentError, AccessLevelError, RolesKept, EntitiesKept, ToSet;
      error := AccessLevelError(level, entityIds != []);
      if error.Some? { return; }
      error := RoleAssignmentError(tenant, ToSet(roleIds), entityIds != [], level);
      if error.Some? { return; }
      if requested == Active && password.None? { return Some(PasswordNeeded); }
      if password == Some(false) { return Some(PasswordWeak); }
      StoreUser(newId, level, roleIds, entityIds, password.Some?, requested);
    }

    /** The writes of a creation: pending first, active once a password is stored,
        and last the requested status. */
    method StoreUser(newId: nat, level: Level, roleIds: seq<nat>, entityIds: seq<nat>, password: bool, requested: Status)
      requires newId !in users && (requested == Active ==> password)
      modifies this
      ensures users ==
              old(users)[newId := User(requested, level, RolesKept(tenant, roleIds), EntitiesKept(tenant, entityIds))]
    {
      hide RolesKept, EntitiesKept;
      ghost var before := users;
      users := users[newId := User(PendingSetup, level, {}, {})];
      WriteRoles(newId, roleIds);
      WriteEntityScopes(newId, entityIds);
      ghost var stored := User(PendingSetup, level, RolesKept(tenant, roleIds), EntitiesKept(tenant, entityIds));
      assert users == before[newId := stored];
      if password { users := users[newId := users[newId].(status := Active)]; }
      if requested != Active { users := users[newId := users[newId].(status := requested)]; }
      assert users == before[newId := stored.(status := requested)];
    }

    method ChangeStatus(id: nat, next: Status) returns (error: Option<Error>)
      modifies this
      ensures error == Refusal(tenant, old(users), UpdateStatus(id, next))
      ensures users == Applied(tenant, old(users), UpdateStatus(id, next), 0)
      ensures ActiveAdmins(tenant, old(users)) != {} ==> ActiveAdmins(tenant, users) != {}
      ensures OpSays(tenant, old(users), users, UpdateStatus(id, next), 0, error)
    {
      hide OpSays;
      OpExact(tenant, users, UpdateStatus(id, next), 0);
      hide HasAdministration;
      if id in users && ActiveAdmins(tenant, users) != {} && LastAdminByStatus(tenant, users, id, next).None? {
        AdminRemains(tenant, users, id, users[id].(status := next));
      }
      error := LastAdminByStatus(tenant, users, id, next);
      if error.None? && id in users { users := users[id := users[id].(status := next)]; }
    }

    method ChangeAccessLevel(id: nat, level: Level) returns (error: Option<Error>)
      modifies this
      ensures error == Refusal(tenant, old(users), UpdateAccessLevel(id, level))
      ensures users == Applied(tenant, old(users), UpdateAccessLevel(id, level), 0)
      ensures OpSays(tenant, old(users), users, UpdateAccessLevel(id, level), 0, error)
    {
      hide OpSays;
      OpExact(tenant, users, UpdateAccessLevel(id, level), 0);
      hide RoleAssignmentError;
      var before := Seen(users, id);
      error := AccessLevelError(level, before.entities != {});
      if error.Some? { return; }
      error := RoleAssignmentError(tenant, before.roles, before.entities != {}, level);
      if error.Some? { return; }
      if id in users { users := users[id := users[id].(level := level)]; }
    }

    method ReplaceAccessAssignment(permitted: bool, id: nat, level: Level, roleIds: seq<nat>, entityIds: seq<nat>)
      returns (error: Option<Error>)
      modifies this
      ensures error == Refusal(tenant, old(users), ReplaceAccess(permitted, id, level, roleIds, entityIds))
      ensures users == Applied(tenant, old(users), ReplaceAccess(permitted, id, level, roleIds, entityIds), 0)
      ensures OpSays(tenant, old(users), users, ReplaceAccess(permitted, id, level, roleIds, entityIds), 0, error)
    {
      hide OpSays;
      OpExact(tenant, users, ReplaceAccess(permitted, id, level, roleIds, entityIds), 0);
      hide RoleAssignmentError, LastAdminByRoles, RolesKept, EntitiesKept;
      if !permitted { return Some(Forbidden); }
      var kept := if level == Group then [] else entityIds;
      error := AccessLevelError(level, kept != []);
      if error.Some? { return; }
      error := RoleAssignmentError(tenant, ToSet(roleIds), kept != [], level);
      if error.Some? { return; }
      error := LastAdminByRoles(tenant, users, id, ToSet(roleIds));
      if error.Some? { return; }
      if id !in users { return Some(UnknownUser); }
      WriteEntityScopes(id, kept);
      users := users[id := users[id].(level := level)];
      WriteRoles(id, roleIds);
    }

    method ReplaceUserRoles(permitted: bool, id: nat, roleIds: seq<nat>) returns (error: Option<Error>)
      modifies this
      ensures error == Refusal(tenant, old(users), ReplaceRoles(permitted, id, roleIds))
      ensures users == Applied(tenant, old(users), ReplaceRoles(permitted, id, roleIds), 0)
      ensures OpSays(tenant, old(users), users, ReplaceRoles(permitted, id, roleIds), 0, error)
    {
      hide OpSays;
      OpExact(tenant, users, ReplaceRoles(permitted, id, roleIds), 0);
      hide RoleAssignmentError, LastAdminByRoles, RolesKept, EntitiesKept;
      if !permitted { return Some(Forbidden); }
      var before := Seen(users, id);
      error := RoleAssignmentError(tenant, ToSet(roleIds), before.entities != {}, before.level);
      if error.Some? { return; }
      error := LastAdminByRoles(tenant, users, id, ToSet(roleIds));
      if error.Some? { return; }
      if id !in users { return Some(UnknownUser); }
      WriteRoles(id, roleIds);
    }

    method ReplaceScopes(id: nat, entityIds: seq<nat>) returns (error: Option<Error>)
      modifies this
      ensures error == Refusal(tenant, old(users), ReplaceEntityScopes(id, entityIds))
      ensures users == Applied(tenant, old(users), ReplaceEntityScopes(id, entityIds), 0)
      ensures OpSays(tenant, old(users), users, ReplaceEntityScopes(id, entityIds), 0, error)
    {
      hide OpSays;
      OpExact(tenant, users, ReplaceEntityScopes(id, entityIds), 0);
      hide RoleAssignmentError, RolesKept, EntitiesKept;
      var before := Seen(users, id);
      error := AccessLevelError(before.level, entityIds != []);
      if error.Some? { return; }
      error := RoleAssignmentError(tenant, before.roles, entityIds != [], before.level);
      if error.Some? { return; }
      if id in users { WriteEntityScopes(id, entityIds); }
    }
  }

  // ----- the invariants -----

  /** A user has a role, only roles that exist, the level every role that requires
      one requires, and an entity whenever the level or a role needs one. */
  predicate UserOk(t: Tenant, u: User) {
    && u.roles != {} && u.roles <= t.roles.Keys
    && (forall r :: r in u.roles && r in t.roles && RequiredLevel(t.roles[r]).Some? ==> RequiredLevel(t.roles[r]).value == u.level)
    && (u.level == Entity || SomeNeedsEntity(t, u.roles) ==> u.entities != {})
  }

  predicate Inv(t: Tenant, users: Users) {
    ActiveAdmins(t, users) != {} && forall u :: u in users ==> UserOk(t, users[u])
  }

  /** The role guard passes exactly for assignments that keep a user in order. */
  lemma RoleGuardExact(t: Tenant, u: User)
    ensures RoleAssignmentError(t, u.roles, u.entities != {}, u.level).None? && AccessLevelError(u.level, u.entities != {}).None? <==>
            UserOk(t, u)
  {
    hide RoleAssignmentError;
    RoleErrorExact(t, u.roles, u.entities != {}, u.level);
  }

  lemma OneElement(levels: set<Level>, a: Level, b: Level)
    requires |levels| <= 1 && a in levels && b in levels
    ensures a == b
  {
    if a != b {
      assert {a, b} <= levels;
      SubsetSize({a, b}, levels);
    }
  }

  lemma AtMostOne(levels: set<Level>, l: Level)
    requires forall x :: x in levels ==> x == l
    ensures |levels| <= 1
  {
    SubsetSize(levels, {l});
  }

  /** All entity ids named by an operation exist. */
  predicate ValidEntities(t: Tenant, op: Op) {
    match op
    case Create(_, _, entityIds, _, _) => ToSet(entityIds) <= t.entities
    case ReplaceAccess(_, _, _, _, entityIds) => ToSet(entityIds) <= t.entities
    case ReplaceEntityScopes(_, entityIds) => ToSet(entityIds) <= t.entities
    case _ => true
  }

  lemma NonEmptySet<T>(s: seq<T>)
    ensures s != [] <==> ToSet(s) != {}
  {
    if s != [] { assert s[0] in ToSet(s); }
  }

  /** Changing one user leaves an active administrator, if the guard saw to it. */
  lemma AdminRemains(t: Tenant, users: Users, id: nat, u: User)
    requires ActiveAdmins(t, users) != {}
    requires id !in users || |ActiveAdmins(t, users)| > 1 || id !in ActiveAdmins(t, users)
             || (u.status == Active && HasAdministration(t, u.roles))
    ensures ActiveAdmins(t, users[id := u]) != {}
  {
    hide HasAdministration;
    var admins := ActiveAdmins(t, users);
    if id in admins && |admins| > 1 {
      var others := admins - {id};
      assert others != {} by { if others == {} { SubsetSize(admins, {id}); } }
      var other :| other in others;
      assert other in ActiveAdmins(t, users[id := u]);
    } else {
      var admin :| admin in admins;
      assert admin in ActiveAdmins(t, users[id := u]);
    }
  }

  lemma ApplyKeeps(t: Tenant, users: Users, op: Op, newId: nat)
    requires Inv(t, users) && ValidEntities(t, op) && (op.Create? ==> newId !in users)
    ensures Inv(t, Applied(t, users, op, newId))
  {
    hide UserOk, HasAdministration, RoleAssignmentError, AccessLevelError, ActiveAdmins;
    if Refusal(t, users, op).None? {
      match op
      case Create(level, roleIds, entityIds, _, requested) =>
        GuardedUser(t, User(requested, level, RolesKept(t, roleIds), EntitiesKept(t, entityIds)), roleIds, entityIds);
        CreatedKeeps(t, users, op, newId);
      case UpdateStatus(id, next) => StatusKeeps(t, users, id, next);
      case UpdateAccessLevel(id, level) =>
        if id in users { LevelKeeps(t, users, id, level); }
      case ReplaceRoles(_, id, roleIds) => RolesKeep(t, users, op);
      case ReplaceAccess(_, id, level, roleIds, entityIds) => AccessKeeps(t, users, op);
      case ReplaceEntityScopes(id, entityIds) =>
        if id in users { ScopesKeep(t, users, id, entityIds); }
    }
  }

  /** Lists that pass both guards make an orderly user once stored. */
  lemma GuardedUser(t: Tenant, u: User, roleIds: seq<nat>, entityIds: seq<nat>)
    requires u.roles == RolesKept(t, roleIds) && u.entities == EntitiesKept(t, entityIds) && ToSet(entityIds) <= t.entities
    requires RoleAssignmentError(t, ToSet(roleIds), entityIds != [], u.level).None? && AccessLevelError(u.level, entityIds != []).None?
    ensures UserOk(t, u)
  {
    hide UserOk, RequiredLevel, NeedsEntityScope, SomeNeedsEntity, RequiredLevels;
    NonEmptySet(entityIds);
    assert u.entities == ToSet(entityIds);
    assert u.roles == ToSet(roleIds);
    RoleGuardExact(t, u);
  }

  lemma CreatedKeeps(t: Tenant, users: Users, op: Op, newId: nat)
    requires Inv(t, users) && op.Create? && newId !in users
    requires var u := User(op.requested, op.level, RolesKept(t, op.roleIds), EntitiesKept(t, op.entityIds)); UserOk(t, u)
    ensures Inv(t, users[newId := User(op.requested, op.level, RolesKept(t, op.roleIds), EntitiesKept(t, op.entityIds))])
  {
    hide UserOk, HasAdministration, ActiveAdmins;
    var u := User(op.requested, op.level, RolesKept(t, op.roleIds), EntitiesKept(t, op.entityIds));
    AdminRemains(t, users, newId, u);
  }

  lemma StatusKeeps(t: Tenant, users: Users, id: nat, next: Status)
    requires Inv(t, users) && LastAdminByStatus(t, users, id, next).None?
    ensures Inv(t, Applied(t, users, UpdateStatus(id, next), 0))
  {
    hide HasAdministration, SomeNeedsEntity, RequiredLevel;
    if id in users {
      AdminRemains(t, users, id, users[id].(status := next));
    }
  }

  lemma LevelKeeps(t: Tenant, users: Users, id: nat, level: Level)
    requires Inv(t, users) && id in users && Refusal(t, users, UpdateAccessLevel(id, level)).None?
    ensures Inv(t, users[id := users[id].(level := level)])
  {
    hide UserOk, HasAdministration, RoleAssignmentError, AccessLevelError;
    var u := users[id].(level := level);
    RoleGuardExact(t, u);
    AdminUnchanged(t, users, id, u);
  }

  /** A change that keeps status and roles keeps the administrators. */
  lemma AdminUnchanged(t: Tenant, users: Users, id: nat, u: User)
    requires ActiveAdmins(t, users) != {} && id in users && u.status == users[id].status && u.roles == users[id].roles
    ensures ActiveAdmins(t, users[id := u]) != {}
  {
    hide HasAdministration;
    AdminRemains(t, users, id, u);
  }

  lemma ScopesKeep(t: Tenant, users: Users, id: nat, entityIds: seq<nat>)
    requires Inv(t, users) && id in users && ToSet(entityIds) <= t.entities
    requires Refusal(t, users, ReplaceEntityScopes(id, entityIds)).None?
    ensures Inv(t, users[id := users[id].(entities := EntitiesKept(t, entityIds))])
  {
    hide UserOk, HasAdministration, RoleAssignmentError, AccessLevelError;
    var u := users[id].(entities := EntitiesKept(t, entityIds));
    NonEmptySet(entityIds);
    assert u.entities == ToSet(entityIds);
    RoleGuardExact(t, u);
    AdminUnchanged(t, users, id, u);
  }

  lemma RolesKeep(t: Tenant, users: Users, op: Op)
    requires Inv(t, users) && op.ReplaceRoles? && Refusal(t, users, op).None?
    ensures Inv(t, Applied(t, users, op, 0))
  {
    hide UserOk, HasAdministration, SomeNeedsEntity, RequiredLevels, AccessLevelError;
    if op.id in users {
      var u := users[op.id].(roles := RolesKept(t, op.newRoles));
      assert ToSet(op.newRoles) <= t.roles.Keys;
      assert u.roles == ToSet(op.newRoles);
      assert UserOk(t, users[op.id]);
      RoleGuardExact(t, users[op.id]);
      RoleGuardExact(t, u);
      RolesLeaveAdmin(t, users, op.id, u);
    }
  }

  lemma RolesLeaveAdmin(t: Tenant, users: Users, id: nat, u: User)
    requires ActiveAdmins(t, users) != {} && id in users && u.status == users[id].status
    requires LastAdminByRoles(t, users, id, u.roles).None?
    ensures ActiveAdmins(t, users[id := u]) != {}
  {
    hide HasAdministration;
    AdminRemains(t, users, id, u);
  }

  lemma AccessKeeps(t: Tenant, users: Users, op: Op)
    requires Inv(t, users) && op.ReplaceAccess? && ValidEntities(t, op) && Refusal(t, users, op).None?
    ensures Inv(t, Applied(t, users, op, 0))
  {
    hide UserOk, HasAdministration, SomeNeedsEntity, RequiredLevels, ActiveAdmins;
    if op.id in users {
      var kept := if op.newLevel == Group then [] else op.newEntities;
      var u := users[op.id].(level := op.newLevel, roles := RolesKept(t, op.newRoles), entities := EntitiesKept(t, kept));
      assert u.roles == ToSet(op.newRoles);
      GuardedUser(t, u, op.newRoles, kept);
      RolesLeaveAdmin(t, users, op.id, u);
    }
  }

  function Run(t: Tenant, users: Users, ops: seq<Op>, newId: nat): Users
    decreases |ops|
  {
    if ops == [] then users else Run(t, Applied(t, users, ops[0], newId), ops[1..], newId + 1)
  }

  /** After every sequence of operations that names existing entities there is an
      active administrator, and every user is in order. */
  lemma {:induction false} RunKeeps(t: Tenant, users: Users, ops: seq<Op>, newId: nat)
    requires Inv(t, users) && (forall u :: u in users ==> u < newId)
    requires forall i :: 0 <= i < |ops| ==> ValidEntities(t, ops[i])
    ensures Inv(t, Run(t, users, ops, newId))
    decreases |ops|
  {
    hide Inv, Refusal, ValidEntities;
    if ops != [] {
      ApplyKeeps(t, users, ops[0], newId);
      RunKeeps(t, Applied(t, users, ops[0], newId), ops[1..], newId + 1);
    }
  }

  // ----- when an operation does not name existing entities -----

  /** Replacing a user's scopes by ids that pass the guard keeps the user in order
      exactly when an existing one is among them or none is needed: the guard
      counts the ids, the insert drops those of entities that do not exist. */
  lemma UnknownEntitiesExact(t: Tenant, users: Users, id: nat, entityIds: seq<nat>)
    requires Inv(t, users) && id in users && Refusal(t, users, ReplaceEntityScopes(id, entityIds)).None?
    ensures Inv(t, Applied(t, users, ReplaceEntityScopes(id, entityIds), 0)) <==>
            (users[id].level == Entity || SomeNeedsEntity(t, users[id].roles) ==>
               exists e :: e in entityIds && e in t.entities)
  {
    hide HasAdministration, RoleAssignmentError, AccessLevelError, SomeNeedsEntity, RequiredLevel;
    var u := users[id].(entities := EntitiesKept(t, entityIds));
    AdminUnchanged(t, users, id, u);
    var after := users[id := u];
    assert UserOk(t, users[id]) && after[id] == u && forall k :: k in after && k != id ==> after[k] == users[k];
    assert EntitiesKept(t, entityIds) != {} <==> exists e :: e in entityIds && e in t.entities by {
      if e :| e in entityIds && e in t.entities { assert e in EntitiesKept(t, entityIds); }
    }
  }

  /** The last active administrator, and only that one, cannot be deactivated. */
  lemma LastAdminExact(t: Tenant, users: Users, id: nat, next: Status)
    ensures Refusal(t, users, UpdateStatus(id, next)) == Some(LastAdmin) <==>
            next != Active && ActiveAdmins(t, users) == {id}
  {
    hide HasAdministration;
    var admins := ActiveAdmins(t, users);
    if id in admins {
      if |admins| <= 1 {
        forall x | x in admins ensures x == id {
          if x != id { SubsetSize({x, id}, admins); }
        }
      }
    }
  }
}

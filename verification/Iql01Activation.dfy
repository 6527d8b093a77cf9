/**
 * Letting the verifier role judge identity questions, on the condition that nobody who judges can
 * also teach.
 */
module Iql01Activation {
  import opened Outcomes
  import opened AccessTables
  import opened Bp02Activation

  const APPROVE := "AHSP_RESOURCE_IDENTITY_QUESTION_APPROVE"
  const TEACH := "AHSP_RESOURCE_IDENTITY_DECIDE"

  datatype Target2 = Target2(workspaceId: string, organizationId: string)

  /** Equal plans stand for equal digests. */
  datatype HolderPlan = HolderPlan(target: Target2, permissionId: Option<string>, roleId: string, granted: bool,
                                   holders: set<string>)

  datatype HolderStop =
    | NoWorkspace | WrongOrganization | NoRole | RoleHasPublish | RoleCanTeach | GrantedElsewhere
    | NoActiveHolder | HolderTeaches | Drift | PermissionRace | GrantRace | StateUnproven

  predicate Unexpired(a: Assignment, now: int) {
    a.isActive && (a.endDate.None? || now <= a.endDate.value)
  }

  /** The accounts assigned to the role by the rules the resolver applies. */
  function Holders(db: Db, ws: string, roleId: string, now: int): set<string> {
    set m | m in db.memberships && m.workspaceId == ws && m.active && Seated(db.assignments, m.id, roleId, now) :: m.accountId
  }

  predicate Seated(xs: seq<Assignment>, membershipId: string, roleId: string, now: int) {
    exists a | a in xs :: a.membershipId == membershipId && a.roleId == roleId && Unexpired(a, now)
  }

  /** The account teaches through some unexpired assignment, its membership active or not. */
  predicate Teaches(db: Db, ws: string, accountId: string, now: int) {
    exists m | m in db.memberships ::
      m.workspaceId == ws && m.accountId == accountId
      && exists a | a in db.assignments :: a.membershipId == m.id && Unexpired(a, now) && RoleGrants(db, a.roleId, TEACH)
  }

  /** Another role of the workspace already grants the permission. */
  predicate Elsewhere(db: Db, ws: string, roleId: string, permissionId: string) {
    exists g | g in db.grants ::
      g.permissionId == permissionId && exists r | r in db.roles :: r.id == g.roleId && r.workspaceId == ws && r.id != roleId
  }

  function PlanFor(db: Db, t: Target2, now: int): Result<HolderPlan, HolderStop> {
    var role, permission := FindRole(db.roles, t.workspaceId, RoleCode(Verifier)), Find(db.permissions, APPROVE);
    if t.workspaceId !in db.organizations then Err(NoWorkspace)
    else if db.organizations[t.workspaceId] != t.organizationId then Err(WrongOrganization)
    else if role.None? then Err(NoRole)
    else if RoleGrants(db, role.value.id, PUBLISH) then Err(RoleHasPublish)
    else if RoleGrants(db, role.value.id, TEACH) then Err(RoleCanTeach)
    else if permission.Some? && Elsewhere(db, t.workspaceId, role.value.id, permission.value.id) then Err(GrantedElsewhere)
    else
      var holders := Holders(db, t.workspaceId, role.value.id, now);
      if holders == {} then Err(NoActiveHolder)
      else if exists a | a in holders :: Teaches(db, t.workspaceId, a, now) then Err(HolderTeaches)
      else Ok(HolderPlan(t, IdOfPermission(permission), role.value.id,
                         permission.Some? && Grant(role.value.id, permission.value.id) in db.grants, holders))
  }

  function IdOfPermission(p: Option<Permission>): Option<string> {
    if p.Some? then Some(p.value.id) else None
  }

  function Changes(p: HolderPlan): nat {
    (if p.permissionId.None? then 1 else 0) + (if p.granted then 0 else 1)
  }

  // ---------------------------------------------------------------- the two inserts

  function WithApprove(db: Db, id: string): Db {
    if Find(db.permissions, APPROVE).Some? then db
    else db.(permissions := db.permissions + [Permission(id, APPROVE, "AHSP Resource Identity Question Approve", None)])
  }

  function WithApproveGrant(db: Db, roleId: string): Db {
    var p := Find(db.permissions, APPROVE);
    if p.None? || Grant(roleId, p.value.id) in db.grants then db
    else db.(grants := db.grants + [Grant(roleId, p.value.id)])
  }

  lemma TeachIsNotApprove()
    ensures APPROVE != TEACH && APPROVE != PUBLISH && APPROVE !in BASELINE && TEACH !in BASELINE
  {
    assert |APPROVE| == 39 && |TEACH| == 29 && |PUBLISH| == 19;
    assert |"BASIC_PRICE_VIEW"| == 16 && |"BASIC_PRICE_IMPORT"| == 18 && |"BASIC_PRICE_RESOLVE"| == 19
           && |"BASIC_PRICE_SUBMIT"| == 18;
  }

  /** A permission nobody holds yet grants nobody anything. */
  lemma NewPermissionGrantsNothing(db: Db, id: string, roleId: string, code: string)
    requires DbOk(db) && Unused(db, id)
    ensures RoleGrants(WithApprove(db, id), roleId, code) <==> RoleGrants(db, roleId, code)
  {
    var db' := WithApprove(db, id);
    if RoleGrants(db', roleId, code) {
      var g, p := GrantedCode(db', roleId, code);
      assert FindById(db.permissions, g.permissionId).Some?;
    }
    if RoleGrants(db, roleId, code) {
      var g, p := GrantedCode(db, roleId, code);
      assert p in db'.permissions;
    }
  }

  /** The new grant gives the role the one code and nothing else changes hands. */
  lemma ApproveGrantGivesOne(db: Db, role: string, roleId: string, code: string)
    requires DbOk(db) && code != APPROVE
    ensures RoleGrants(WithApproveGrant(db, role), roleId, code) <==> RoleGrants(db, roleId, code)
  {
    var db' := WithApproveGrant(db, role);
    if RoleGrants(db', roleId, code) {
      var g, p := GrantedCode(db', roleId, code);
      assert g in db.grants;
    }
    if RoleGrants(db, roleId, code) {
      var g, p := GrantedCode(db, roleId, code);
      assert g in db'.grants;
    }
  }

  function Applied(db: Db, id: string, roleId: string): Db {
    WithApproveGrant(WithApprove(db, id), roleId)
  }

  lemma WithApproveOk(db: Db, id: string)
    requires DbOk(db) && Unused(db, id)
    ensures DbOk(WithApprove(db, id)) && Find(WithApprove(db, id).permissions, APPROVE).Some?
    ensures Find(db.permissions, APPROVE).None? ==>
              Find(WithApprove(db, id).permissions, APPROVE).value.id == id
              && forall g | g in db.grants :: g.permissionId != id
  {
    var p := Permission(id, APPROVE, "AHSP Resource Identity Question Approve", None);
    if Find(db.permissions, APPROVE).None? {
      InsertPermissionOk(db.permissions, db.grants, p);
      FindAppended(db.permissions, p, APPROVE);
      assert forall g | g in db.grants :: FindById(db.permissions, g.permissionId).Some? && g.permissionId != id;
    }
  }

  lemma WithApproveGrantOk(db: Db, r: Role)
    requires DbOk(db) && r in db.roles && Find(db.permissions, APPROVE).Some?
    ensures DbOk(WithApproveGrant(db, r.id))
  {
    var p := Find(db.permissions, APPROVE).value;
    assert FindById(db.permissions, p.id).Some? && HasRole(db.roles, r.id);
    if Grant(r.id, p.id) !in db.grants {
      InsertGrantOk(db.permissions, db.grants, Grant(r.id, p.id));
    }
  }

  /** Nothing but the one grant moved: the plan re-derives from the new state, complete. */
  lemma AppliedReplans(db: Db, t: Target2, now: int, id: string)
    requires DbOk(db) && Unused(db, id) && PlanFor(db, t, now).Ok?
    ensures var before := PlanFor(db, t, now).value;
            var db' := Applied(db, id, before.roleId);
            var after := PlanFor(db', t, now);
            && DbOk(db')
            && after.Ok? && after.value.permissionId.Some? && after.value.granted
            && after.value.roleId == before.roleId && after.value.holders == before.holders
            && |db'.permissions| - |db.permissions| + |db'.grants| - |db.grants| == Changes(before)
  {
    hide DbOk, Unused, Teaches, RoleGrants, Holders;
    var before := PlanFor(db, t, now).value;
    var role := FindRole(db.roles, t.workspaceId, RoleCode(Verifier)).value;
    var d1 := WithApprove(db, id);
    var db' := Applied(db, id, role.id);
    TeachIsNotApprove();
    WithApproveOk(db, id);
    WithApproveGrantOk(d1, role);
    forall r, c | c == TEACH || c == PUBLISH
      ensures RoleGrants(db', r, c) <==> RoleGrants(db, r, c)
    {
      NewPermissionGrantsNothing(db, id, r, c);
      ApproveGrantGivesOne(d1, role.id, r, c);
    }
    HoldersUnmoved(db, db', t.workspaceId, role.id, now);
    forall a | a in before.holders
      ensures !Teaches(db', t.workspaceId, a, now)
    {
      assert !Teaches(db, t.workspaceId, a, now);
      TeachesUnmoved(db, db', t.workspaceId, a, now);
    }
    StillNowhereElse(db, d1, t.workspaceId, role.id, id);
  }

  lemma HoldersUnmoved(db: Db, db': Db, ws: string, roleId: string, now: int)
    requires db'.memberships == db.memberships && db'.assignments == db.assignments
    ensures Holders(db', ws, roleId, now) == Holders(db, ws, roleId, now)
  {
  }

  /** The permission was granted to no other role of the workspace, and still is not. */
  lemma StillNowhereElse(db: Db, d1: Db, ws: string, roleId: string, id: string)
    requires DbOk(db) && Unused(db, id) && d1 == WithApprove(db, id)
    requires var p := Find(db.permissions, APPROVE); p.Some? ==> !Elsewhere(db, ws, roleId, p.value.id)
    ensures var p := Find(d1.permissions, APPROVE);
            p.Some? && !Elsewhere(WithApproveGrant(d1, roleId), ws, roleId, p.value.id)
  {
    WithApproveOk(db, id);
  }

  lemma TeachesUnmoved(db: Db, db': Db, ws: string, a: string, now: int)
    requires db'.memberships == db.memberships && db'.assignments == db.assignments
    requires forall r :: RoleGrants(db', r, TEACH) <==> RoleGrants(db, r, TEACH)
    ensures Teaches(db', ws, a, now) <==> Teaches(db, ws, a, now)
  {
  }

  // ---------------------------------------------------------------- judge and teacher

  /** A live assignment of the account in this workspace is to a role of another one that grants the code. */
  ghost predicate ThroughForeignRole(db: Db, ws: string, accountId: string, asOf: int, code: string) {
    exists m, a, r :: ForeignSeat(db, ws, accountId, asOf, m, a, r) && RoleGrants(db, r.id, code)
  }

  predicate ForeignSeat(db: Db, ws: string, accountId: string, asOf: int, m: Membership, a: Assignment, r: Role) {
    && m in db.memberships && m.workspaceId == ws && m.accountId == accountId && m.active
    && a in db.assignments && a.membershipId == m.id && Unexpired(a, asOf)
    && r in db.roles && r.id == a.roleId && r.workspaceId != ws
  }

  /**
   * Where the plan derives, the resolver lets an account both judge and teach, at that instant or any
   * later one, exactly when the account teaches and judges through a role of another workspace: the
   * one kind of grant the plan does not look at.
   */
  lemma JudgesDoNotTeach(db: Db, t: Target2, now: int, asOf: int, accountId: string)
    requires DbOk(db) && PlanFor(db, t, now).Ok? && now <= asOf
    ensures Resolves(db, accountId, t.workspaceId, asOf, APPROVE) && Resolves(db, accountId, t.workspaceId, asOf, TEACH)
            <==> ThroughForeignRole(db, t.workspaceId, accountId, asOf, APPROVE)
                 && Resolves(db, accountId, t.workspaceId, asOf, TEACH)
  {
    hide DbOk, PlanFor, RoleGrants;
    if Resolves(db, accountId, t.workspaceId, asOf, APPROVE) && Resolves(db, accountId, t.workspaceId, asOf, TEACH) {
      JudgesThroughForeignRole(db, t, now, asOf, accountId);
    }
  }

  lemma JudgesThroughForeignRole(db: Db, t: Target2, now: int, asOf: int, accountId: string)
    requires DbOk(db) && PlanFor(db, t, now).Ok? && now <= asOf
    requires Resolves(db, accountId, t.workspaceId, asOf, APPROVE) && Resolves(db, accountId, t.workspaceId, asOf, TEACH)
    ensures ThroughForeignRole(db, t.workspaceId, accountId, asOf, APPROVE)
  {
    hide Holders, RoleGrants, Resolves, Elsewhere;
    TeachIsNotApprove();
    var ws := t.workspaceId;
    var role := FindRole(db.roles, ws, RoleCode(Verifier)).value;
    var m, a := ResolvedThrough(db, accountId, ws, asOf, APPROVE);
    var n, b := ResolvedThrough(db, accountId, ws, asOf, TEACH);
    assert Teaches(db, ws, accountId, now) by {
      assert b in db.assignments && b.membershipId == n.id && Unexpired(b, now);
    }
    assert HasRole(db.roles, a.roleId);
    var r :| r in db.roles && r.id == a.roleId;
    if r.workspaceId == ws {
      GrantedHereOnlyToRole(db, t, now, r);
      SeatedIsHolder(db, ws, role.id, now, m, a);
    } else {
      assert ForeignSeat(db, ws, accountId, asOf, m, a, r);
    }
  }

  lemma SeatedIsHolder(db: Db, ws: string, roleId: string, now: int, m: Membership, a: Assignment)
    requires m in db.memberships && m.workspaceId == ws && m.active
    requires a in db.assignments && a.membershipId == m.id && a.roleId == roleId && Unexpired(a, now)
    ensures m.accountId in Holders(db, ws, roleId, now)
  {
    assert Seated(db.assignments, m.id, roleId, now);
  }

  lemma ResolvedThrough(db: Db, accountId: string, ws: string, now: int, code: string) returns (m: Membership, a: Assignment)
    requires code !in BASELINE && Resolves(db, accountId, ws, now, code)
    ensures m in db.memberships && m.accountId == accountId && m.workspaceId == ws && m.active
    ensures a in db.assignments && a.membershipId == m.id && Unexpired(a, now) && RoleGrants(db, a.roleId, code)
  {
    m :| m in db.memberships && m.accountId == accountId && m.workspaceId == ws && m.active
         && exists a | a in db.assignments ::
              a.membershipId == m.id && a.isActive && (a.endDate.None? || now <= a.endDate.value)
              && RoleGrants(db, a.roleId, code);
    a :| a in db.assignments && a.membershipId == m.id && a.isActive && (a.endDate.None? || now <= a.endDate.value)
         && RoleGrants(db, a.roleId, code);
  }

  /** Within the workspace only the verifier role grants the code. */
  lemma GrantedHereOnlyToRole(db: Db, t: Target2, now: int, r: Role)
    requires DbOk(db) && PlanFor(db, t, now).Ok?
    requires r in db.roles && r.workspaceId == t.workspaceId && RoleGrants(db, r.id, APPROVE)
    ensures r == FindRole(db.roles, t.workspaceId, RoleCode(Verifier)).value
  {
    var g, p := GrantedCode(db, r.id, APPROVE);
    assert p == Find(db.permissions, APPROVE).value;
  }

  /** Judge and teacher in one. */
  predicate Both(db: Db, accountId: string, ws: string, asOf: int) {
    Resolves(db, accountId, ws, asOf, APPROVE) && Resolves(db, accountId, ws, asOf, TEACH)
  }

  class HolderDatabase {
    var db: Db

    constructor (db: Db)
      ensures this.db == db
    {
      this.db := db;
    }

    /**
     * The serializable transaction. It commits exactly on the reviewed plan, adds exactly the planned
     * rows, and leaves nobody who can both judge and teach from then on, roles of other workspaces
     * apart; the three guards behind its inserts never fire.
     */
    method Apply(t: Target2, expected: HolderPlan, now: int, freshId: string) returns (r: Result<nat, HolderStop>)
      requires DbOk(db) && Unused(db, freshId)
      modifies this
      ensures DbOk(db)
      ensures r.Ok? <==> PlanFor(old(db), t, now) == Ok(expected)
      ensures r.Err? ==> db == old(db) && r.error !in {PermissionRace, GrantRace, StateUnproven}
      ensures r.Ok? ==> db == Applied(old(db), freshId, expected.roleId) && r.value == Changes(expected)
      ensures r.Ok? ==> forall a, asOf | now <= asOf && Both(db, a, t.workspaceId, asOf) ::
                          ThroughForeignRole(db, t.workspaceId, a, asOf, APPROVE)
    {
      hide DbOk, Unused, Resolves, ThroughForeignRole, Holders, Teaches, RoleGrants, Elsewhere;
      var before := PlanFor(db, t, now);
      if before.Err? {
        return Err(before.error);
      }
      if before.value != expected {
        return Err(Drift);
      }
      AppliedReplans(db, t, now, freshId);
      WithApproveOk(db, freshId);
      var changes := 0;
      var permissionId := before.value.permissionId;
      if permissionId.None? {
        permissionId := Some(freshId);
        db := db.(permissions := db.permissions
                                 + [Permission(freshId, APPROVE, "AHSP Resource Identity Question Approve", None)]);
        changes := changes + 1;
      }
      if !before.value.granted {
        db := db.(grants := db.grants + [Grant(before.value.roleId, permissionId.value)]);
        changes := changes + 1;
      }
      assert db == Applied(old(db), freshId, expected.roleId);
      var after := PlanFor(db, t, now);
      if after.Err? || after.value.permissionId.None? || !after.value.granted || after.value.roleId != before.value.roleId {
        assert false;
      }
      forall a, asOf | now <= asOf && Both(db, a, t.workspaceId, asOf)
        ensures ThroughForeignRole(db, t.workspaceId, a, asOf, APPROVE)
      {
        JudgesDoNotTeach(db, t, now, asOf, a);
      }
      return Ok(changes);
    }
  }

  // ---------------------------------------------------------------- a judge who teaches

  /** A verifier who does not teach, and a second account seated in a role of another workspace that grants both codes. */
  function ForeignTeacher(): Db {
    Db(map["w" := "o"],
       [Permission("1", APPROVE, "Approve", None), Permission("2", TEACH, "Teach", None)],
       [Role("v", "w", RoleCode(Verifier)), Role("f", "x", "ELSEWHERE")],
       [Grant("f", "1"), Grant("f", "2")],
       [Account("h", "h"), Account("j", "j")],
       [Membership("mh", "h", "w", true), Membership("mj", "j", "w", true)],
       [],
       [Assignment("mh", "v", true, None), Assignment("mj", "f", true, None)])
  }

  lemma ForeignTablesOk()
    ensures TablesOk(ForeignTeacher().permissions, ForeignTeacher().grants)
  {
    TeachIsNotApprove();
    var ps := ForeignTeacher().permissions;
    assert FindById(ps, "1") == Some(ps[0]);
    assert FindById(ps, "2") == Some(ps[1]) by {
      assert ps[1..] == [ps[1]];
    }
  }

  lemma ForeignPeopleOk()
    ensures AccountsOk(ForeignTeacher().accounts)
    ensures MembershipsOk(ForeignTeacher().memberships, ForeignTeacher().accounts)
  {
    var db := ForeignTeacher();
    assert db.accounts[0] in db.accounts && db.accounts[1] in db.accounts;
    assert HasAccount(db.accounts, "h") && HasAccount(db.accounts, "j");
  }

  lemma ForeignRolesOk()
    ensures RolesOk(ForeignTeacher().roles) && HasRole(ForeignTeacher().roles, "v") && HasRole(ForeignTeacher().roles, "f")
  {
    hide RoleCode;
    var rs := ForeignTeacher().roles;
    assert rs[0] in rs && rs[1] in rs;
    assert forall r | r in rs :: r == rs[0] || r == rs[1];
    assert "v" != "f" && "w" != "x";
  }

  lemma ForeignRowsKnown()
    ensures GrantsKnown(ForeignTeacher().grants, ForeignTeacher().roles)
    ensures AssignmentsKnown(ForeignTeacher().assignments, ForeignTeacher().memberships, ForeignTeacher().roles)
  {
    hide RoleCode, RolesOk, HasRole;
    ForeignRolesOk();
    var ms := ForeignTeacher().memberships;
    assert ms[0] in ms && ms[1] in ms;
    assert HasMembership(ms, "mh") && HasMembership(ms, "mj");
  }

  lemma ForeignTeacherOk()
    ensures DbOk(ForeignTeacher())
  {
    hide TablesOk, RolesOk, AccountsOk, MembershipsOk, GrantsKnown, AssignmentsKnown;
    ForeignTablesOk();
    ForeignPeopleOk();
    ForeignRolesOk();
    ForeignRowsKnown();
  }

  lemma ForeignGrants()
    ensures forall c :: !RoleGrants(ForeignTeacher(), "v", c)
    ensures RoleGrants(ForeignTeacher(), "f", APPROVE) && RoleGrants(ForeignTeacher(), "f", TEACH)
  {
    var db := ForeignTeacher();
    assert db.grants[0] in db.grants && db.grants[1] in db.grants;
    assert db.permissions[0] in db.permissions && db.permissions[1] in db.permissions;
  }

  lemma ForeignPlanDerives(now: int)
    ensures PlanFor(ForeignTeacher(), Target2("w", "o"), now).Ok?
  {
    hide RoleGrants;
    var db := ForeignTeacher();
    ForeignGrants();
    assert db.memberships[0] in db.memberships && db.assignments[0] in db.assignments;
    assert FindRole(db.roles, "w", RoleCode(Verifier)) == Some(db.roles[0]);
    assert Find(db.permissions, APPROVE) == Some(db.permissions[0]);
    SeatedIsHolder(db, "w", "v", now, db.memberships[0], db.assignments[0]);
    assert "h" in Holders(db, "w", "v", now);
    assert forall a | a in Holders(db, "w", "v", now) :: a == "h";
    assert !Teaches(db, "w", "h", now);
    assert !Elsewhere(db, "w", "v", "1");
  }

  /** The database is lawful, the plan derives, and one account judges and teaches at every instant. */
  lemma ForeignTeacherExample(now: int, asOf: int)
    ensures DbOk(ForeignTeacher()) && PlanFor(ForeignTeacher(), Target2("w", "o"), now).Ok?
    ensures Both(ForeignTeacher(), "j", "w", asOf)
  {
    hide RoleGrants, PlanFor, DbOk;
    var db := ForeignTeacher();
    ForeignTeacherOk();
    ForeignPlanDerives(now);
    ForeignGrants();
    assert db.memberships[1] in db.memberships && db.assignments[1] in db.assignments;
  }
}

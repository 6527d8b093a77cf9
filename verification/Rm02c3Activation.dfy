/**
 * One least-privilege role for one acceptance account: the plan as a list of actions found again by
 * name, its application in a transaction that a test may make fail halfway, and who gains what.
 */
module Rm02c3Activation {
  import opened Outcomes
  import opened AccessTables
  import opened Bp02Activation

  const IMPORT := "BASIC_PRICE_IMPORT"
  const CONFIRMATION := "APPLY_RM02C3_BROWSER_ACCEPTANCE_TO_SIMPROK_TEST"

  function AllowedCode(k: nat): string {
    if k == 0 then IMPORT else REVIEW_VIEW
  }

  function Allowed(k: nat): (m: Metadata)
    ensures m.code == AllowedCode(k)
  {
    if k == 0 then
      Metadata(IMPORT, "Basic Price Import",
               "Upload a Basic Price workbook and create/preview a BasicPriceImportBatch.")
    else
      Metadata(REVIEW_VIEW, "Basic Price Review View",
               "View internal (pre-publication) Basic Price batches, rows, and submissions.")
  }

  lemma CodesApart()
    ensures IMPORT != REVIEW_VIEW
  {
    assert |IMPORT| == 18 && |REVIEW_VIEW| == 23;
  }

  datatype Acceptance = Acceptance(databaseName: string, workspaceId: string, workspaceName: string,
                                   accountEmail: string, roleCode: string)

  /** The shared tables, with the columns only this script reads. */
  datatype Site = Site(db: Db, databaseName: string, workspaceNames: map<string, string>, activeAccounts: set<string>,
                       systemRoles: set<string>)

  datatype Disposition =
    | CreatePermission | ReusePermission | CreateRole | ReuseRole
    | CreateRolePermission | ReuseRolePermission | CreateMembershipRole | ReuseMembershipRole

  datatype Action = Action(disposition: Disposition, identity: string)

  datatype Delta = Delta(permissions: nat, roles: nat, rolePermissions: nat, membershipRoles: nat)

  /** Equal plans stand for equal digests. */
  datatype AcceptancePlan = AcceptancePlan(target: Acceptance, accountId: string, membershipId: string,
                                           roleId: Option<string>, actions: seq<Action>, expected: Delta)

  datatype Refused =
    | DatabaseNotAuthorized | DatabaseMismatch | WorkspaceMismatch | AccountUnclear | MembershipUnclear
    | RoleOutsideWorkspace | RoleIsSystem | UnexpectedPermission | AssignedToAnother | AssignmentAmbiguous
    | TokenInvalid | DigestDrift | Injected | PermissionsIncomplete | PlanIncomplete

  datatype Failure = NoFailure | AfterPermissions | AfterRole | AfterRolePermissions

  /** Workspace ids are UUIDs, written with 36 characters. */
  ghost predicate SiteOk(s: Site) {
    DbOk(s.db) && forall w | w in s.workspaceNames :: |w| == 36
  }

  ghost predicate NewIds(s: Site, ids: seq<string>) {
    && |ids| == 3 && ids[0] != ids[1] && ids[0] != ids[2] && ids[1] != ids[2]
    && (forall i | 0 <= i < 3 :: Unused(s.db, ids[i]) && ids[i] !in s.systemRoles)
  }

  // ---------------------------------------------------------------- the plan

  predicate Live(a: Assignment, now: int) {
    a.isActive && (a.endDate.None? || a.endDate.value > now)
  }

  predicate LiveSeat(xs: seq<Assignment>, membershipId: string, roleId: string, now: int) {
    exists a | a in xs :: a.membershipId == membershipId && a.roleId == roleId && Live(a, now)
  }

  predicate TwoLiveSeats(xs: seq<Assignment>, roleId: string, now: int) {
    exists i, j | 0 <= i < j < |xs| ::
      xs[i].roleId == roleId && xs[j].roleId == roleId && Live(xs[i], now) && Live(xs[j], now)
  }

  predicate IsAllowed(code: string) {
    code == IMPORT || code == REVIEW_VIEW
  }

  predicate OnlyAllowed(db: Db, roleId: string) {
    forall g, p | g in db.grants && p in db.permissions && g.roleId == roleId && p.id == g.permissionId :: IsAllowed(p.code)
  }

  predicate OnlyAssignedTo(db: Db, roleId: string, membershipId: string) {
    forall a | a in db.assignments && a.roleId == roleId :: a.membershipId == membershipId
  }

  function RoleStop(s: Site, r: Role, membershipId: string, now: int): Option<Refused> {
    if r.id in s.systemRoles then Some(RoleIsSystem)
    else if !OnlyAllowed(s.db, r.id) then Some(UnexpectedPermission)
    else if !OnlyAssignedTo(s.db, r.id, membershipId) then Some(AssignedToAnother)
    else if TwoLiveSeats(s.db.assignments, r.id, now) then Some(AssignmentAmbiguous)
    else None
  }

  function Actions(db: Db, t: Acceptance, membershipId: string, r: Option<Role>, now: int): (actions: seq<Action>) {
    [Action(if Find(db.permissions, AllowedCode(0)).Some? then ReusePermission else CreatePermission, AllowedCode(0)),
     Action(if Find(db.permissions, AllowedCode(1)).Some? then ReusePermission else CreatePermission, AllowedCode(1)),
     Action(if r.Some? then ReuseRole else CreateRole, t.workspaceId + ":" + t.roleCode),
     Action(if r.Some? && RoleGrants(db, r.value.id, AllowedCode(0)) then ReuseRolePermission else CreateRolePermission,
            t.roleCode + ":" + AllowedCode(0)),
     Action(if r.Some? && RoleGrants(db, r.value.id, AllowedCode(1)) then ReuseRolePermission else CreateRolePermission,
            t.roleCode + ":" + AllowedCode(1)),
     Action(if r.Some? && LiveSeat(db.assignments, membershipId, r.value.id, now) then ReuseMembershipRole
            else CreateMembershipRole, membershipId + ":" + t.roleCode)]
  }

  function Count(actions: seq<Action>, d: Disposition): nat {
    if |actions| == 0 then 0 else (if actions[0].disposition == d then 1 else 0) + Count(actions[1..], d)
  }

  function DeltaOf(actions: seq<Action>): Delta {
    Delta(Count(actions, CreatePermission), Count(actions, CreateRole), Count(actions, CreateRolePermission),
          Count(actions, CreateMembershipRole))
  }

  function PlanFor(s: Site, t: Acceptance, now: int): (r: Result<AcceptancePlan, Refused>)
    ensures r.Err? ==> r.error !in {TokenInvalid, DigestDrift, Injected, PermissionsIncomplete, PlanIncomplete}
  {
    var account := FindAccount(s.db.accounts, t.accountEmail);
    if t.databaseName != "simprok_test" && t.databaseName != "simprok_e2e" then Err(DatabaseNotAuthorized)
    else if s.databaseName != t.databaseName then Err(DatabaseMismatch)
    else if t.workspaceId !in s.workspaceNames || s.workspaceNames[t.workspaceId] != t.workspaceName then Err(WorkspaceMismatch)
    else if account.None? || account.value.id !in s.activeAccounts
            || exists a | a in s.db.accounts :: Lower(a.email) == Lower(t.accountEmail) && a != account.value
         then Err(AccountUnclear)
    else
      var m := FindMembership(s.db.memberships, account.value.id, t.workspaceId);
      var r := FindRole(s.db.roles, t.workspaceId, t.roleCode);
      if m.None? || !m.value.active then Err(MembershipUnclear)
      else if exists q | q in s.db.roles :: q.code == t.roleCode && q.workspaceId != t.workspaceId
           then Err(RoleOutsideWorkspace)
      else
        var stop := if r.Some? then RoleStop(s, r.value, m.value.id, now) else None;
        if stop.Some? then Err(stop.value)
        else
          var actions := Actions(s.db, t, m.value.id, r, now);
          Ok(AcceptancePlan(t, account.value.id, m.value.id, IdOf(r), actions, DeltaOf(actions)))
  }

  /** `actions.find`: the first action of the name. */
  function ActionNamed(actions: seq<Action>, identity: string): Option<Disposition> {
    if |actions| == 0 then None
    else if actions[0].identity == identity then Some(actions[0].disposition)
    else ActionNamed(actions[1..], identity)
  }

  lemma CodesAreShortWords(k: nat)
    requires k < 2
    ensures 18 <= |AllowedCode(k)| <= 23 && ':' !in AllowedCode(k) && AllowedCode(0) != AllowedCode(1)
  {
    CodesApart();
  }

  /** The names never collide, whatever the role is called: each lookup finds the action it is for. */
  lemma NamesFindTheirActions(db: Db, t: Acceptance, membershipId: string, r: Option<Role>, now: int, k: nat)
    requires k < 2 && |t.workspaceId| == 36
    ensures var actions := Actions(db, t, membershipId, r, now);
            && ActionNamed(actions, AllowedCode(k)) == Some(actions[k].disposition)
            && ActionNamed(actions, t.roleCode + ":" + AllowedCode(k)) == Some(actions[3 + k].disposition)
  {
    hide AllowedCode, RoleGrants, LiveSeat, ActionNamed;
    CodesAreShortWords(0);
    CodesAreShortWords(1);
    var xs, name := Actions(db, t, membershipId, r, now), t.roleCode + ":" + AllowedCode(k);
    assert name[|t.roleCode|] == ':';
    assert |xs[2].identity| == 37 + |t.roleCode|;
    if k == 1 {
      assert (t.roleCode + ":" + AllowedCode(0))[|t.roleCode| + 1..] == AllowedCode(0);
      assert name[|t.roleCode| + 1..] == AllowedCode(1);
    }
    FindsFirst(xs, k, AllowedCode(k));
    FindsFirst(xs, 3 + k, name);
  }

  lemma {:induction false} FindsFirst(actions: seq<Action>, k: nat, identity: string)
    requires k < |actions| && actions[k].identity == identity
    requires forall i | 0 <= i < k :: actions[i].identity != identity
    ensures ActionNamed(actions, identity) == Some(actions[k].disposition)
  {
    if k > 0 {
      FindsFirst(actions[1..], k - 1, identity);
    }
  }

  lemma CountsOfSix(xs: seq<Action>, d: Disposition)
    requires |xs| == 6
    ensures Count(xs, d) == (if xs[0].disposition == d then 1 else 0) + (if xs[1].disposition == d then 1 else 0)
                            + (if xs[2].disposition == d then 1 else 0) + (if xs[3].disposition == d then 1 else 0)
                            + (if xs[4].disposition == d then 1 else 0) + (if xs[5].disposition == d then 1 else 0)
  {
    var ys := xs[3..];
    assert xs[1..][1..][1..] == ys;
    assert Count(xs, d) == (if xs[0].disposition == d then 1 else 0) + Count(xs[1..], d);
    assert Count(xs[1..], d) == (if xs[1].disposition == d then 1 else 0) + Count(xs[1..][1..], d);
    assert Count(xs[1..][1..], d) == (if xs[2].disposition == d then 1 else 0) + Count(ys, d);
    assert Count(ys, d) == (if ys[0].disposition == d then 1 else 0) + Count(ys[1..], d);
    assert Count(ys[1..], d) == (if ys[1].disposition == d then 1 else 0) + Count(ys[1..][1..], d);
    assert Count(ys[1..][1..], d) == (if ys[2].disposition == d then 1 else 0) + Count(ys[1..][1..][1..], d);
  }

  // ---------------------------------------------------------------- the inserts

  function WithPermissions(db: Db, ids: seq<string>, k: nat): Db
    requires k <= 2 <= |ids|
  {
    if k == 0 then db else WithPermission(WithPermissions(db, ids, k - 1), Allowed(k - 1), ids[k - 1])
  }

  function WithDedicatedRole(db: Db, t: Acceptance, id: string): Db {
    if FindRole(db.roles, t.workspaceId, t.roleCode).Some? then db
    else db.(roles := db.roles + [Role(id, t.workspaceId, t.roleCode)])
  }

  function WithCode(db: Db, roleId: string, code: string): Db {
    var p := Find(db.permissions, code);
    if p.None? || RoleGrants(db, roleId, code) then db else db.(grants := db.grants + [Grant(roleId, p.value.id)])
  }

  function WithCodes(db: Db, roleId: string, k: nat): Db
    requires k <= 2
  {
    if k == 0 then db else WithCode(WithCodes(db, roleId, k - 1), roleId, AllowedCode(k - 1))
  }

  function WithSeat(db: Db, membershipId: string, roleId: string, now: int): Db {
    if LiveSeat(db.assignments, membershipId, roleId, now) then db
    else db.(assignments := db.assignments + [Assignment(membershipId, roleId, true, None)])
  }

  /** The role's id once it exists. */
  function DedicatedId(db: Db, t: Acceptance, id: string): string {
    var r := FindRole(db.roles, t.workspaceId, t.roleCode);
    if r.Some? then r.value.id else id
  }

  function Prepared(db: Db, t: Acceptance, ids: seq<string>): Db
    requires |ids| == 3
  {
    WithDedicatedRole(WithPermissions(db, ids, 2), t, ids[2])
  }

  /** Everything the transaction writes. */
  function Enabled(db: Db, t: Acceptance, membershipId: string, ids: seq<string>, now: int): Db
    requires |ids| == 3
  {
    var roleId := DedicatedId(db, t, ids[2]);
    WithSeat(WithCodes(Prepared(db, t, ids), roleId, 2), membershipId, roleId, now)
  }

  lemma PermissionAdded(db: Db, m: Metadata, id: string, code: string)
    requires DbOk(db) && Unused(db, id)
    ensures var db' := WithPermission(db, m, id);
            && DbOk(db') && db' == db.(permissions := db'.permissions) && Find(db'.permissions, m.code).Some?
            && (code != m.code ==> Find(db'.permissions, code) == Find(db.permissions, code))
            && |db'.permissions| - |db.permissions| == (if Find(db.permissions, m.code).None? then 1 else 0)
  {
    var p := Permission(id, m.code, m.name, Some(m.description));
    FindAppended(db.permissions, p, code);
    FindAppended(db.permissions, p, m.code);
    if Find(db.permissions, m.code).None? {
      InsertPermissionOk(db.permissions, db.grants, p);
    }
  }

  /** A permission nobody holds yet grants nobody anything. */
  lemma PermissionGrantsNobody(db: Db, m: Metadata, id: string, roleId: string, code: string)
    requires DbOk(db) && Unused(db, id)
    ensures RoleGrants(WithPermission(db, m, id), roleId, code) <==> RoleGrants(db, roleId, code)
  {
    var db' := WithPermission(db, m, id);
    if RoleGrants(db', roleId, code) {
      var g, p := GrantedCode(db', roleId, code);
      assert FindById(db.permissions, g.permissionId).Some?;
    }
    if RoleGrants(db, roleId, code) {
      var g, p := GrantedCode(db, roleId, code);
      assert p in db'.permissions;
    }
  }

  lemma PermissionsFresh(s: Site, ids: seq<string>, k: nat)
    requires SiteOk(s) && NewIds(s, ids) && k <= 2
    ensures DbOk(WithPermissions(s.db, ids, k)) && forall i | k <= i < 3 :: Unused(WithPermissions(s.db, ids, k), ids[i])
  {
    hide DbOk, Unused, WithPermission, Allowed;
    if k > 0 {
      PermissionsFresh(s, ids, k - 1);
      FreshAfterPermission(WithPermissions(s.db, ids, k - 1), Allowed(k - 1), ids, k);
    }
  }

  lemma FreshAfterPermission(db: Db, m: Metadata, ids: seq<string>, k: nat)
    requires DbOk(db) && 0 < k <= |ids| && forall i | k - 1 <= i < |ids| :: Unused(db, ids[i])
    requires forall i | k <= i < |ids| :: ids[i] != ids[k - 1]
    ensures DbOk(WithPermission(db, m, ids[k - 1]))
    ensures forall i | k <= i < |ids| :: Unused(WithPermission(db, m, ids[k - 1]), ids[i])
  {
    hide DbOk, Unused, WithPermission;
    PermissionAdded(db, m, ids[k - 1], m.code);
    forall i | k <= i < |ids|
      ensures Unused(WithPermission(db, m, ids[k - 1]), ids[i])
    {
      PermissionLeavesUnused(db, m, ids[k - 1], ids[i]);
    }
  }

  lemma PermissionsAdded(s: Site, ids: seq<string>, k: nat)
    requires SiteOk(s) && NewIds(s, ids) && k <= 2
    ensures var d := WithPermissions(s.db, ids, k);
            && d == s.db.(permissions := d.permissions)
            && (Find(d.permissions, IMPORT).None? <==> k == 0 && Find(s.db.permissions, IMPORT).None?)
            && (Find(d.permissions, REVIEW_VIEW).None? <==> k <= 1 && Find(s.db.permissions, REVIEW_VIEW).None?)
            && |d.permissions| - |s.db.permissions| == MissingBefore(s.db, k)
  {
    hide DbOk, Unused, WithPermission, Find, Allowed, SiteOk;
    CodesApart();
    if k > 0 {
      var d0, m := WithPermissions(s.db, ids, k - 1), Allowed(k - 1);
      PermissionsAdded(s, ids, k - 1);
      PermissionsFresh(s, ids, k - 1);
      PermissionAdded(d0, m, ids[k - 1], IMPORT);
      PermissionAdded(d0, m, ids[k - 1], REVIEW_VIEW);
    }
  }

  lemma PermissionsGrantNobody(s: Site, ids: seq<string>, k: nat, roleId: string, code: string)
    requires SiteOk(s) && NewIds(s, ids) && k <= 2
    ensures RoleGrants(WithPermissions(s.db, ids, k), roleId, code) <==> RoleGrants(s.db, roleId, code)
  {
    hide DbOk, Unused, RoleGrants, WithPermission, Allowed;
    if k > 0 {
      PermissionsFresh(s, ids, k - 1);
      PermissionsGrantNobody(s, ids, k - 1, roleId, code);
      PermissionGrantsNobody(WithPermissions(s.db, ids, k - 1), Allowed(k - 1), ids[k - 1], roleId, code);
    }
  }

  /** How many of the first `k` permissions the database lacked. */
  function MissingBefore(db: Db, k: nat): nat
    requires k <= 2
  {
    if k == 0 then 0 else MissingBefore(db, k - 1) + (if Find(db.permissions, AllowedCode(k - 1)).None? then 1 else 0)
  }

  lemma RoleAdded(db: Db, t: Acceptance, id: string)
    requires DbOk(db) && Unused(db, id)
    ensures var d := WithDedicatedRole(db, t, id);
            && DbOk(d) && d == db.(roles := d.roles)
            && FindRole(d.roles, t.workspaceId, t.roleCode).Some?
            && FindRole(d.roles, t.workspaceId, t.roleCode).value.id == DedicatedId(db, t, id)
            && (forall r, c :: RoleGrants(d, r, c) <==> RoleGrants(db, r, c))
            && (FindRole(db.roles, t.workspaceId, t.roleCode).None? ==>
                  && (forall c :: !RoleGrants(d, id, c))
                  && (forall a | a in db.assignments :: a.roleId != id))
  {
    var r := Role(id, t.workspaceId, t.roleCode);
    if FindRole(db.roles, t.workspaceId, t.roleCode).None? {
      NewRoleOk(db.roles, r);
      MoreRolesKnown(db.assignments, db.memberships, db.grants, db.roles, r);
      assert forall g | g in db.grants :: HasRole(db.roles, g.roleId);
      assert forall a | a in db.assignments :: HasRole(db.roles, a.roleId);
    }
  }

  lemma CodeAdded(db: Db, r: Role, code: string)
    requires DbOk(db) && r in db.roles && Find(db.permissions, code).Some?
    ensures var d := WithCode(db, r.id, code);
            && DbOk(d) && d == db.(grants := d.grants)
            && |d.grants| - |db.grants| == (if RoleGrants(db, r.id, code) then 0 else 1)
            && (forall q, c :: RoleGrants(d, q, c) <==> RoleGrants(db, q, c) || (q == r.id && c == code))
  {
    var d, p := WithCode(db, r.id, code), Find(db.permissions, code).value;
    assert FindById(db.permissions, p.id).Some? && HasRole(db.roles, r.id);
    if !RoleGrants(db, r.id, code) {
      InsertGrantOk(db.permissions, db.grants, Grant(r.id, p.id));
      assert Grant(r.id, p.id) in d.grants;
    }
    forall q, c
      ensures RoleGrants(d, q, c) <==> RoleGrants(db, q, c) || (q == r.id && c == code)
    {
      if RoleGrants(db, q, c) {
        var g, _ := GrantedCode(db, q, c);
        assert g in d.grants;
      }
    }
  }

  lemma CodesAdded(db: Db, r: Role, k: nat)
    requires DbOk(db) && r in db.roles && k <= 2
    requires Find(db.permissions, IMPORT).Some? && Find(db.permissions, REVIEW_VIEW).Some?
    ensures var d := WithCodes(db, r.id, k);
            && DbOk(d) && d == db.(grants := d.grants)
            && |d.grants| - |db.grants| == UngrantedBefore(db, r.id, k)
            && (forall q, c :: RoleGrants(d, q, c) <==>
                               RoleGrants(db, q, c) || (q == r.id && exists i | 0 <= i < k :: AllowedCode(i) == c))
  {
    hide DbOk, RoleGrants;
    CodesApart();
    if k > 0 {
      CodesAdded(db, r, k - 1);
      CodeAdded(WithCodes(db, r.id, k - 1), r, AllowedCode(k - 1));
    }
  }

  function UngrantedBefore(db: Db, roleId: string, k: nat): nat
    requires k <= 2
  {
    if k == 0 then 0
    else UngrantedBefore(db, roleId, k - 1) + (if RoleGrants(db, roleId, AllowedCode(k - 1)) then 0 else 1)
  }

  lemma SeatAdded(db: Db, m: Membership, r: Role, now: int)
    requires DbOk(db) && m in db.memberships && r in db.roles
    ensures var d := WithSeat(db, m.id, r.id, now);
            && DbOk(d) && d == db.(assignments := d.assignments) && LiveSeat(d.assignments, m.id, r.id, now)
            && (forall q, c :: RoleGrants(d, q, c) <==> RoleGrants(db, q, c))
  {
    var a := Assignment(m.id, r.id, true, None);
    assert HasMembership(db.memberships, m.id) && HasRole(db.roles, r.id);
    if !LiveSeat(db.assignments, m.id, r.id, now) {
      assert a in db.assignments + [a];
    }
  }

  // ---------------------------------------------------------------- what has been written

  lemma PlannedMembership(s: Site, t: Acceptance, now: int) returns (m: Membership)
    requires PlanFor(s, t, now).Ok?
    ensures var p := PlanFor(s, t, now).value;
            m in s.db.memberships && m.id == p.membershipId && m.accountId == p.accountId
            && m.workspaceId == t.workspaceId && m.active
  {
    hide RoleStop, Actions, DeltaOf;
    m := FindMembership(s.db.memberships, PlanFor(s, t, now).value.accountId, t.workspaceId).value;
  }

  lemma {:induction false} SameUngranted(db: Db, db': Db, roleId: string, k: nat)
    requires k <= 2 && forall c :: RoleGrants(db', roleId, c) <==> RoleGrants(db, roleId, c)
    ensures UngrantedBefore(db', roleId, k) == UngrantedBefore(db, roleId, k)
  {
    hide RoleGrants;
    if k > 0 {
      SameUngranted(db, db', roleId, k - 1);
    }
  }

  /** Each table after the inserts, and exactly which grants are new. */
  lemma WrittenTables(s: Site, t: Acceptance, ids: seq<string>, now: int)
    requires SiteOk(s) && NewIds(s, ids) && PlanFor(s, t, now).Ok?
    ensures var p := PlanFor(s, t, now).value;
            var roleId, d2 := DedicatedId(s.db, t, ids[2]), Prepared(s.db, t, ids);
            var d := Enabled(s.db, t, p.membershipId, ids, now);
            && DbOk(d)
            && d == s.db.(permissions := WithPermissions(s.db, ids, 2).permissions, roles := d2.roles,
                          grants := d.grants, assignments := d.assignments)
            && FindRole(d.roles, t.workspaceId, t.roleCode).Some?
            && FindRole(d.roles, t.workspaceId, t.roleCode).value.id == roleId
            && Find(d.permissions, IMPORT).Some? && Find(d.permissions, REVIEW_VIEW).Some?
            && (forall q, c :: RoleGrants(d, q, c) <==> RoleGrants(s.db, q, c) || (q == roleId && IsAllowed(c)))
            && d.assignments == WithSeat(s.db, p.membershipId, roleId, now).assignments
            && LiveSeat(d.assignments, p.membershipId, roleId, now)
            && |d.permissions| - |s.db.permissions| == MissingBefore(s.db, 2)
            && |d.grants| - |s.db.grants| == UngrantedBefore(s.db, roleId, 2)
  {
    hide DbOk, Unused, RoleGrants, WithPermission, WithCode, LiveSeat, Allowed, WithPermissions, WithCodes, PlanFor,
         SiteOk;
    var m := PlannedMembership(s, t, now);
    var d1, d2 := WithPermissions(s.db, ids, 2), Prepared(s.db, t, ids);
    PermissionsFresh(s, ids, 2);
    PermissionsAdded(s, ids, 2);
    RoleAdded(d1, t, ids[2]);
    var r := FindRole(d2.roles, t.workspaceId, t.roleCode).value;
    CodesAdded(d2, r, 2);
    var d3 := WithCodes(d2, r.id, 2);
    SeatAdded(d3, m, r, now);
    forall q, c
      ensures RoleGrants(d2, q, c) <==> RoleGrants(s.db, q, c)
    {
      PermissionsGrantNobody(s, ids, 2, q, c);
    }
    SameUngranted(s.db, d2, r.id, 2);
    assert AllowedCode(0) == IMPORT && AllowedCode(1) == REVIEW_VIEW;
  }

  /** Before the inserts, role and seats are as the plan demands. */
  lemma PlannedSeats(s: Site, t: Acceptance, ids: seq<string>, now: int)
    requires SiteOk(s) && NewIds(s, ids) && PlanFor(s, t, now).Ok?
    ensures var p, roleId := PlanFor(s, t, now).value, DedicatedId(s.db, t, ids[2]);
            && roleId !in s.systemRoles
            && (forall c | RoleGrants(s.db, roleId, c) :: IsAllowed(c))
            && OnlyAssignedTo(s.db, roleId, p.membershipId)
            && !TwoLiveSeats(s.db.assignments, roleId, now)
  {
    hide Actions, DeltaOf, RoleGrants, FindMembership, FindAccount, Unused, TablesOk, MembershipsOk, AccountsOk;
    var roleId := DedicatedId(s.db, t, ids[2]);
    if FindRole(s.db.roles, t.workspaceId, t.roleCode).None? {
      NewRoleGrantsNothing(s, t, ids);
    } else {
      forall c | RoleGrants(s.db, roleId, c)
        ensures IsAllowed(c)
      {
        var g, q := GrantedCode(s.db, roleId, c);
      }
    }
  }

  /** A seat is added only where none is live, so there are never two. */
  lemma SeatStaysSingle(db: Db, membershipId: string, roleId: string, now: int)
    requires OnlyAssignedTo(db, roleId, membershipId) && !TwoLiveSeats(db.assignments, roleId, now)
    ensures var d := WithSeat(db, membershipId, roleId, now);
            && OnlyAssignedTo(d, roleId, membershipId) && !TwoLiveSeats(d.assignments, roleId, now)
            && |d.assignments| - |db.assignments| == (if LiveSeat(db.assignments, membershipId, roleId, now) then 0 else 1)
  {
  }

  /** The dedicated role serves the target membership alone, once, and grants nothing unforeseen. */
  lemma WrittenSeats(s: Site, t: Acceptance, ids: seq<string>, now: int)
    requires SiteOk(s) && NewIds(s, ids) && PlanFor(s, t, now).Ok?
    ensures var p, roleId := PlanFor(s, t, now).value, DedicatedId(s.db, t, ids[2]);
            var d := WithSeat(s.db, p.membershipId, roleId, now);
            && roleId !in s.systemRoles
            && (forall c | RoleGrants(s.db, roleId, c) :: IsAllowed(c))
            && OnlyAssignedTo(d, roleId, p.membershipId)
            && !TwoLiveSeats(d.assignments, roleId, now)
            && |d.assignments| - |s.db.assignments|
               == (if LiveSeat(s.db.assignments, p.membershipId, roleId, now) then 0 else 1)
  {
    hide PlanFor, SiteOk, Unused, RoleGrants, TwoLiveSeats, OnlyAssignedTo, WithSeat;
    PlannedSeats(s, t, ids, now);
    SeatStaysSingle(s.db, PlanFor(s, t, now).value.membershipId, DedicatedId(s.db, t, ids[2]), now);
  }

  /** What the plan announces is what the guarded inserts of a role with this id would add. */
  lemma AnnouncedDelta(db: Db, t: Acceptance, membershipId: string, r: Option<Role>, roleId: string, now: int)
    requires r.Some? ==> r.value.id == roleId
    requires r.None? ==> (forall c :: !RoleGrants(db, roleId, c)) && !LiveSeat(db.assignments, membershipId, roleId, now)
    ensures DeltaOf(Actions(db, t, membershipId, r, now))
            == Delta(MissingBefore(db, 2), if r.Some? then 0 else 1, UngrantedBefore(db, roleId, 2),
                     if LiveSeat(db.assignments, membershipId, roleId, now) then 0 else 1)
  {
    hide RoleGrants, LiveSeat, Count, Find, AllowedCode;
    var actions := Actions(db, t, membershipId, r, now);
    CountsOfSix(actions, CreatePermission);
    CountsOfSix(actions, CreateRole);
    CountsOfSix(actions, CreateRolePermission);
    CountsOfSix(actions, CreateMembershipRole);
    assert MissingBefore(db, 1) == if Find(db.permissions, AllowedCode(0)).None? then 1 else 0;
    assert UngrantedBefore(db, roleId, 1) == if RoleGrants(db, roleId, AllowedCode(0)) then 0 else 1;
  }

  /** The plan re-derives from what was written, for the same people, with nothing left to create. */
  lemma Replans(s: Site, t: Acceptance, ids: seq<string>, now: int)
    requires SiteOk(s) && NewIds(s, ids) && PlanFor(s, t, now).Ok?
    ensures var p := PlanFor(s, t, now).value;
            var s' := s.(db := Enabled(s.db, t, p.membershipId, ids, now));
            var after := PlanFor(s', t, now);
            && SiteOk(s')
            && after.Ok? && after.value.expected == Delta(0, 0, 0, 0)
            && after.value.accountId == p.accountId && after.value.membershipId == p.membershipId
  {
    hide DbOk, Unused, RoleGrants, LiveSeat, TwoLiveSeats, Enabled, Prepared, WithPermissions, WithSeat, OnlyAllowed,
         Actions, DeltaOf, Find, FindRole, FindMembership, FindAccount, DedicatedId, MissingBefore, Lower;
    WrittenTables(s, t, ids, now);
    WrittenSeats(s, t, ids, now);
    var p := PlanFor(s, t, now).value;
    var db' := Enabled(s.db, t, p.membershipId, ids, now);
    var r := FindRole(db'.roles, t.workspaceId, t.roleCode);
    GrantsOnlyAllowed(db', r.value.id);
    RoleStaysHere(s, t, ids);
    NothingLeft(db', r.value.id);
    AnnouncedDelta(db', t, p.membershipId, r, r.value.id, now);
  }

  lemma GrantsOnlyAllowed(db: Db, roleId: string)
    requires forall c | RoleGrants(db, roleId, c) :: IsAllowed(c)
    ensures OnlyAllowed(db, roleId)
  {
    forall g, p | g in db.grants && p in db.permissions && g.roleId == roleId && p.id == g.permissionId
      ensures IsAllowed(p.code)
    {
      assert RoleGrants(db, roleId, p.code);
    }
  }

  lemma NothingLeft(db: Db, roleId: string)
    requires Find(db.permissions, IMPORT).Some? && Find(db.permissions, REVIEW_VIEW).Some?
    requires RoleGrants(db, roleId, IMPORT) && RoleGrants(db, roleId, REVIEW_VIEW)
    ensures MissingBefore(db, 2) == 0 && UngrantedBefore(db, roleId, 2) == 0
  {
    hide RoleGrants, Find, IMPORT, REVIEW_VIEW;
    assert AllowedCode(0) == IMPORT && AllowedCode(1) == REVIEW_VIEW;
    assert MissingBefore(db, 0) == 0 && UngrantedBefore(db, roleId, 0) == 0;
    assert MissingBefore(db, 1) == 0 && UngrantedBefore(db, roleId, 1) == 0;
    assert MissingBefore(db, 2) == 0 && UngrantedBefore(db, roleId, 2) == 0;
  }

  lemma RoleStaysHere(s: Site, t: Acceptance, ids: seq<string>)
    requires SiteOk(s) && NewIds(s, ids)
    ensures forall q | q in Prepared(s.db, t, ids).roles && q.workspaceId != t.workspaceId :: q in s.db.roles
  {
    hide WithPermissions, SiteOk;
    PermissionsAdded(s, ids, 2);
  }

  /** The tables grow by exactly what the plan announced. */
  lemma GrowthIsPlanned(s: Site, t: Acceptance, ids: seq<string>, now: int)
    requires SiteOk(s) && NewIds(s, ids) && PlanFor(s, t, now).Ok?
    ensures var p := PlanFor(s, t, now).value;
            var d := Enabled(s.db, t, p.membershipId, ids, now);
            && |d.permissions| == |s.db.permissions| + p.expected.permissions
            && |d.roles| == |s.db.roles| + p.expected.roles
            && |d.grants| == |s.db.grants| + p.expected.rolePermissions
            && |d.assignments| == |s.db.assignments| + p.expected.membershipRoles
  {
    hide DbOk, Unused, RoleGrants, LiveSeat, TwoLiveSeats, Enabled, WithPermissions, WithSeat, OnlyAllowed, RoleStop,
         Actions, DeltaOf, Find, FindRole, FindMembership, FindAccount, SiteOk;
    WrittenTables(s, t, ids, now);
    WrittenSeats(s, t, ids, now);
    NewRoleGrantsNothing(s, t, ids);
    PermissionsAdded(s, ids, 2);
    var p, roleId := PlanFor(s, t, now).value, DedicatedId(s.db, t, ids[2]);
    AnnouncedDelta(s.db, t, p.membershipId, FindRole(s.db.roles, t.workspaceId, t.roleCode), roleId, now);
  }

  lemma NewRoleGrantsNothing(s: Site, t: Acceptance, ids: seq<string>)
    requires SiteOk(s) && NewIds(s, ids)
    ensures FindRole(s.db.roles, t.workspaceId, t.roleCode).None? ==>
              && (forall c :: !RoleGrants(s.db, ids[2], c))
              && (forall a | a in s.db.assignments :: a.roleId != ids[2])
              && (forall m, now :: !LiveSeat(s.db.assignments, m, ids[2], now))
  {
    RoleAdded(s.db, t, ids[2]);
  }

  // ---------------------------------------------------------------- who gains what

  /** An assignment of the membership to the role that the resolver honours at the instant. */
  predicate SitsAt(xs: seq<Assignment>, membershipId: string, roleId: string, asOf: int) {
    exists a | a in xs ::
      a.membershipId == membershipId && a.roleId == roleId && a.isActive && (a.endDate.None? || asOf <= a.endDate.value)
  }

  /** The seat is new, or an old one is honoured at the instant. */
  predicate WillSit(s: Site, t: Acceptance, ids: seq<string>, now: int, membershipId: string, asOf: int)
    requires |ids| == 3
  {
    var roleId := DedicatedId(s.db, t, ids[2]);
    !LiveSeat(s.db.assignments, membershipId, roleId, now) || SitsAt(s.db.assignments, membershipId, roleId, asOf)
  }

  /**
   * At every instant at which its seat is honoured, the instant of the activation and all before it
   * included, the one account gains the two permissions in the one workspace; nobody gains or loses
   * anything else anywhere, at any instant.
   */
  lemma OnlyTheTargetGains(s: Site, t: Acceptance, ids: seq<string>, now: int, x: string, w: string, code: string, asOf: int)
    requires SiteOk(s) && NewIds(s, ids) && PlanFor(s, t, now).Ok?
    ensures var p := PlanFor(s, t, now).value;
            && (Resolves(Enabled(s.db, t, p.membershipId, ids, now), x, w, asOf, code)
                <==> Resolves(s.db, x, w, asOf, code)
                     || (x == p.accountId && w == t.workspaceId && IsAllowed(code)
                         && WillSit(s, t, ids, now, p.membershipId, asOf)))
            && (asOf <= now ==> WillSit(s, t, ids, now, p.membershipId, asOf))
  {
    hide RoleGrants, Enabled, TwoLiveSeats, SiteOk, Unused, PlanFor, Resolves, DedicatedId, Find, FindRole, WithSeat,
         WillSit, Allowed;
    var p := PlanFor(s, t, now).value;
    var d := Enabled(s.db, t, p.membershipId, ids, now);
    WrittenTables(s, t, ids, now);
    SeatsWritten(s, t, ids, now, p.membershipId, asOf);
    if Resolves(d, x, w, asOf, code) && !Resolves(s.db, x, w, asOf, code) {
      GainerIsTarget(s, t, ids, now, x, w, code, asOf);
    }
    if Resolves(s.db, x, w, asOf, code) {
      PowersStay(s.db, d, x, w, asOf, code);
    }
    if IsAllowed(code) && WillSit(s, t, ids, now, p.membershipId, asOf) {
      TargetGains(s, t, ids, now, code, asOf);
    }
  }

  /** The seats after the inserts are honoured exactly as foretold, and all of them until now. */
  lemma SeatsWritten(s: Site, t: Acceptance, ids: seq<string>, now: int, membershipId: string, asOf: int)
    requires |ids| == 3
    ensures var roleId := DedicatedId(s.db, t, ids[2]);
            var xs := WithSeat(s.db, membershipId, roleId, now).assignments;
            && s.db.assignments <= xs
            && (SitsAt(xs, membershipId, roleId, asOf) <==> WillSit(s, t, ids, now, membershipId, asOf))
    ensures asOf <= now ==> WillSit(s, t, ids, now, membershipId, asOf)
  {
    hide DedicatedId;
    var roleId := DedicatedId(s.db, t, ids[2]);
    var xs := WithSeat(s.db, membershipId, roleId, now).assignments;
    if SitsAt(s.db.assignments, membershipId, roleId, asOf) {
      var a :| a in s.db.assignments && a.membershipId == membershipId && a.roleId == roleId && a.isActive
               && (a.endDate.None? || asOf <= a.endDate.value);
      assert a in xs;
    }
    if !LiveSeat(s.db.assignments, membershipId, roleId, now) {
      assert Assignment(membershipId, roleId, true, None) in xs;
    } else if asOf <= now {
      var a :| a in s.db.assignments && a.membershipId == membershipId && a.roleId == roleId && Live(a, now);
      assert a.endDate.None? || asOf <= a.endDate.value;
    }
  }

  lemma PowersStay(db: Db, d: Db, x: string, w: string, now: int, code: string)
    requires d.memberships == db.memberships && db.assignments <= d.assignments && Resolves(db, x, w, now, code)
    requires forall q | RoleGrants(db, q, code) :: RoleGrants(d, q, code)
    ensures Resolves(d, x, w, now, code)
  {
    hide RoleGrants;
    var m, a := SeatBehind(db, x, w, now, code);
    if !Basic(code) {
      assert a in d.assignments;
    }
  }

  lemma GainerIsTarget(s: Site, t: Acceptance, ids: seq<string>, now: int, x: string, w: string, code: string, asOf: int)
    requires SiteOk(s) && NewIds(s, ids) && PlanFor(s, t, now).Ok?
    requires var p := PlanFor(s, t, now).value;
             Resolves(Enabled(s.db, t, p.membershipId, ids, now), x, w, asOf, code) && !Resolves(s.db, x, w, asOf, code)
    ensures var p := PlanFor(s, t, now).value;
            && x == p.accountId && w == t.workspaceId && IsAllowed(code)
            && SitsAt(Enabled(s.db, t, p.membershipId, ids, now).assignments, p.membershipId,
                      DedicatedId(s.db, t, ids[2]), asOf)
  {
    hide RoleGrants, Enabled, TwoLiveSeats, DbOk, Unused, PlanFor, DedicatedId, LiveSeat, Find, FindRole, Resolves,
         OnlyAllowed, Basic, IsAllowed, WithPermissions, Prepared, MissingBefore, UngrantedBefore;
    var p, roleId := PlanFor(s, t, now).value, DedicatedId(s.db, t, ids[2]);
    var d := Enabled(s.db, t, p.membershipId, ids, now);
    var target := PlannedMembership(s, t, now);
    WrittenTables(s, t, ids, now);
    WrittenSeats(s, t, ids, now);
    var m, a := SeatBehind(d, x, w, asOf, code);
    if Basic(code) || a.roleId != roleId {
      StillSeated(s.db, m, a, asOf, code);
    } else {
      SameMembership(s.db, m, target);
    }
  }

  lemma StillSeated(db: Db, m: Membership, a: Assignment, now: int, code: string)
    requires m in db.memberships && m.active
    requires Basic(code) || (a in db.assignments && a.membershipId == m.id && a.isActive
                                  && (a.endDate.None? || now <= a.endDate.value) && RoleGrants(db, a.roleId, code))
    ensures Resolves(db, m.accountId, m.workspaceId, now, code)
  {
  }

  lemma SameMembership(db: Db, m: Membership, n: Membership)
    requires DbOk(db) && m in db.memberships && n in db.memberships && m.id == n.id
    ensures m == n
  {
  }

  lemma TargetGains(s: Site, t: Acceptance, ids: seq<string>, now: int, code: string, asOf: int)
    requires SiteOk(s) && NewIds(s, ids) && PlanFor(s, t, now).Ok? && IsAllowed(code)
    requires SitsAt(Enabled(s.db, t, PlanFor(s, t, now).value.membershipId, ids, now).assignments,
                    PlanFor(s, t, now).value.membershipId, DedicatedId(s.db, t, ids[2]), asOf)
    ensures var p := PlanFor(s, t, now).value;
            Resolves(Enabled(s.db, t, p.membershipId, ids, now), p.accountId, t.workspaceId, asOf, code)
  {
    hide RoleGrants, Enabled, TwoLiveSeats, SiteOk, PlanFor, DedicatedId, WithSeat, Find, FindRole, IsAllowed,
         WithPermissions, Prepared, MissingBefore, UngrantedBefore;
    var p := PlanFor(s, t, now).value;
    var d := Enabled(s.db, t, p.membershipId, ids, now);
    var target := PlannedMembership(s, t, now);
    WrittenTables(s, t, ids, now);
    var a :| a in d.assignments && a.membershipId == p.membershipId && a.roleId == DedicatedId(s.db, t, ids[2])
             && a.isActive && (a.endDate.None? || asOf <= a.endDate.value);
    assert RoleGrants(d, a.roleId, code);
    assert target in d.memberships;
  }

  /** Every active membership may do it without any role. */
  predicate Basic(code: string) {
    code in BASELINE
  }

  lemma SeatBehind(db: Db, x: string, w: string, now: int, code: string) returns (m: Membership, a: Assignment)
    requires Resolves(db, x, w, now, code)
    ensures m in db.memberships && m.accountId == x && m.workspaceId == w && m.active
    ensures !Basic(code) ==> a in db.assignments && a.membershipId == m.id && a.isActive
                                  && (a.endDate.None? || now <= a.endDate.value) && RoleGrants(db, a.roleId, code)
  {
    m :| m in db.memberships && m.accountId == x && m.workspaceId == w && m.active
         && (code in BASELINE
             || exists a | a in db.assignments ::
                  a.membershipId == m.id && a.isActive && (a.endDate.None? || now <= a.endDate.value)
                  && RoleGrants(db, a.roleId, code));
    if code in BASELINE {
      a := *;
    } else {
      a :| a in db.assignments && a.membershipId == m.id && a.isActive && (a.endDate.None? || now <= a.endDate.value)
           && RoleGrants(db, a.roleId, code);
    }
  }

  class AcceptanceSite {
    var site: Site

    constructor (site: Site)
      ensures this.site == site
    {
      this.site := site;
    }

    /** Inserts each permission the plan said to create. */
    method InsertPermissions(plan: AcceptancePlan, ids: seq<string>, now: int) returns (created: nat)
      requires SiteOk(site) && NewIds(site, ids) && PlanFor(site, plan.target, now) == Ok(plan)
      modifies this
      ensures site == old(site).(db := WithPermissions(old(site).db, ids, 2))
      ensures created == MissingBefore(old(site).db, 2)
    {
      hide SiteOk, Unused, PlanFor, ActionNamed, Find, WithPermission, Allowed, AllowedCode;
      ghost var db0 := site.db;
      created := 0;
      for k := 0 to 2
        invariant site == old(site).(db := WithPermissions(db0, ids, k))
        invariant created == MissingBefore(db0, k)
      {
        PlanNames(old(site), plan.target, now, k);
        StillMissing(old(site), ids, k);
        if ActionNamed(plan.actions, AllowedCode(k)) == Some(CreatePermission) {
          site := site.(db := PlusPermission(site.db, Allowed(k), ids[k]));
          created := created + 1;
        }
      }
    }

    /** Grants the role each permission the plan said to grant, looked up again by code. */
    method InsertGrants(ghost site0: Site, plan: AcceptancePlan, ids: seq<string>, roleId: string, now: int)
      returns (created: nat)
      requires SiteOk(site0) && NewIds(site0, ids) && PlanFor(site0, plan.target, now) == Ok(plan)
      requires site == site0.(db := Prepared(site0.db, plan.target, ids))
      requires roleId == DedicatedId(site0.db, plan.target, ids[2])
      modifies this
      ensures site == site0.(db := WithCodes(Prepared(site0.db, plan.target, ids), roleId, 2))
      ensures created == UngrantedBefore(site0.db, roleId, 2)
    {
      hide SiteOk, Unused, PlanFor, ActionNamed, Find, RoleGrants, WithCode, Prepared;
      ghost var d := site.db;
      created := 0;
      for k := 0 to 2
        invariant site == site0.(db := WithCodes(d, roleId, k))
        invariant created == UngrantedBefore(site0.db, roleId, k)
      {
        PlanNames(site0, plan.target, now, k);
        StillUngranted(site0, plan.target, ids, roleId, k);
        if ActionNamed(plan.actions, plan.target.roleCode + ":" + AllowedCode(k)) == Some(CreateRolePermission) {
          var permission := Find(site.db.permissions, AllowedCode(k)).value;
          site := site.(db := site.db.(grants := site.db.grants + [Grant(roleId, permission.id)]));
          created := created + 1;
        }
      }
    }

    /**
     * The serializable transaction. It commits exactly on the confirmed, reviewed plan when no failure
     * is injected, writes exactly the planned rows, and leaves everything as it was otherwise; the two
     * guards behind its inserts never fire.
     */
    method Apply(token: string, expected: AcceptancePlan, t: Acceptance, failure: Failure, now: int, ids: seq<string>)
      returns (r: Result<Delta, Refused>)
      requires SiteOk(site) && NewIds(site, ids)
      modifies this
      ensures SiteOk(site)
      ensures r.Ok? <==> token == CONFIRMATION && PlanFor(old(site), t, now) == Ok(expected) && failure.NoFailure?
      ensures r.Err? ==> site == old(site) && r.error !in {PermissionsIncomplete, PlanIncomplete}
      ensures r.Ok? ==> site == old(site).(db := Enabled(old(site).db, t, expected.membershipId, ids, now))
                        && r.value == expected.expected
    {
      hide SiteOk, Unused, PlanFor, Find, RoleGrants, WithCodes, WithPermissions, LiveSeat, FindRole, Enabled, Count;
      if token != CONFIRMATION {
        return Err(TokenInvalid);
      }
      var planned := PlanFor(site, t, now);
      if planned.Err? {
        return Err(planned.error);
      }
      if planned.value != expected {
        return Err(DigestDrift);
      }
      var saved, plan := site, planned.value;
      PlanParts(saved, t, now);
      PermissionsAdded(saved, ids, 2);
      SeatTurn(saved, t, ids, now);
      WrittenTables(saved, t, ids, now);
      GrowthIsPlanned(saved, t, ids, now);
      Replans(saved, t, ids, now);
      var permissions := InsertPermissions(plan, ids, now);
      if failure.AfterPermissions? {
        site := saved;
        return Err(Injected);
      }
      var roleId, roles := plan.roleId, 0;
      if roleId.None? {
        roleId := Some(ids[2]);
        site := site.(db := site.db.(roles := site.db.roles + [Role(ids[2], t.workspaceId, t.roleCode)]));
        roles := 1;
      }
      assert site.db == Prepared(saved.db, t, ids);
      if failure.AfterRole? {
        site := saved;
        return Err(Injected);
      }
      if Find(site.db.permissions, IMPORT).None? || Find(site.db.permissions, REVIEW_VIEW).None? {
        assert false;
      }
      var grants := InsertGrants(saved, plan, ids, roleId.value, now);
      if failure.AfterRolePermissions? {
        site := saved;
        return Err(Injected);
      }
      var seats := 0;
      if Count(plan.actions, CreateMembershipRole) > 0 {
        var seat := Assignment(plan.membershipId, roleId.value, true, None);
        site := site.(db := site.db.(assignments := site.db.assignments + [seat]));
        seats := 1;
      }
      assert site.db == Enabled(saved.db, t, plan.membershipId, ids, now);
      var after := PlanFor(site, t, now);
      if after.Err? || after.value.expected != Delta(0, 0, 0, 0) {
        assert false;
      }
      return Ok(Delta(permissions, roles, grants, seats));
    }
  }

  /** Both names of permission `k` lead to what the plan decided about it. */
  lemma PlanNames(s: Site, t: Acceptance, now: int, k: nat)
    requires SiteOk(s) && PlanFor(s, t, now).Ok? && k < 2
    ensures var p := PlanFor(s, t, now).value;
            var r := FindRole(s.db.roles, t.workspaceId, t.roleCode);
            && ActionNamed(p.actions, AllowedCode(k))
               == Some(if Find(s.db.permissions, AllowedCode(k)).Some? then ReusePermission else CreatePermission)
            && ActionNamed(p.actions, t.roleCode + ":" + AllowedCode(k))
               == Some(if r.Some? && RoleGrants(s.db, r.value.id, AllowedCode(k)) then ReuseRolePermission
                       else CreateRolePermission)
  {
    hide AllowedCode, ActionNamed, RoleGrants, LiveSeat, RoleStop, DeltaOf;
    NamesFindTheirActions(s.db, t, PlanFor(s, t, now).value.membershipId,
                          FindRole(s.db.roles, t.workspaceId, t.roleCode), now, k);
  }

  lemma PlanParts(s: Site, t: Acceptance, now: int)
    requires PlanFor(s, t, now).Ok?
    ensures var p, r := PlanFor(s, t, now).value, FindRole(s.db.roles, t.workspaceId, t.roleCode);
            && p.target == t && p.roleId == IdOf(r)
            && (Count(p.actions, CreateMembershipRole) > 0
                <==> r.None? || !LiveSeat(s.db.assignments, p.membershipId, r.value.id, now))
  {
    hide RoleStop, LiveSeat, RoleGrants, Find;
    var p := PlanFor(s, t, now).value;
    CountsOfSix(p.actions, CreateMembershipRole);
  }

  /** The plan's action decides about the seat exactly as the rows would. */
  lemma SeatTurn(s: Site, t: Acceptance, ids: seq<string>, now: int)
    requires SiteOk(s) && NewIds(s, ids) && PlanFor(s, t, now).Ok?
    ensures var p, roleId := PlanFor(s, t, now).value, DedicatedId(s.db, t, ids[2]);
            var d := WithCodes(Prepared(s.db, t, ids), roleId, 2);
            d.assignments == s.db.assignments
            && Enabled(s.db, t, p.membershipId, ids, now)
            == if Count(p.actions, CreateMembershipRole) > 0
               then d.(assignments := d.assignments + [Assignment(p.membershipId, roleId, true, None)]) else d
  {
    hide DbOk, Unused, RoleGrants, LiveSeat, WithPermissions, WithCode, PlanFor;
    PermissionsFresh(s, ids, 2);
    PermissionsAdded(s, ids, 2);
    RoleAdded(WithPermissions(s.db, ids, 2), t, ids[2]);
    CodesAdded(Prepared(s.db, t, ids), FindRole(Prepared(s.db, t, ids).roles, t.workspaceId, t.roleCode).value, 2);
    PlanParts(s, t, now);
    NewRoleGrantsNothing(s, t, ids);
  }

  /** What the plan said of permission `k` still holds when its turn comes. */
  lemma StillMissing(s: Site, ids: seq<string>, k: nat)
    requires SiteOk(s) && NewIds(s, ids) && k < 2
    ensures WithPermissions(s.db, ids, k + 1)
            == if Find(s.db.permissions, AllowedCode(k)).None?
               then PlusPermission(WithPermissions(s.db, ids, k), Allowed(k), ids[k])
               else WithPermissions(s.db, ids, k)
  {
    hide DbOk, Unused, Find, Allowed;
    PermissionsAdded(s, ids, k);
  }

  /** What the plan said of granting permission `k` still holds when its turn comes. */
  lemma StillUngranted(s: Site, t: Acceptance, ids: seq<string>, roleId: string, k: nat)
    requires SiteOk(s) && NewIds(s, ids) && k < 2 && roleId == DedicatedId(s.db, t, ids[2])
    ensures var d, r := Prepared(s.db, t, ids), FindRole(s.db.roles, t.workspaceId, t.roleCode);
            var dk, p := WithCodes(d, roleId, k), Find(d.permissions, AllowedCode(k));
            && dk == d.(grants := dk.grants) && p.Some?
            && (r.None? ==> !RoleGrants(s.db, roleId, AllowedCode(k)))
            && WithCodes(d, roleId, k + 1)
               == if RoleGrants(s.db, roleId, AllowedCode(k)) then dk
                  else dk.(grants := dk.grants + [Grant(roleId, p.value.id)])
  {
    hide DbOk, Unused, RoleGrants, WithPermissions, WithPermission, FindRole, Find, IsAllowed, MissingBefore, AllowedCode,
         UngrantedBefore, Allowed, WithCodes;
    var d1, d2 := WithPermissions(s.db, ids, 2), Prepared(s.db, t, ids);
    PermissionsFresh(s, ids, 2);
    PermissionsAdded(s, ids, 2);
    RoleAdded(d1, t, ids[2]);
    NextCode(d2, FindRole(d2.roles, t.workspaceId, t.roleCode).value, k);
    PermissionsGrantNobody(s, ids, 2, roleId, AllowedCode(k));
    NewRoleGrantsNothing(s, t, ids);
  }

  /** Granting the first codes says nothing about the next. */
  lemma NextCode(db: Db, r: Role, k: nat)
    requires DbOk(db) && r in db.roles && k < 2
    requires Find(db.permissions, IMPORT).Some? && Find(db.permissions, REVIEW_VIEW).Some?
    ensures var d := WithCodes(db, r.id, k);
            && d == db.(grants := d.grants) && Find(db.permissions, AllowedCode(k)).Some?
            && WithCodes(db, r.id, k + 1) == WithCode(d, r.id, AllowedCode(k))
            && (RoleGrants(d, r.id, AllowedCode(k)) <==> RoleGrants(db, r.id, AllowedCode(k)))
  {
    hide DbOk, RoleGrants, Find, WithCode;
    CodesApart();
    CodesAdded(db, r, k);
  }
}

/**
 * Two curation roles for two different people: the plan, its serializable application, and the
 * separation of duties that holds once it has committed.
 */
module Bp02Activation {
  import opened Outcomes
  import opened AccessTables

  datatype Account = Account(id: string, email: string)

  datatype Membership = Membership(id: string, accountId: string, workspaceId: string, active: bool)

  datatype User = User(id: string, membershipId: string)

  datatype Assignment = Assignment(membershipId: string, roleId: string, isActive: bool, endDate: Option<int>)

  datatype Db = Db(
    organizations: map<string, string>,
    permissions: seq<Permission>,
    roles: seq<Role>,
    grants: seq<Grant>,
    accounts: seq<Account>,
    memberships: seq<Membership>,
    users: seq<User>,
    assignments: seq<Assignment>)

  /** Emails are already lower-case; the environment refuses equal ones. */
  datatype Target = Target(workspaceId: string, organizationId: string, verifierEmail: string, publisherEmail: string,
                           ownerEmail: string)

  datatype Kind = Verifier | Publisher

  const REVIEW_VIEW := "BASIC_PRICE_REVIEW_VIEW"
  const VERIFY := "BASIC_PRICE_VERIFY"
  const PUBLISH := "BASIC_PRICE_PUBLISH"
  const DIRECTOR := "DIRECTOR"

  const METADATA: seq<Metadata> := [
    Metadata(REVIEW_VIEW, "Basic Price Review View",
             "View internal (pre-publication) Basic Price submissions and curation reviews."),
    Metadata(VERIFY, "Basic Price Verify",
             "Accept, reject, request correction, or reassign a submitted Basic Price review."),
    Metadata(PUBLISH, "Basic Price Publish", "Publish a verified BasicPrice, making it publicly eligible.")]

  /** What every active membership may do without any role. */
  const BASELINE: set<string> := {"BASIC_PRICE_VIEW", "BASIC_PRICE_IMPORT", "BASIC_PRICE_RESOLVE", "BASIC_PRICE_SUBMIT"}

  function RoleCode(k: Kind): string {
    if k.Verifier? then "BASIC_PRICE_VERIFIER" else "BASIC_PRICE_PUBLISHER"
  }

  /** The permissions a curation role is to hold. */
  function Desired(k: Kind): seq<string> {
    if k.Verifier? then [REVIEW_VIEW, VERIFY] else [PUBLISH]
  }

  predicate IsCuration(code: string) {
    code == REVIEW_VIEW || code == VERIFY || code == PUBLISH
  }

  predicate IsCurationRole(code: string) {
    code == RoleCode(Verifier) || code == RoleCode(Publisher)
  }

  lemma CodesDiffer()
    ensures REVIEW_VIEW != VERIFY && VERIFY != PUBLISH && REVIEW_VIEW != PUBLISH
    ensures RoleCode(Verifier) != RoleCode(Publisher)
    ensures !IsCurationRole(DIRECTOR)
    ensures forall c | IsCuration(c) :: c !in BASELINE
  {
    assert |REVIEW_VIEW| == 23 && |VERIFY| == 18 && |PUBLISH| == 19;
    assert VERIFY[12] == 'V' && PUBLISH[12] == 'P';
    assert |RoleCode(Verifier)| == 20 && |RoleCode(Publisher)| == 21 && |DIRECTOR| == 8;
    assert |"BASIC_PRICE_VIEW"| == 16 && |"BASIC_PRICE_IMPORT"| == 18 && |"BASIC_PRICE_RESOLVE"| == 19
           && |"BASIC_PRICE_SUBMIT"| == 18;
    assert "BASIC_PRICE_IMPORT"[12] == 'I' && "BASIC_PRICE_RESOLVE"[12] == 'R' && "BASIC_PRICE_SUBMIT"[12] == 'S';
  }

  function LowerChar(c: char): char {
    if 'A' <= c <= 'Z' then c + 32 as char else c
  }

  function Lower(s: string): string {
    seq(|s|, i requires 0 <= i < |s| => LowerChar(s[i]))
  }

  // ---------------------------------------------------------------- lookups

  function FindRole(rs: seq<Role>, ws: string, code: string): (r: Option<Role>)
    ensures r.Some? ==> r.value in rs && r.value.workspaceId == ws && r.value.code == code
    ensures r.None? ==> forall q | q in rs && q.workspaceId == ws :: q.code != code
  {
    if |rs| == 0 then None
    else if rs[0].workspaceId == ws && rs[0].code == code then Some(rs[0])
    else
      assert rs == [rs[0]] + rs[1..];
      FindRole(rs[1..], ws, code)
  }

  /** `lower(email) = lower($1)`: the first such account. */
  function FindAccount(accounts: seq<Account>, email: string): (a: Option<Account>)
    ensures a.Some? ==> a.value in accounts && Lower(a.value.email) == Lower(email)
    ensures a.None? ==> forall q | q in accounts :: Lower(q.email) != Lower(email)
  {
    if |accounts| == 0 then None
    else if Lower(accounts[0].email) == Lower(email) then Some(accounts[0])
    else
      assert accounts == [accounts[0]] + accounts[1..];
      FindAccount(accounts[1..], email)
  }

  lemma {:induction false} FindAccountAppended(accounts: seq<Account>, a: Account, email: string)
    ensures FindAccount(accounts + [a], email) ==
            if FindAccount(accounts, email).Some? then FindAccount(accounts, email)
            else if Lower(a.email) == Lower(email) then Some(a) else None
  {
    if |accounts| > 0 && Lower(accounts[0].email) != Lower(email) {
      assert (accounts + [a])[1..] == accounts[1..] + [a];
      FindAccountAppended(accounts[1..], a, email);
    }
  }

  function FindMembership(ms: seq<Membership>, accountId: string, ws: string): (m: Option<Membership>)
    ensures m.Some? ==> m.value in ms && m.value.accountId == accountId && m.value.workspaceId == ws
    ensures m.None? ==> forall q | q in ms && q.accountId == accountId :: q.workspaceId != ws
  {
    if |ms| == 0 then None
    else if ms[0].accountId == accountId && ms[0].workspaceId == ws then Some(ms[0])
    else
      assert ms == [ms[0]] + ms[1..];
      FindMembership(ms[1..], accountId, ws)
  }

  predicate HasUser(us: seq<User>, membershipId: string) {
    exists u | u in us :: u.membershipId == membershipId
  }

  predicate Assigned(asg: seq<Assignment>, membershipId: string, roleId: string) {
    exists a | a in asg :: a.membershipId == membershipId && a.roleId == roleId && a.isActive
  }

  // ---------------------------------------------------------------- well-formed databases

  ghost predicate RolesOk(rs: seq<Role>) {
    && (forall r, q | r in rs && q in rs && r.id == q.id :: r == q)
    && (forall r, q | r in rs && q in rs && r.workspaceId == q.workspaceId && r.code == q.code :: r == q)
  }

  ghost predicate AccountsOk(accounts: seq<Account>) {
    forall a, b | a in accounts && b in accounts && a.id == b.id :: a == b
  }

  ghost predicate MembershipsOk(ms: seq<Membership>, accounts: seq<Account>) {
    && (forall m, n | m in ms && n in ms && m.id == n.id :: m == n)
    && (forall m, n | m in ms && n in ms && m.accountId == n.accountId && m.workspaceId == n.workspaceId :: m == n)
    && (forall m | m in ms :: HasAccount(accounts, m.accountId))
  }

  ghost predicate HasAccount(accounts: seq<Account>, id: string) {
    exists a :: a in accounts && a.id == id
  }

  ghost predicate HasMembership(ms: seq<Membership>, id: string) {
    exists m :: m in ms && m.id == id
  }

  ghost predicate HasRole(rs: seq<Role>, id: string) {
    exists r :: r in rs && r.id == id
  }

  ghost predicate GrantsKnown(gs: seq<Grant>, rs: seq<Role>) {
    forall g | g in gs :: HasRole(rs, g.roleId)
  }

  ghost predicate AssignmentsKnown(xs: seq<Assignment>, ms: seq<Membership>, rs: seq<Role>) {
    forall x | x in xs :: HasMembership(ms, x.membershipId) && HasRole(rs, x.roleId)
  }

  ghost predicate DbOk(db: Db) {
    && TablesOk(db.permissions, db.grants)
    && RolesOk(db.roles) && AccountsOk(db.accounts) && MembershipsOk(db.memberships, db.accounts)
    && GrantsKnown(db.grants, db.roles) && AssignmentsKnown(db.assignments, db.memberships, db.roles)
    && UsersKnown(db.users, db.memberships)
  }

  ghost predicate UsersKnown(us: seq<User>, ms: seq<Membership>) {
    forall u | u in us :: HasMembership(ms, u.membershipId)
  }

  /** An id no row carries. */
  ghost predicate Unused(db: Db, id: string) {
    && FindById(db.permissions, id).None?
    && (forall r | r in db.roles :: r.id != id)
    && (forall a | a in db.accounts :: a.id != id)
    && (forall m | m in db.memberships :: m.id != id)
  }

  // ---------------------------------------------------------------- who holds what

  /** The in-transaction proof's query: active membership, active assignment, grant. */
  predicate Holds(db: Db, accountId: string, ws: string, code: string) {
    exists m | m in db.memberships ::
      m.accountId == accountId && m.workspaceId == ws && m.active
      && exists a | a in db.assignments ::
           a.membershipId == m.id && a.isActive && RoleGrants(db, a.roleId, code)
  }

  predicate RoleGrants(db: Db, roleId: string, code: string) {
    exists g | g in db.grants ::
      g.roleId == roleId && exists p | p in db.permissions :: p.id == g.permissionId && p.code == code
  }

  /** The resolver: nothing without an active membership, else the baseline and every unexpired role's grants. */
  predicate Resolves(db: Db, accountId: string, ws: string, asOf: int, code: string) {
    exists m | m in db.memberships ::
      m.accountId == accountId && m.workspaceId == ws && m.active
      && (code in BASELINE
          || exists a | a in db.assignments ::
               a.membershipId == m.id && a.isActive && (a.endDate.None? || asOf <= a.endDate.value)
               && RoleGrants(db, a.roleId, code))
  }

  predicate DirectorHolds(db: Db, ws: string) {
    exists r | r in db.roles ::
      r.workspaceId == ws && r.code == DIRECTOR
      && exists g | g in db.grants ::
           g.roleId == r.id && exists p | p in db.permissions :: p.id == g.permissionId && IsCuration(p.code)
  }

  /** Some account of the email is actively assigned to role `r` through a membership of the workspace. */
  predicate EmailAssigned(db: Db, ws: string, email: string, r: Role) {
    exists a | a in db.accounts ::
      Lower(a.email) == Lower(email)
      && exists m | m in db.memberships ::
           m.accountId == a.id && m.workspaceId == ws && Assigned(db.assignments, m.id, r.id)
  }

  predicate OwnerHolds(db: Db, ws: string, email: string) {
    exists r | r in db.roles ::
      IsCurationRole(r.code) && EmailAssigned(db, ws, email, r)
      && (RoleGrants(db, r.id, REVIEW_VIEW) || RoleGrants(db, r.id, VERIFY) || RoleGrants(db, r.id, PUBLISH))
  }

  /** The owner already sits in one of the workspace's curation roles, whatever that role grants so far. */
  predicate OwnerSits(db: Db, ws: string, email: string) {
    exists r | r in db.roles :: r.workspaceId == ws && IsCurationRole(r.code) && EmailAssigned(db, ws, email, r)
  }

  // ---------------------------------------------------------------- the plan

  datatype ActorPlan = ActorPlan(email: string, accountId: Option<string>, membershipId: Option<string>, hasUser: bool,
                                 isAssigned: bool)

  datatype Plan = Plan(
    target: Target,
    permissionIds: seq<Option<string>>,
    roleIds: seq<Option<string>>,
    held: seq<bool>,
    verifier: ActorPlan,
    publisher: ActorPlan,
    directorHolds: bool,
    ownerHolds: bool)

  datatype Stop =
    | WorkspaceNotFound | OrganizationDrift | VerifierRoleHasPublish | PublisherRoleHasVerify
    | AccountCollision | PlanDrift | DirectorAlreadyHolds | OwnerAlreadyHolds
    | SodSameAccount | SodVerifierMissing | SodVerifierHasPublish | SodPublisherMissing | SodPublisherHasVerify
    | PostconditionIncomplete | DirectorReceived | OwnerReceived

  function IdOf(r: Option<Role>): Option<string> {
    if r.Some? then Some(r.value.id) else None
  }

  function PermissionId(p: Option<Permission>): Option<string> {
    if p.Some? then Some(p.value.id) else None
  }

  predicate HeldIn(rs: seq<Role>, ps: seq<Permission>, gs: seq<Grant>, ws: string, k: Kind, code: string) {
    var r, p := FindRole(rs, ws, RoleCode(k)), Find(ps, code);
    r.Some? && p.Some? && Grant(r.value.id, p.value.id) in gs
  }

  predicate Held(db: Db, ws: string, k: Kind, code: string) {
    HeldIn(db.roles, db.permissions, db.grants, ws, k, code)
  }

  function ActorIn(accounts: seq<Account>, ms: seq<Membership>, us: seq<User>, asg: seq<Assignment>, rs: seq<Role>,
                   ws: string, k: Kind, email: string): ActorPlan {
    var a := FindAccount(accounts, email);
    if a.None? then ActorPlan(email, None, None, false, false)
    else
      var m := FindMembership(ms, a.value.id, ws);
      if m.None? then ActorPlan(email, Some(a.value.id), None, false, false)
      else
        var r := FindRole(rs, ws, RoleCode(k));
        ActorPlan(email, Some(a.value.id), Some(m.value.id), HasUser(us, m.value.id),
                  r.Some? && Assigned(asg, m.value.id, r.value.id))
  }

  function ActorOf(db: Db, ws: string, k: Kind, email: string): ActorPlan {
    ActorIn(db.accounts, db.memberships, db.users, db.assignments, db.roles, ws, k, email)
  }

  function PlanOf(db: Db, t: Target): Plan {
    var ws := t.workspaceId;
    Plan(t,
         [PermissionId(Find(db.permissions, REVIEW_VIEW)), PermissionId(Find(db.permissions, VERIFY)),
          PermissionId(Find(db.permissions, PUBLISH))],
         [IdOf(FindRole(db.roles, ws, RoleCode(Verifier))), IdOf(FindRole(db.roles, ws, RoleCode(Publisher)))],
         [Held(db, ws, Verifier, REVIEW_VIEW), Held(db, ws, Verifier, VERIFY), Held(db, ws, Publisher, PUBLISH)],
         ActorOf(db, ws, Verifier, t.verifierEmail), ActorOf(db, ws, Publisher, t.publisherEmail),
         DirectorHolds(db, ws), OwnerHolds(db, ws, t.ownerEmail))
  }

  /** Why no plan can be made, in the order the script asks. */
  function PlanStop(db: Db, t: Target): (s: Option<Stop>)
    ensures s.Some? ==> s.value in {WorkspaceNotFound, OrganizationDrift, VerifierRoleHasPublish, PublisherRoleHasVerify,
                                    AccountCollision}
  {
    var ws := t.workspaceId;
    var v, p := FindRole(db.roles, ws, RoleCode(Verifier)), FindRole(db.roles, ws, RoleCode(Publisher));
    var plan := PlanOf(db, t);
    if ws !in db.organizations then Some(WorkspaceNotFound)
    else if db.organizations[ws] != t.organizationId then Some(OrganizationDrift)
    else if v.Some? && RoleGrants(db, v.value.id, PUBLISH) then Some(VerifierRoleHasPublish)
    else if p.Some? && RoleGrants(db, p.value.id, VERIFY) then Some(PublisherRoleHasVerify)
    else if plan.verifier.accountId.Some? && plan.verifier.accountId == plan.publisher.accountId then Some(AccountCollision)
    else None
  }

  predicate ActorComplete(a: ActorPlan) {
    a.accountId.Some? && a.membershipId.Some? && a.hasUser && a.isAssigned
  }

  /** Nothing is left to insert. */
  predicate Complete(p: Plan) {
    && (forall i | i in p.permissionIds :: i.Some?) && (forall i | i in p.roleIds :: i.Some?)
    && (forall h | h in p.held :: h)
    && ActorComplete(p.verifier) && ActorComplete(p.publisher)
  }

  // ---------------------------------------------------------------- what applying may change

  /** A grant this activation is for: one of a curation role's own permissions, to that role of the workspace. */
  predicate CurationGrant(db: Db, ws: string, g: Grant) {
    exists r | r in db.roles ::
      r.id == g.roleId && r.workspaceId == ws
      && exists p | p in db.permissions ::
           p.id == g.permissionId
           && ((r.code == RoleCode(Verifier) && p.code in Desired(Verifier))
               || (r.code == RoleCode(Publisher) && p.code in Desired(Publisher)))
  }

  /** An account with one of the two emails. */
  predicate IsActor(db: Db, t: Target, accountId: string) {
    exists a | a in db.accounts ::
      a.id == accountId && (Lower(a.email) == Lower(t.verifierEmail) || Lower(a.email) == Lower(t.publisherEmail))
  }

  predicate ActorAssignment(db: Db, t: Target, x: Assignment) {
    exists m | m in db.memberships ::
      m.id == x.membershipId && IsActor(db, t, m.accountId)
  }

  /** Rows are only added; an old membership may at most have been activated. */
  ghost predicate Grew(db: Db, db': Db, t: Target) {
    && db.organizations == db'.organizations
    && db.permissions <= db'.permissions && db.roles <= db'.roles && db.grants <= db'.grants
    && db.accounts <= db'.accounts && db.users <= db'.users && db.assignments <= db'.assignments
    && |db.memberships| <= |db'.memberships|
    && (forall i | 0 <= i < |db.memberships| :: SameMember(db.memberships[i], db'.memberships[i]))
    && (forall i | |db.grants| <= i < |db'.grants| :: CurationGrant(db', t.workspaceId, db'.grants[i]))
    && (forall i | |db.assignments| <= i < |db'.assignments| :: ActorAssignment(db', t, db'.assignments[i]))
  }

  predicate SameMember(m: Membership, n: Membership) {
    n == m || n == m.(active := true)
  }

  // ---------------------------------------------------------------- the inserts, one table at a time

  function PlusPermission(db: Db, m: Metadata, id: string): Db {
    db.(permissions := db.permissions + [Permission(id, m.code, m.name, Some(m.description))])
  }

  function WithPermission(db: Db, m: Metadata, id: string): Db {
    if Find(db.permissions, m.code).Some? then db else PlusPermission(db, m, id)
  }

  function PlusRole(db: Db, ws: string, k: Kind, id: string): Db {
    db.(roles := db.roles + [Role(id, ws, RoleCode(k))])
  }

  function WithRole(db: Db, ws: string, k: Kind, id: string): Db {
    if FindRole(db.roles, ws, RoleCode(k)).Some? then db else PlusRole(db, ws, k, id)
  }

  /** The grant of an existing permission to an existing role. */
  function PlusGrant(db: Db, ws: string, k: Kind, code: string): Db {
    var r, p := FindRole(db.roles, ws, RoleCode(k)), Find(db.permissions, code);
    if r.None? || p.None? then db else db.(grants := db.grants + [Grant(r.value.id, p.value.id)])
  }

  function WithGrant(db: Db, ws: string, k: Kind, code: string): Db {
    if Held(db, ws, k, code) then db else PlusGrant(db, ws, k, code)
  }

  function WithAccount(db: Db, email: string, id: string): Db {
    if FindAccount(db.accounts, email).Some? then db else db.(accounts := db.accounts + [Account(id, email)])
  }

  function WithMembership(db: Db, accountId: string, ws: string, id: string): Db {
    if FindMembership(db.memberships, accountId, ws).Some? then db
    else db.(memberships := db.memberships + [Membership(id, accountId, ws, true)])
  }

  function Activated(ms: seq<Membership>, id: string): (r: seq<Membership>)
    ensures |r| == |ms|
    ensures forall i | 0 <= i < |ms| :: r[i] == Act(ms[i], id)
  {
    seq(|ms|, i requires 0 <= i < |ms| => Act(ms[i], id))
  }

  function Act(m: Membership, id: string): Membership {
    if m.id == id then m.(active := true) else m
  }

  function WithActive(db: Db, id: string): Db {
    db.(memberships := Activated(db.memberships, id))
  }

  function WithUser(db: Db, membershipId: string, id: string): Db {
    if HasUser(db.users, membershipId) then db else db.(users := db.users + [User(id, membershipId)])
  }

  function WithAssignment(db: Db, membershipId: string, roleId: string): Db {
    if Assigned(db.assignments, membershipId, roleId) then db
    else db.(assignments := db.assignments + [Assignment(membershipId, roleId, true, None)])
  }

  // ---------------------------------------------------------------- what each insert keeps

  function EmailOf(t: Target, k: Kind): string {
    if k.Verifier? then t.verifierEmail else t.publisherEmail
  }

  lemma PermissionStep(db: Db, t: Target, m: Metadata, id: string)
    requires DbOk(db) && Unused(db, id)
    ensures var db' := WithPermission(db, m, id);
            && DbOk(db') && Grew(db, db', t)
            && db' == db.(permissions := db'.permissions)
            && Find(db'.permissions, m.code).Some?
  {
    var p := Permission(id, m.code, m.name, Some(m.description));
    if Find(db.permissions, m.code).None? {
      InsertPermissionOk(db.permissions, db.grants, p);
      FindAppended(db.permissions, p, m.code);
    }
  }

  /** A permission nobody holds yet changes no other lookup and no grant. */
  lemma PermissionIsQuiet(db: Db, ws: string, m: Metadata, id: string, k: Kind, c: string)
    requires DbOk(db) && Unused(db, id)
    ensures var db' := WithPermission(db, m, id);
            && (c != m.code ==> Find(db'.permissions, c) == Find(db.permissions, c))
            && (Held(db', ws, k, c) <==> Held(db, ws, k, c))
  {
    var p := Permission(id, m.code, m.name, Some(m.description));
    FindAppended(db.permissions, p, c);
    assert forall g | g in db.grants :: FindById(db.permissions, g.permissionId).Some? && g.permissionId != id;
  }

  lemma PermissionLeavesUnused(db: Db, m: Metadata, id: string, j: string)
    requires Unused(db, j) && j != id
    ensures Unused(WithPermission(db, m, id), j)
  {
    FindByIdAppended(db.permissions, Permission(id, m.code, m.name, Some(m.description)), j);
  }

  lemma NewRoleOk(rs: seq<Role>, r: Role)
    requires RolesOk(rs) && FindRole(rs, r.workspaceId, r.code).None? && forall q | q in rs :: q.id != r.id
    ensures RolesOk(rs + [r])
    ensures FindRole(rs + [r], r.workspaceId, r.code) == Some(r)
    ensures forall c | c != r.code :: FindRole(rs + [r], r.workspaceId, c) == FindRole(rs, r.workspaceId, c)
  {
    assert r in rs + [r];
    assert forall q :: q in rs + [r] <==> q in rs || q == r;
    forall c | c != r.code
      ensures FindRole(rs + [r], r.workspaceId, c) == FindRole(rs, r.workspaceId, c)
    {
    }
  }

  lemma MoreRolesKnown(xs: seq<Assignment>, ms: seq<Membership>, gs: seq<Grant>, rs: seq<Role>, r: Role)
    requires AssignmentsKnown(xs, ms, rs) && GrantsKnown(gs, rs)
    ensures AssignmentsKnown(xs, ms, rs + [r]) && GrantsKnown(gs, rs + [r])
  {
    forall id | HasRole(rs, id)
      ensures HasRole(rs + [r], id)
    {
      var q :| q in rs && q.id == id;
      assert q in rs + [r];
    }
  }

  lemma RoleStep(db: Db, t: Target, k: Kind, id: string)
    requires DbOk(db) && Unused(db, id)
    ensures var db' := WithRole(db, t.workspaceId, k, id);
            && DbOk(db') && Grew(db, db', t)
            && db' == db.(roles := db'.roles)
            && FindRole(db'.roles, t.workspaceId, RoleCode(k)).Some?
  {
    var r := Role(id, t.workspaceId, RoleCode(k));
    if FindRole(db.roles, t.workspaceId, RoleCode(k)).None? {
      NewRoleOk(db.roles, r);
      MoreRolesKnown(db.assignments, db.memberships, db.grants, db.roles, r);
    }
  }

  /** A role nobody has been given anything through changes no grant and no other role. */
  lemma RoleIsQuiet(db: Db, ws: string, k: Kind, id: string, j: Kind, c: string)
    requires DbOk(db) && Unused(db, id)
    ensures var db' := WithRole(db, ws, k, id);
            && (j != k ==> FindRole(db'.roles, ws, RoleCode(j)) == FindRole(db.roles, ws, RoleCode(j)))
            && (Held(db', ws, j, c) <==> Held(db, ws, j, c))
  {
    CodesDiffer();
    if FindRole(db.roles, ws, RoleCode(k)).None? {
      NewRoleOk(db.roles, Role(id, ws, RoleCode(k)));
      assert forall g | g in db.grants :: HasRole(db.roles, g.roleId) && g.roleId != id;
    }
  }

  lemma RoleLeavesActors(db: Db, ws: string, k: Kind, id: string, j: Kind, email: string)
    requires DbOk(db) && Unused(db, id)
    ensures ActorOf(WithRole(db, ws, k, id), ws, j, email) == ActorOf(db, ws, j, email)
  {
    hide TablesOk, MembershipsOk, AccountsOk, GrantsKnown, FindRole, RolesOk;
    CodesDiffer();
    if FindRole(db.roles, ws, RoleCode(k)).None? {
      NewRoleOk(db.roles, Role(id, ws, RoleCode(k)));
      assert forall a | a in db.assignments :: HasRole(db.roles, a.roleId) && a.roleId != id;
    }
  }

  lemma RoleLeavesUnused(db: Db, ws: string, k: Kind, id: string, j: string)
    requires Unused(db, j) && j != id
    ensures Unused(WithRole(db, ws, k, id), j)
  {
  }

  lemma GrantStep(db: Db, t: Target, k: Kind, code: string)
    requires DbOk(db) && code in Desired(k)
    requires FindRole(db.roles, t.workspaceId, RoleCode(k)).Some? && Find(db.permissions, code).Some?
    ensures var db' := WithGrant(db, t.workspaceId, k, code);
            && DbOk(db') && Grew(db, db', t)
            && db' == db.(grants := db'.grants)
            && Held(db', t.workspaceId, k, code)
  {
    var ws := t.workspaceId;
    var r, p := FindRole(db.roles, ws, RoleCode(k)).value, Find(db.permissions, code).value;
    if !Held(db, ws, k, code) {
      var g := Grant(r.id, p.id);
      assert FindById(db.permissions, p.id).Some?;
      InsertGrantOk(db.permissions, db.grants, g);
      assert HasRole(db.roles, r.id);
      assert CurationGrant(WithGrant(db, ws, k, code), ws, g);
    }
  }

  /** Another pair of role and permission is held exactly as before. */
  lemma GrantIsQuiet(db: Db, ws: string, k: Kind, code: string, j: Kind, c: string)
    requires DbOk(db) && (j != k || c != code)
    ensures Held(WithGrant(db, ws, k, code), ws, j, c) <==> Held(db, ws, j, c)
  {
    CodesDiffer();
  }

  // ---------------------------------------------------------------- one actor

  /** The membership of the actor's account, once both exist. */
  function ActorMembership(db: Db, ws: string, email: string): Option<Membership> {
    var a := FindAccount(db.accounts, email);
    if a.None? then None else FindMembership(db.memberships, a.value.id, ws)
  }

  function WithActor(db: Db, ws: string, k: Kind, email: string, ids: (string, string, string)): Db {
    var d1 := WithAccount(db, email, ids.0);
    var a := FindAccount(d1.accounts, email);
    if a.None? then d1
    else
      var d2 := WithMembership(d1, a.value.id, ws, ids.1);
      var m, r := FindMembership(d2.memberships, a.value.id, ws), FindRole(db.roles, ws, RoleCode(k));
      if m.None? || r.None? then d2
      else WithAssignment(WithUser(WithActive(d2, m.value.id), m.value.id, ids.2), m.value.id, r.value.id)
  }

  lemma NewAccountOk(accounts: seq<Account>, a: Account, ms: seq<Membership>)
    requires AccountsOk(accounts) && MembershipsOk(ms, accounts) && forall b | b in accounts :: b.id != a.id
    ensures AccountsOk(accounts + [a]) && MembershipsOk(ms, accounts + [a])
    ensures forall m | m in ms :: m.accountId != a.id
  {
    forall x | HasAccount(accounts, x)
      ensures HasAccount(accounts + [a], x) && x != a.id
    {
      var b :| b in accounts && b.id == x;
      assert b in accounts + [a];
    }
  }

  lemma NewAccountFound(accounts: seq<Account>, a: Account)
    ensures FindAccount(accounts, a.email).None? ==> FindAccount(accounts + [a], a.email) == Some(a)
    ensures forall e | Lower(e) != Lower(a.email) :: FindAccount(accounts + [a], e) == FindAccount(accounts, e)
  {
    forall e
      ensures FindAccount(accounts + [a], e) == if FindAccount(accounts, e).Some? then FindAccount(accounts, e)
                                                else if Lower(a.email) == Lower(e) then Some(a) else None
    {
      FindAccountAppended(accounts, a, e);
    }
  }

  lemma AccountStep(db: Db, t: Target, email: string, id: string)
    requires DbOk(db) && Unused(db, id)
    ensures var db' := WithAccount(db, email, id);
            && DbOk(db') && Grew(db, db', t) && db' == db.(accounts := db'.accounts)
            && FindAccount(db'.accounts, email).Some?
            && (forall e | Lower(e) != Lower(email) :: FindAccount(db'.accounts, e) == FindAccount(db.accounts, e))
            && (FindAccount(db.accounts, email).None? ==>
                  FindMembership(db.memberships, FindAccount(db'.accounts, email).value.id, t.workspaceId).None?)
  {
    hide AccountsOk, MembershipsOk, TablesOk, RolesOk, GrantsKnown, AssignmentsKnown, UsersKnown;
    if FindAccount(db.accounts, email).None? {
      NewAccountOk(db.accounts, Account(id, email), db.memberships);
      NewAccountFound(db.accounts, Account(id, email));
    }
  }

  lemma MembershipStep(db: Db, t: Target, accountId: string, id: string)
    requires DbOk(db) && Unused(db, id) && HasAccount(db.accounts, accountId)
    ensures var db' := WithMembership(db, accountId, t.workspaceId, id);
            && DbOk(db') && Grew(db, db', t) && db' == db.(memberships := db'.memberships)
            && FindMembership(db'.memberships, accountId, t.workspaceId).Some?
            && (forall b | b != accountId ::
                  FindMembership(db'.memberships, b, t.workspaceId) == FindMembership(db.memberships, b, t.workspaceId))
  {
    hide TablesOk, FindMembership, FindById;
    var ws := t.workspaceId;
    if FindMembership(db.memberships, accountId, ws).None? {
      var m := Membership(id, accountId, ws, true);
      var ms := db.memberships + [m];
      assert m in ms && forall n :: n in ms <==> n in db.memberships || n == m;
      assert MembershipsOk(ms, db.accounts);
      forall x | HasMembership(db.memberships, x)
        ensures HasMembership(ms, x)
      {
        var n :| n in db.memberships && n.id == x;
        assert n in ms;
      }
      assert AssignmentsKnown(db.assignments, ms, db.roles) && UsersKnown(db.users, ms);
    }
  }

  lemma ActivatedFrom(ms: seq<Membership>, id: string, n: Membership) returns (m: Membership)
    requires n in Activated(ms, id)
    ensures m in ms && n == Act(m, id)
  {
    var i :| 0 <= i < |ms| && Activated(ms, id)[i] == n;
    m := ms[i];
  }

  lemma ActivatedTo(ms: seq<Membership>, id: string, m: Membership)
    requires m in ms
    ensures Act(m, id) in Activated(ms, id)
  {
    var i :| 0 <= i < |ms| && ms[i] == m;
    assert Activated(ms, id)[i] == Act(m, id);
  }

  lemma ActivatedKeepsTable(ms: seq<Membership>, accounts: seq<Account>, id: string)
    requires MembershipsOk(ms, accounts)
    ensures MembershipsOk(Activated(ms, id), accounts)
  {
    var ns := Activated(ms, id);
    forall m, n | m in ns && n in ns && (m.id == n.id || (m.accountId == n.accountId && m.workspaceId == n.workspaceId))
      ensures m == n
    {
      var m0 := ActivatedFrom(ms, id, m);
      var n0 := ActivatedFrom(ms, id, n);
    }
    forall n | n in ns
      ensures HasAccount(accounts, n.accountId)
    {
      var n0 := ActivatedFrom(ms, id, n);
    }
  }

  lemma ActivatedKeepsIds(ms: seq<Membership>, xs: seq<Assignment>, us: seq<User>, rs: seq<Role>, id: string)
    requires AssignmentsKnown(xs, ms, rs) && UsersKnown(us, ms)
    ensures AssignmentsKnown(xs, Activated(ms, id), rs) && UsersKnown(us, Activated(ms, id))
  {
    forall x | HasMembership(ms, x)
      ensures HasMembership(Activated(ms, id), x)
    {
      var m :| m in ms && m.id == x;
      ActivatedTo(ms, id, m);
    }
  }

  lemma ActivatedLookup(ms: seq<Membership>, accounts: seq<Account>, id: string, b: string, ws: string)
    requires MembershipsOk(ms, accounts)
    ensures ActiveTwin(FindMembership(ms, b, ws), FindMembership(Activated(ms, id), b, ws), id)
  {
    ActivatedKeepsTable(ms, accounts, id);
    var f, g := FindMembership(ms, b, ws), FindMembership(Activated(ms, id), b, ws);
    if f.Some? {
      ActivatedTo(ms, id, f.value);
    }
    if g.Some? {
      var m := ActivatedFrom(ms, id, g.value);
    }
  }

  /** The same lookup before and after an activation. */
  predicate ActiveTwin(f: Option<Membership>, g: Option<Membership>, id: string) {
    match f
    case None => g.None?
    case Some(m) => g == Some(Act(m, id))
  }

  lemma ActiveStep(db: Db, t: Target, id: string)
    requires DbOk(db)
    ensures var db' := WithActive(db, id);
            && DbOk(db') && Grew(db, db', t) && db' == db.(memberships := db'.memberships)
            && (forall b, ws :: ActiveTwin(FindMembership(db.memberships, b, ws), FindMembership(db'.memberships, b, ws), id))
  {
    ActivatedKeepsTable(db.memberships, db.accounts, id);
    ActivatedKeepsIds(db.memberships, db.assignments, db.users, db.roles, id);
    forall b, ws
      ensures ActiveTwin(FindMembership(db.memberships, b, ws), FindMembership(Activated(db.memberships, id), b, ws), id)
    {
      ActivatedLookup(db.memberships, db.accounts, id, b, ws);
    }
  }

  lemma AssignmentStep(db: Db, t: Target, m: Membership, r: Role)
    requires DbOk(db) && m in db.memberships && r in db.roles && IsActor(db, t, m.accountId)
    ensures var db' := WithAssignment(db, m.id, r.id);
            && DbOk(db') && Grew(db, db', t) && db' == db.(assignments := db'.assignments)
            && Assigned(db'.assignments, m.id, r.id)
            && (forall n, q | n != m.id :: Assigned(db'.assignments, n, q) <==> Assigned(db.assignments, n, q))
  {
    if !Assigned(db.assignments, m.id, r.id) {
      var x := Assignment(m.id, r.id, true, None);
      var db' := WithAssignment(db, m.id, r.id);
      assert x in db'.assignments;
      assert HasMembership(db.memberships, m.id) && HasRole(db.roles, r.id);
      assert ActorAssignment(db', t, x);
      forall n, q | Assigned(db.assignments, n, q)
        ensures Assigned(db'.assignments, n, q)
      {
        var y :| y in db.assignments && y.membershipId == n && y.roleId == q && y.isActive;
        assert y in db'.assignments;
      }
    }
  }

  // ---------------------------------------------------------------- steps in sequence

  lemma CurationGrantStays(b: Db, c: Db, ws: string, g: Grant)
    requires b.roles <= c.roles && b.permissions <= c.permissions && CurationGrant(b, ws, g)
    ensures CurationGrant(c, ws, g)
  {
    var r :| r in b.roles && r.id == g.roleId && r.workspaceId == ws
             && exists p | p in b.permissions ::
                  p.id == g.permissionId
                  && ((r.code == RoleCode(Verifier) && p.code in Desired(Verifier))
                      || (r.code == RoleCode(Publisher) && p.code in Desired(Publisher)));
    var p :| p in b.permissions && p.id == g.permissionId
             && ((r.code == RoleCode(Verifier) && p.code in Desired(Verifier))
                 || (r.code == RoleCode(Publisher) && p.code in Desired(Publisher)));
    assert r in c.roles && p in c.permissions;
  }

  lemma IsActorStays(b: Db, c: Db, t: Target, accountId: string)
    requires b.accounts <= c.accounts && IsActor(b, t, accountId)
    ensures IsActor(c, t, accountId)
  {
    var a :| a in b.accounts && a.id == accountId
             && (Lower(a.email) == Lower(t.verifierEmail) || Lower(a.email) == Lower(t.publisherEmail));
    assert a in c.accounts;
  }

  lemma ActorAssignmentStays(b: Db, c: Db, t: Target, x: Assignment)
    requires Grew(b, c, t) && ActorAssignment(b, t, x)
    ensures ActorAssignment(c, t, x)
  {
    var m :| m in b.memberships && m.id == x.membershipId && IsActor(b, t, m.accountId);
    var i :| 0 <= i < |b.memberships| && b.memberships[i] == m;
    IsActorStays(b, c, t, m.accountId);
    assert SameMember(m, c.memberships[i]) && c.memberships[i] in c.memberships;
  }

  lemma GrewTransitive(a: Db, b: Db, c: Db, t: Target)
    requires Grew(a, b, t) && Grew(b, c, t)
    ensures Grew(a, c, t)
  {
    forall i | |a.grants| <= i < |c.grants|
      ensures CurationGrant(c, t.workspaceId, c.grants[i])
    {
      if i < |b.grants| {
        assert c.grants[i] == b.grants[i];
        CurationGrantStays(b, c, t.workspaceId, b.grants[i]);
      }
    }
    forall i | |a.assignments| <= i < |c.assignments|
      ensures ActorAssignment(c, t, c.assignments[i])
    {
      if i < |b.assignments| {
        assert c.assignments[i] == b.assignments[i];
        ActorAssignmentStays(b, c, t, b.assignments[i]);
      }
    }
    forall i | 0 <= i < |a.memberships|
      ensures SameMember(a.memberships[i], c.memberships[i])
    {
      assert SameMember(a.memberships[i], b.memberships[i]) && SameMember(b.memberships[i], c.memberships[i]);
    }
  }

  /** The actor is complete and its membership is active. */
  predicate ActorReady(db: Db, ws: string, k: Kind, email: string) {
    var m := ActorMembership(db, ws, email);
    ActorComplete(ActorOf(db, ws, k, email)) && m.Some? && m.value.active
  }

  /** Account and membership exist, the membership is active; user and assignment are still to come. */
  lemma ActorSeated(db: Db, t: Target, k: Kind, ids: (string, string, string)) returns (d: Db, m: Membership)
    requires DbOk(db) && Unused(db, ids.0) && Unused(db, ids.1) && ids.0 != ids.1
    ensures var email := EmailOf(t, k);
            var d1 := WithAccount(db, email, ids.0);
            && FindAccount(d1.accounts, email).Some?
            && var a := FindAccount(d1.accounts, email).value;
            var d2 := WithMembership(d1, a.id, t.workspaceId, ids.1);
            && FindMembership(d2.memberships, a.id, t.workspaceId).Some?
            && d == WithActive(d2, FindMembership(d2.memberships, a.id, t.workspaceId).value.id)
            && m.id == FindMembership(d2.memberships, a.id, t.workspaceId).value.id
    ensures DbOk(d) && Grew(db, d, t) && d == db.(accounts := d.accounts, memberships := d.memberships)
    ensures ActorMembership(d, t.workspaceId, EmailOf(t, k)) == Some(m) && m.active && IsActor(d, t, m.accountId)
    ensures forall e | Lower(e) != Lower(EmailOf(t, k)) :: SameSeat(db, d, t.workspaceId, e)
  {
    hide DbOk;
    var ws, email := t.workspaceId, EmailOf(t, k);
    AccountStep(db, t, email, ids.0);
    var d1 := WithAccount(db, email, ids.0);
    var a := FindAccount(d1.accounts, email).value;
    assert HasAccount(d1.accounts, a.id);
    MembershipStep(d1, t, a.id, ids.1);
    var d2 := WithMembership(d1, a.id, ws, ids.1);
    var id := FindMembership(d2.memberships, a.id, ws).value.id;
    ActiveStep(d2, t, id);
    d := WithActive(d2, id);
    m := FindMembership(d.memberships, a.id, ws).value;
    GrewTransitive(db, d1, d2, t);
    GrewTransitive(db, d2, d, t);
    forall e | Lower(e) != Lower(email)
      ensures SameSeat(db, d, ws, e)
    {
      OtherSeat(db, d1, d2, d, ws, a, id, e);
    }
  }

  /** The lookups for another email give the same account and the same membership, activation apart. */
  ghost predicate SameSeat(db: Db, d: Db, ws: string, email: string) {
    && FindAccount(d.accounts, email) == FindAccount(db.accounts, email)
    && ActorMembership(d, ws, email) == ActorMembership(db, ws, email)
  }

  lemma OtherSeat(db: Db, d1: Db, d2: Db, d: Db, ws: string, a: Account, id: string, e: string)
    requires DbOk(d1) && DbOk(d2) && a in d1.accounts && d1.memberships == db.memberships && d2.accounts == d1.accounts
    requires Lower(e) != Lower(a.email) && FindAccount(d1.accounts, e) == FindAccount(db.accounts, e)
    requires forall b | b != a.id :: FindMembership(d2.memberships, b, ws) == FindMembership(d1.memberships, b, ws)
    requires FindMembership(d2.memberships, a.id, ws).Some? && FindMembership(d2.memberships, a.id, ws).value.id == id
    requires d == d2.(memberships := d.memberships)
    requires forall b, w :: ActiveTwin(FindMembership(d2.memberships, b, w), FindMembership(d.memberships, b, w), id)
    ensures SameSeat(db, d, ws, e)
  {
    var other := FindAccount(d1.accounts, e);
    if other.Some? {
      assert other.value.id != a.id;
      assert ActiveTwin(FindMembership(d2.memberships, other.value.id, ws),
                        FindMembership(d.memberships, other.value.id, ws), id);
      var n := FindMembership(d2.memberships, other.value.id, ws);
      assert n.Some? ==> n.value.id != id;
    }
  }

  /** The seat of the actor and how the last two rows complete it. */
  lemma ActorParts(db: Db, t: Target, k: Kind, ids: (string, string, string)) returns (d: Db, m: Membership, r: Role)
    requires DbOk(db) && Unused(db, ids.0) && Unused(db, ids.1) && ids.0 != ids.1
    requires FindRole(db.roles, t.workspaceId, RoleCode(k)).Some?
    ensures DbOk(d) && Grew(db, d, t) && d == db.(accounts := d.accounts, memberships := d.memberships)
    ensures ActorMembership(d, t.workspaceId, EmailOf(t, k)) == Some(m) && m.active && IsActor(d, t, m.accountId)
    ensures FindRole(db.roles, t.workspaceId, RoleCode(k)) == Some(r)
    ensures WithActor(db, t.workspaceId, k, EmailOf(t, k), ids) == WithAssignment(WithUser(d, m.id, ids.2), m.id, r.id)
    ensures forall e | Lower(e) != Lower(EmailOf(t, k)) :: SameSeat(db, d, t.workspaceId, e)
  {
    hide DbOk, Grew, Unused, IsActor, SameSeat;
    d, m := ActorSeated(db, t, k, ids);
    r := FindRole(db.roles, t.workspaceId, RoleCode(k)).value;
  }

  lemma ReadyWhenSeated(db: Db, ws: string, k: Kind, email: string, m: Membership, r: Role)
    requires ActorMembership(db, ws, email) == Some(m) && m.active && HasUser(db.users, m.id)
    requires FindRole(db.roles, ws, RoleCode(k)) == Some(r) && Assigned(db.assignments, m.id, r.id)
    ensures ActorReady(db, ws, k, email)
  {
    hide HasUser, Assigned;
  }

  /** The four rows of one person are there, active, and the database is still in order. */
  lemma ActorOwnStep(db: Db, t: Target, k: Kind, ids: (string, string, string))
    requires DbOk(db) && Unused(db, ids.0) && Unused(db, ids.1) && ids.0 != ids.1
    requires FindRole(db.roles, t.workspaceId, RoleCode(k)).Some?
    ensures var db' := WithActor(db, t.workspaceId, k, EmailOf(t, k), ids);
            && DbOk(db') && Grew(db, db', t)
            && db'.permissions == db.permissions && db'.roles == db.roles && db'.grants == db.grants
            && ActorReady(db', t.workspaceId, k, EmailOf(t, k))
  {
    hide DbOk, Grew, IsActor, Unused, SameSeat, WithActor, ActorReady, HasUser, Assigned, EmailOf;
    var d, m, r := ActorParts(db, t, k, ids);
    var d4 := WithUser(d, m.id, ids.2);
    UserStep(d, t, m, ids.2);
    AssignmentStep(d4, t, m, r);
    var db' := WithAssignment(d4, m.id, r.id);
    GrewTransitive(db, d, d4, t);
    GrewTransitive(db, d4, db', t);
    ReadyWhenSeated(db', t.workspaceId, k, EmailOf(t, k), m, r);
  }

  /** A person of another email is left exactly as planned. */
  lemma ActorOtherStep(db: Db, t: Target, k: Kind, ids: (string, string, string), j: Kind, e: string)
    requires DbOk(db) && Unused(db, ids.0) && Unused(db, ids.1) && ids.0 != ids.1
    requires FindRole(db.roles, t.workspaceId, RoleCode(k)).Some? && Lower(e) != Lower(EmailOf(t, k))
    ensures SameActor(db, WithActor(db, t.workspaceId, k, EmailOf(t, k), ids), t.workspaceId, j, e)
  {
    hide DbOk, Grew, IsActor, Unused, SameSeat, WithActor, HasUser, Assigned, SameActor;
    var d, m, r := ActorParts(db, t, k, ids);
    var d4 := WithUser(d, m.id, ids.2);
    UserStep(d, t, m, ids.2);
    AssignmentStep(d4, t, m, r);
    OtherActor(db, d, d4, WithAssignment(d4, m.id, r.id), t, FindAccount(d.accounts, EmailOf(t, k)).value, m, ids.2, j, e);
  }

  lemma UserStep(db: Db, t: Target, m: Membership, id: string)
    requires DbOk(db) && m in db.memberships
    ensures var db' := WithUser(db, m.id, id);
            && DbOk(db') && Grew(db, db', t) && HasUser(db'.users, m.id)
            && (IsActor(db', t, m.accountId) <==> IsActor(db, t, m.accountId))
  {
    var db' := WithUser(db, m.id, id);
    assert HasMembership(db.memberships, m.id);
    if !HasUser(db.users, m.id) {
      assert User(id, m.id) in db'.users;
    }
  }

  ghost predicate SameActor(db: Db, db': Db, ws: string, k: Kind, email: string) {
    ActorOf(db', ws, k, email) == ActorOf(db, ws, k, email)
    && ActorMembership(db', ws, email) == ActorMembership(db, ws, email)
  }

  lemma OtherActor(db: Db, d: Db, d4: Db, db': Db, t: Target, a: Account, m: Membership, userId: string, j: Kind, e: string)
    requires DbOk(d) && d == db.(accounts := d.accounts, memberships := d.memberships)
    requires d4 == WithUser(d, m.id, userId) && db' == d4.(assignments := db'.assignments)
    requires SameSeat(db, d, t.workspaceId, e) && m in d.memberships
    requires a in d.accounts && a.id == m.accountId && Lower(a.email) != Lower(e)
    requires forall n, q | n != m.id :: Assigned(db'.assignments, n, q) <==> Assigned(d4.assignments, n, q)
    ensures SameActor(db, db', t.workspaceId, j, e)
  {
    hide Lower;
    var n := ActorMembership(d, t.workspaceId, e);
    if n.Some? {
      assert n.value.id != m.id;
      UserIsQuiet(d, m.id, userId, n.value.id);
    }
  }

  lemma UserIsQuiet(d: Db, membershipId: string, userId: string, other: string)
    requires other != membershipId
    ensures HasUser(WithUser(d, membershipId, userId).users, other) <==> HasUser(d.users, other)
  {
    var us := WithUser(d, membershipId, userId).users;
    if u :| u in d.users && u.membershipId == other {
      assert u in us;
    }
  }

  // ---------------------------------------------------------------- what the new grants can do

  lemma GrantedCode(db: Db, roleId: string, code: string) returns (g: Grant, p: Permission)
    requires RoleGrants(db, roleId, code)
    ensures g in db.grants && g.roleId == roleId && p in db.permissions && p.id == g.permissionId && p.code == code
  {
    g :| g in db.grants && g.roleId == roleId && exists p | p in db.permissions :: p.id == g.permissionId && p.code == code;
    p :| p in db.permissions && p.id == g.permissionId && p.code == code;
  }

  /** A role grants afterwards what it granted before, or one of its own curation permissions in this workspace. */
  lemma RoleGrantsAfter(db: Db, db': Db, t: Target, r: Role, code: string)
    requires DbOk(db) && DbOk(db') && Grew(db, db', t) && r in db'.roles && RoleGrants(db', r.id, code)
    ensures || (HasRole(db.roles, r.id) && RoleGrants(db, r.id, code))
            || (r.workspaceId == t.workspaceId
                && ((r.code == RoleCode(Verifier) && code in Desired(Verifier))
                    || (r.code == RoleCode(Publisher) && code in Desired(Publisher))))
  {
    var g, p := GrantedCode(db', r.id, code);
    var i :| 0 <= i < |db'.grants| && db'.grants[i] == g;
    if i < |db.grants| {
      assert g == db.grants[i] && g in db.grants;
      assert HasRole(db.roles, g.roleId);
      var q := FindById(db.permissions, g.permissionId).value;
      assert q in db'.permissions && q.id == p.id;
      assert q == p;
    } else {
      assert CurationGrant(db', t.workspaceId, g);
    }
  }

  /** The director role never gains a curation permission. */
  lemma DirectorGainsNothing(db: Db, db': Db, t: Target)
    requires DbOk(db) && DbOk(db') && Grew(db, db', t) && !DirectorHolds(db, t.workspaceId)
    ensures !DirectorHolds(db', t.workspaceId)
  {
    CodesDiffer();
    var ws := t.workspaceId;
    if DirectorHolds(db', ws) {
      var r :| r in db'.roles && r.workspaceId == ws && r.code == DIRECTOR
               && exists g | g in db'.grants ::
                    g.roleId == r.id && exists p | p in db'.permissions :: p.id == g.permissionId && IsCuration(p.code);
      var g :| g in db'.grants && g.roleId == r.id
               && exists p | p in db'.permissions :: p.id == g.permissionId && IsCuration(p.code);
      var p :| p in db'.permissions && p.id == g.permissionId && IsCuration(p.code);
      RoleGrantsAfter(db, db', t, r, p.code);
      OldDirector(db, db', ws, r, p.code);
    }
  }

  lemma OldDirector(db: Db, db': Db, ws: string, r: Role, code: string)
    requires DbOk(db') && db.roles <= db'.roles && r in db'.roles && r.workspaceId == ws && r.code == DIRECTOR
    requires HasRole(db.roles, r.id) && RoleGrants(db, r.id, code) && IsCuration(code)
    ensures DirectorHolds(db, ws)
  {
    var q :| q in db.roles && q.id == r.id;
    assert q in db'.roles && q == r;
    var g, p := GrantedCode(db, r.id, code);
  }

  lemma UnpackSeat(db: Db, ws: string, email: string, r: Role) returns (a: Account, m: Membership, x: Assignment)
    requires EmailAssigned(db, ws, email, r)
    ensures a in db.accounts && Lower(a.email) == Lower(email)
    ensures m in db.memberships && m.accountId == a.id && m.workspaceId == ws
    ensures x in db.assignments && x.membershipId == m.id && x.roleId == r.id && x.isActive
  {
    a :| a in db.accounts && Lower(a.email) == Lower(email)
         && exists m | m in db.memberships ::
              m.accountId == a.id && m.workspaceId == ws && Assigned(db.assignments, m.id, r.id);
    m :| m in db.memberships && m.accountId == a.id && m.workspaceId == ws && Assigned(db.assignments, m.id, r.id);
    x :| x in db.assignments && x.membershipId == m.id && x.roleId == r.id && x.isActive;
  }

  lemma PackSeat(db: Db, ws: string, email: string, r: Role, a: Account, m: Membership, x: Assignment)
    requires a in db.accounts && Lower(a.email) == Lower(email)
    requires m in db.memberships && m.accountId == a.id && m.workspaceId == ws
    requires x in db.assignments && x.membershipId == m.id && x.roleId == r.id && x.isActive
    ensures EmailAssigned(db, ws, email, r)
  {
    assert Assigned(db.assignments, m.id, r.id);
  }

  /** Only the owner's old seats count: an assignment through the owner's account was there before. */
  lemma OwnerSeatIsOld(db: Db, db': Db, t: Target, r: Role)
    requires DbOk(db) && DbOk(db') && Grew(db, db', t)
    requires Lower(t.ownerEmail) != Lower(t.verifierEmail) && Lower(t.ownerEmail) != Lower(t.publisherEmail)
    requires r in db'.roles && EmailAssigned(db', t.workspaceId, t.ownerEmail, r)
    ensures r in db.roles && EmailAssigned(db, t.workspaceId, t.ownerEmail, r)
  {
    hide EmailAssigned, TablesOk, GrantsKnown, UsersKnown, CurationGrant;
    var a, m, x := UnpackSeat(db', t.workspaceId, t.ownerEmail, r);
    NotAnActor(db', t, a, m, x);
    var i :| 0 <= i < |db'.assignments| && db'.assignments[i] == x;
    assert x == db.assignments[i] && x in db.assignments;
    assert HasMembership(db.memberships, m.id) && HasRole(db.roles, r.id);
    var m0 := OldMembership(db, db', t, m);
    OldAccount(db, db', m0, a);
    PackSeat(db, t.workspaceId, t.ownerEmail, r, a, m0, x);
  }

  lemma NotAnActor(db: Db, t: Target, a: Account, m: Membership, x: Assignment)
    requires DbOk(db) && a in db.accounts && m in db.memberships && m.accountId == a.id && x.membershipId == m.id
    requires Lower(a.email) != Lower(t.verifierEmail) && Lower(a.email) != Lower(t.publisherEmail)
    ensures !ActorAssignment(db, t, x)
  {
  }

  lemma OldMembership(db: Db, db': Db, t: Target, m: Membership) returns (m0: Membership)
    requires DbOk(db) && DbOk(db') && Grew(db, db', t) && m in db'.memberships && HasMembership(db.memberships, m.id)
    ensures m0 in db.memberships && m0.id == m.id && m0.accountId == m.accountId && m0.workspaceId == m.workspaceId
  {
    m0 :| m0 in db.memberships && m0.id == m.id;
    var i :| 0 <= i < |db.memberships| && db.memberships[i] == m0;
    assert SameMember(m0, db'.memberships[i]) && db'.memberships[i] in db'.memberships;
  }

  lemma OldAccount(db: Db, db': Db, m0: Membership, a: Account)
    requires DbOk(db) && DbOk(db') && db.accounts <= db'.accounts
    requires m0 in db.memberships && a in db'.accounts && a.id == m0.accountId
    ensures a in db.accounts
  {
    var b :| b in db.accounts && b.id == m0.accountId;
    assert b in db'.accounts;
  }

  predicate EmailsDiffer(t: Target) {
    && Lower(t.verifierEmail) != Lower(t.publisherEmail)
    && Lower(t.ownerEmail) != Lower(t.verifierEmail) && Lower(t.ownerEmail) != Lower(t.publisherEmail)
  }

  lemma OwnerGainsBySitting(db: Db, db': Db, t: Target)
    requires DbOk(db) && DbOk(db') && Grew(db, db', t) && EmailsDiffer(t)
    ensures OwnerHolds(db', t.workspaceId, t.ownerEmail) && !OwnerHolds(db, t.workspaceId, t.ownerEmail) ==>
              OwnerSits(db, t.workspaceId, t.ownerEmail)
  {
    var ws, owner := t.workspaceId, t.ownerEmail;
    if !OwnerHolds(db', ws, owner) || OwnerHolds(db, ws, owner) {
      return;
    }
    var r :| r in db'.roles && IsCurationRole(r.code) && EmailAssigned(db', ws, owner, r)
             && (RoleGrants(db', r.id, REVIEW_VIEW) || RoleGrants(db', r.id, VERIFY) || RoleGrants(db', r.id, PUBLISH));
    OwnerSeatIsOld(db, db', t, r);
    var code := if RoleGrants(db', r.id, REVIEW_VIEW) then REVIEW_VIEW
                else if RoleGrants(db', r.id, VERIFY) then VERIFY else PUBLISH;
    RoleGrantsAfter(db, db', t, r, code);
  }

  lemma SittingOwnerGains(db: Db, db': Db, t: Target)
    requires DbOk(db) && DbOk(db') && Grew(db, db', t) && AllHeld(db', t)
    ensures OwnerSits(db, t.workspaceId, t.ownerEmail) ==> OwnerHolds(db', t.workspaceId, t.ownerEmail)
  {
    var ws, owner := t.workspaceId, t.ownerEmail;
    if !OwnerSits(db, ws, owner) {
      return;
    }
    PairsHeld(db', t);
    var r :| r in db.roles && r.workspaceId == ws && IsCurationRole(r.code) && EmailAssigned(db, ws, owner, r);
    SeatStays(db, db', t, r);
    var k := if r.code == RoleCode(Verifier) then Verifier else Publisher;
    var code := if k.Verifier? then VERIFY else PUBLISH;
    assert FindRole(db'.roles, ws, RoleCode(k)) == Some(r);
    var p := Find(db'.permissions, code).value;
    assert Grant(r.id, p.id) in db'.grants && RoleGrants(db', r.id, code);
  }

  /**
   * The last guard fires exactly when the owner already sat in one of the workspace's curation
   * roles: granting the role what it is for is what gives the owner curation.
   */
  lemma OwnerGuardExact(db: Db, db': Db, t: Target)
    requires DbOk(db) && DbOk(db') && Grew(db, db', t) && AllHeld(db', t) && EmailsDiffer(t)
    ensures !OwnerHolds(db, t.workspaceId, t.ownerEmail) ==>
              (OwnerHolds(db', t.workspaceId, t.ownerEmail) <==> OwnerSits(db, t.workspaceId, t.ownerEmail))
  {
    hide DbOk, Grew, AllHeld, OwnerHolds, OwnerSits, EmailsDiffer;
    OwnerGainsBySitting(db, db', t);
    SittingOwnerGains(db, db', t);
  }

  lemma SeatStays(db: Db, db': Db, t: Target, r: Role)
    requires Grew(db, db', t) && r in db.roles && EmailAssigned(db, t.workspaceId, t.ownerEmail, r)
    ensures r in db'.roles && EmailAssigned(db', t.workspaceId, t.ownerEmail, r)
  {
    var a, m, x := UnpackSeat(db, t.workspaceId, t.ownerEmail, r);
    var i :| 0 <= i < |db.memberships| && db.memberships[i] == m;
    var n := db'.memberships[i];
    assert SameMember(m, n) && n in db'.memberships && x in db'.assignments && a in db'.accounts;
    PackSeat(db', t.workspaceId, t.ownerEmail, r, a, n, x);
  }

  // ---------------------------------------------------------------- separation of duties

  /** What the resolver grants beyond the baseline is held in the sense of the in-transaction proof. */
  lemma ResolvedIsHeld(db: Db, accountId: string, ws: string, asOf: int, code: string)
    requires code !in BASELINE && Resolves(db, accountId, ws, asOf, code)
    ensures Holds(db, accountId, ws, code)
  {
    var m :| m in db.memberships && m.accountId == accountId && m.workspaceId == ws && m.active
             && exists a | a in db.assignments ::
                  a.membershipId == m.id && a.isActive && (a.endDate.None? || asOf <= a.endDate.value)
                  && RoleGrants(db, a.roleId, code);
    var a :| a in db.assignments && a.membershipId == m.id && a.isActive && RoleGrants(db, a.roleId, code);
  }

  /** A complete, active actor holds what its role holds. */
  lemma ReadyHolds(db: Db, ws: string, k: Kind, email: string, code: string)
    requires ActorReady(db, ws, k, email) && Held(db, ws, k, code)
    ensures Holds(db, ActorOf(db, ws, k, email).accountId.value, ws, code)
  {
    var m := ActorMembership(db, ws, email).value;
    var r, p := FindRole(db.roles, ws, RoleCode(k)).value, Find(db.permissions, code).value;
    var a :| a in db.assignments && a.membershipId == m.id && a.roleId == r.id && a.isActive;
    assert Grant(r.id, p.id) in db.grants && RoleGrants(db, r.id, code);
  }

  /** Accounts of emails that differ beyond case are different. */
  lemma ActorsDiffer(db: Db, t: Target)
    requires DbOk(db) && EmailsDiffer(t)
    ensures var v, p := FindAccount(db.accounts, t.verifierEmail), FindAccount(db.accounts, t.publisherEmail);
            v.Some? && p.Some? ==> v.value.id != p.value.id
  {
  }

  // ---------------------------------------------------------------- the transaction

  const KINDS: seq<Kind> := [Verifier, Publisher]

  const PAIRS: seq<(Kind, string)> := [(Verifier, REVIEW_VIEW), (Verifier, VERIFY), (Publisher, PUBLISH)]

  /** Permissions before `k` exist; the others are as planned. */
  predicate PermissionsAt(db: Db, plan: Plan, k: nat) {
    |plan.permissionIds| == 3 && forall j | 0 <= j < 3 ::
      var p := Find(db.permissions, METADATA[j].code);
      if j < k then p.Some? else PermissionId(p) == plan.permissionIds[j]
  }

  predicate RolesAt(db: Db, plan: Plan, k: nat) {
    |plan.roleIds| == 2 && forall j | 0 <= j < 2 ::
      var r := FindRole(db.roles, plan.target.workspaceId, RoleCode(KINDS[j]));
      if j < k then r.Some? else IdOf(r) == plan.roleIds[j]
  }

  predicate GrantsAt(db: Db, plan: Plan, k: nat) {
    |plan.held| == 3 && forall j | 0 <= j < 3 ::
      var h := Held(db, plan.target.workspaceId, PAIRS[j].0, PAIRS[j].1);
      if j < k then h else h == plan.held[j]
  }

  predicate ActorsAt(db: Db, plan: Plan) {
    var t := plan.target;
    && ActorOf(db, t.workspaceId, Verifier, t.verifierEmail) == plan.verifier
    && ActorOf(db, t.workspaceId, Publisher, t.publisherEmail) == plan.publisher
  }

  function MissingIds(os: seq<Option<string>>): nat {
    if |os| == 0 then 0 else MissingIds(os[..|os| - 1]) + (if os[|os| - 1].None? then 1 else 0)
  }

  function MissingGrants(hs: seq<bool>): nat {
    if |hs| == 0 then 0 else MissingGrants(hs[..|hs| - 1]) + (if hs[|hs| - 1] then 0 else 1)
  }

  function MissingActor(a: ActorPlan): nat {
    (if a.accountId.None? then 1 else 0) + (if a.membershipId.None? then 1 else 0)
    + (if a.hasUser then 0 else 1) + (if a.isAssigned then 0 else 1)
  }

  function ExpectedChanges(p: Plan): nat {
    MissingIds(p.permissionIds) + MissingIds(p.roleIds) + MissingGrants(p.held) + MissingActor(p.verifier)
    + MissingActor(p.publisher)
  }

  /** The identifiers still to be spent are different and nobody has them. */
  ghost predicate Fresh(db: Db, ids: seq<string>, from: nat) {
    && (forall i, j | 0 <= i < j < |ids| :: ids[i] != ids[j])
    && forall i | from <= i < |ids| :: Unused(db, ids[i])
  }

  /** What the plan said about permission `k` is still so, and the guarded insert settles it. */
  lemma PermissionTurn(db: Db, plan: Plan, ids: seq<string>, k: nat)
    requires k < 3 && DbOk(db) && |ids| == 11 && Fresh(db, ids, k)
    requires PermissionsAt(db, plan, k) && GrantsAt(db, plan, 0)
    ensures var db' := WithPermission(db, METADATA[k], ids[k]);
            && DbOk(db') && Grew(db, db', plan.target) && Fresh(db', ids, k + 1)
            && PermissionsAt(db', plan, k + 1) && GrantsAt(db', plan, 0)
            && (plan.permissionIds[k].None? <==> Find(db.permissions, METADATA[k].code).None?)
  {
    hide DbOk, Grew, HeldIn, Find;
    CodesDiffer();
    var m, ws := METADATA[k], plan.target.workspaceId;
    PermissionStep(db, plan.target, m, ids[k]);
    forall j | 0 <= j < 3
      ensures j != k ==>
                Find(WithPermission(db, m, ids[k]).permissions, METADATA[j].code) == Find(db.permissions, METADATA[j].code)
      ensures Held(WithPermission(db, m, ids[k]), ws, PAIRS[j].0, PAIRS[j].1) <==> Held(db, ws, PAIRS[j].0, PAIRS[j].1)
    {
      PermissionIsQuiet(db, ws, m, ids[k], PAIRS[j].0, METADATA[j].code);
      PermissionIsQuiet(db, ws, m, ids[k], PAIRS[j].0, PAIRS[j].1);
    }
    forall j | k + 1 <= j < |ids|
      ensures Unused(WithPermission(db, m, ids[k]), ids[j])
    {
      PermissionLeavesUnused(db, m, ids[k], ids[j]);
    }
  }

  lemma RoleTurn(db: Db, plan: Plan, ids: seq<string>, k: nat)
    requires k < 2 && DbOk(db) && |ids| == 11 && Fresh(db, ids, 3 + k)
    requires RolesAt(db, plan, k) && GrantsAt(db, plan, 0) && ActorsAt(db, plan)
    ensures var db' := WithRole(db, plan.target.workspaceId, KINDS[k], ids[3 + k]);
            && DbOk(db') && Grew(db, db', plan.target) && Fresh(db', ids, 4 + k)
            && RolesAt(db', plan, k + 1) && GrantsAt(db', plan, 0) && ActorsAt(db', plan)
            && (plan.roleIds[k].None? <==> FindRole(db.roles, plan.target.workspaceId, RoleCode(KINDS[k])).None?)
  {
    hide DbOk, Grew, HeldIn, ActorIn;
    var t, id := plan.target, ids[3 + k];
    var ws := t.workspaceId;
    RoleStep(db, t, KINDS[k], id);
    forall j | 0 <= j < 3
      ensures Held(WithRole(db, ws, KINDS[k], id), ws, PAIRS[j].0, PAIRS[j].1) <==> Held(db, ws, PAIRS[j].0, PAIRS[j].1)
    {
      RoleIsQuiet(db, ws, KINDS[k], id, PAIRS[j].0, PAIRS[j].1);
    }
    RoleIsQuiet(db, ws, KINDS[k], id, KINDS[1 - k], "");
    RoleLeavesActors(db, ws, KINDS[k], id, Verifier, t.verifierEmail);
    RoleLeavesActors(db, ws, KINDS[k], id, Publisher, t.publisherEmail);
    forall j | 4 + k <= j < |ids|
      ensures Unused(WithRole(db, ws, KINDS[k], id), ids[j])
    {
      RoleLeavesUnused(db, ws, KINDS[k], id, ids[j]);
    }
  }

  lemma GrantTurn(db: Db, plan: Plan, ids: seq<string>, k: nat)
    requires k < 3 && DbOk(db) && |ids| == 11 && Fresh(db, ids, 5)
    requires PermissionsAt(db, plan, 3) && RolesAt(db, plan, 2) && GrantsAt(db, plan, k)
    ensures var db' := WithGrant(db, plan.target.workspaceId, PAIRS[k].0, PAIRS[k].1);
            && DbOk(db') && Grew(db, db', plan.target) && Fresh(db', ids, 5)
            && db' == db.(grants := db'.grants) && GrantsAt(db', plan, k + 1)
            && (plan.held[k] <==> Held(db, plan.target.workspaceId, PAIRS[k].0, PAIRS[k].1))
    ensures FindRole(db.roles, plan.target.workspaceId, RoleCode(PAIRS[k].0)).Some?
            && Find(db.permissions, PAIRS[k].1).Some?
  {
    hide Held, Grew, DbOk;
    CodesDiffer();
    var t := plan.target;
    var (kind, code) := PAIRS[k];
    assert Find(db.permissions, METADATA[k].code).Some? && METADATA[k].code == code;
    var i := if kind.Verifier? then 0 else 1;
    assert FindRole(db.roles, t.workspaceId, RoleCode(KINDS[i])).Some? && KINDS[i] == kind;
    GrantStep(db, t, kind, code);
    forall j | 0 <= j < 3 && j != k
      ensures Held(WithGrant(db, t.workspaceId, kind, code), t.workspaceId, PAIRS[j].0, PAIRS[j].1)
              <==> Held(db, t.workspaceId, PAIRS[j].0, PAIRS[j].1)
    {
      GrantIsQuiet(db, t.workspaceId, kind, code, PAIRS[j].0, PAIRS[j].1);
    }
  }

  /** Where the actor's seat will be, and that the plan's reading of it tells which rows are missing. */
  lemma SeatAfter(db: Db, t: Target, k: Kind, ids: (string, string, string)) returns (membershipId: string)
    requires DbOk(db) && Unused(db, ids.0) && Unused(db, ids.1) && ids.0 != ids.1
    requires FindRole(db.roles, t.workspaceId, RoleCode(k)).Some?
    ensures var email, ws := EmailOf(t, k), t.workspaceId;
            var prior := ActorOf(db, ws, k, email);
            var d1 := WithAccount(db, email, ids.0);
            && FindAccount(d1.accounts, email).Some?
            && var a := FindAccount(d1.accounts, email).value.id;
            var d2 := WithMembership(d1, a, ws, ids.1);
            && FindMembership(d2.memberships, a, ws).Some?
            && membershipId == FindMembership(d2.memberships, a, ws).value.id
            && (prior.accountId.None? <==> FindAccount(db.accounts, email).None?)
            && (prior.membershipId.None? <==> FindMembership(d1.memberships, a, ws).None?)
            && (prior.hasUser <==> HasUser(db.users, membershipId))
            && (prior.isAssigned <==> Assigned(db.assignments, membershipId, FindRole(db.roles, ws, RoleCode(k)).value.id))
  {
    hide Grew, TablesOk, RolesOk, AccountsOk, MembershipsOk, AssignmentsKnown, UsersKnown, GrantsKnown, HasUser, Assigned;
    var email, ws := EmailOf(t, k), t.workspaceId;
    AccountStep(db, t, email, ids.0);
    var d1 := WithAccount(db, email, ids.0);
    var a := FindAccount(d1.accounts, email).value.id;
    assert HasAccount(d1.accounts, a);
    MembershipStep(d1, t, a, ids.1);
    membershipId := FindMembership(WithMembership(d1, a, ws, ids.1).memberships, a, ws).value.id;
    NobodySits(db, ids.1);
    if FindMembership(d1.memberships, a, ws).None? {
      NewMembershipFound(d1.memberships, Membership(ids.1, a, ws, true));
    }
  }

  lemma NewMembershipFound(ms: seq<Membership>, m: Membership)
    requires FindMembership(ms, m.accountId, m.workspaceId).None?
    ensures FindMembership(ms + [m], m.accountId, m.workspaceId) == Some(m)
  {
    assert m in ms + [m];
  }

  /** An id no membership carries has no user and no assignment. */
  lemma NobodySits(db: Db, id: string)
    requires DbOk(db) && Unused(db, id)
    ensures !HasUser(db.users, id) && forall r :: !Assigned(db.assignments, id, r)
  {
    assert forall u | u in db.users :: HasMembership(db.memberships, u.membershipId) && u.membershipId != id;
    assert forall x | x in db.assignments :: HasMembership(db.memberships, x.membershipId) && x.membershipId != id;
  }

  /** The second person's identifiers are untouched by the first person's rows. */
  lemma StillFresh(db: Db, t: Target, k: Kind, ids: seq<string>)
    requires DbOk(db) && |ids| == 11 && Fresh(db, ids, 5) && FindRole(db.roles, t.workspaceId, RoleCode(k)).Some?
    ensures var db' := WithActor(db, t.workspaceId, k, EmailOf(t, k), (ids[5], ids[6], ids[7]));
            Unused(db', ids[8]) && Unused(db', ids[9]) && ids[8] != ids[9]
  {
    hide DbOk, Grew, SameSeat, IsActor, ActorMembership, WithActive, WithMembership, WithAccount;
    var d, m := ActorSeated(db, t, k, (ids[5], ids[6], ids[7]));
    var db' := WithActor(db, t.workspaceId, k, EmailOf(t, k), (ids[5], ids[6], ids[7]));
    assert db'.accounts == d.accounts && db'.memberships == d.memberships;
    forall j | 8 <= j < 10
      ensures Unused(d, ids[j])
    {
      SeatLeavesUnused(db, d, t, k, (ids[5], ids[6], ids[7]), ids[j]);
    }
  }

  lemma SeatLeavesUnused(db: Db, d: Db, t: Target, k: Kind, ids: (string, string, string), j: string)
    requires Unused(db, j) && j != ids.0 && j != ids.1
    requires var d1 := WithAccount(db, EmailOf(t, k), ids.0);
             FindAccount(d1.accounts, EmailOf(t, k)).Some?
             && var a := FindAccount(d1.accounts, EmailOf(t, k)).value.id;
             var d2 := WithMembership(d1, a, t.workspaceId, ids.1);
             FindMembership(d2.memberships, a, t.workspaceId).Some?
             && d == WithActive(d2, FindMembership(d2.memberships, a, t.workspaceId).value.id)
    ensures Unused(d, j)
  {
    var d1 := WithAccount(db, EmailOf(t, k), ids.0);
    var a := FindAccount(d1.accounts, EmailOf(t, k)).value.id;
    var d2 := WithMembership(d1, a, t.workspaceId, ids.1);
    assert forall m | m in d2.memberships :: m.id != j;
    forall n | n in d.memberships
      ensures n.id != j
    {
      var m := ActivatedFrom(d2.memberships, FindMembership(d2.memberships, a, t.workspaceId).value.id, n);
    }
  }

  /** After the inserts both people hold their own powers, and they are two. */
  lemma BothHold(db: Db, t: Target, v: string, p: string)
    requires DbOk(db) && EmailsDiffer(t) && AllHeld(db, t)
    requires Ready(db, t, Verifier, v) && Ready(db, t, Publisher, p)
    ensures v != p
    ensures Holds(db, v, t.workspaceId, REVIEW_VIEW) && Holds(db, v, t.workspaceId, VERIFY)
    ensures Holds(db, p, t.workspaceId, PUBLISH)
  {
    hide DbOk, Holds, Find, FindRole, HasUser, Assigned, FindMembership;
    PairsHeld(db, t);
    ReadyHolds(db, t.workspaceId, Verifier, t.verifierEmail, REVIEW_VIEW);
    ReadyHolds(db, t.workspaceId, Verifier, t.verifierEmail, VERIFY);
    ReadyHolds(db, t.workspaceId, Publisher, t.publisherEmail, PUBLISH);
    ActorsDiffer(db, t);
  }

  lemma PairsHeld(db: Db, t: Target)
    requires AllHeld(db, t)
    ensures Held(db, t.workspaceId, Verifier, REVIEW_VIEW) && Held(db, t.workspaceId, Verifier, VERIFY)
    ensures Held(db, t.workspaceId, Publisher, PUBLISH)
  {
    hide HeldIn;
    assert Held(db, t.workspaceId, PAIRS[0].0, PAIRS[0].1) && Held(db, t.workspaceId, PAIRS[1].0, PAIRS[1].1)
           && Held(db, t.workspaceId, PAIRS[2].0, PAIRS[2].1);
  }

  /** The plan re-derives without a stop, with nothing left to insert. */
  lemma PlanIsComplete(db: Db, db': Db, t: Target, v: string, p: string)
    requires DbOk(db) && DbOk(db') && Grew(db, db', t) && PlanStop(db, t).None? && v != p
    requires AllHeld(db', t) && Ready(db', t, Verifier, v) && Ready(db', t, Publisher, p)
    ensures PlanStop(db', t).None? && Complete(PlanOf(db', t))
  {
    hide DbOk, RoleGrants, HeldIn, AllHeld;
    PairsHeld(db', t);
    RolesStayClean(db, db', t);
    PartsComplete(db', t);
    assert db'.organizations == db.organizations;
  }

  lemma PartsComplete(db: Db, t: Target)
    requires AllHeld(db, t) && ActorComplete(ActorOf(db, t.workspaceId, Verifier, t.verifierEmail))
    requires ActorComplete(ActorOf(db, t.workspaceId, Publisher, t.publisherEmail))
    ensures Complete(PlanOf(db, t))
  {
    hide ActorIn, HeldIn;
    PairsHeld(db, t);
    assert Find(db.permissions, METADATA[0].code).Some? && Find(db.permissions, METADATA[1].code).Some?
           && Find(db.permissions, METADATA[2].code).Some?;
    assert FindRole(db.roles, t.workspaceId, RoleCode(KINDS[0])).Some?
           && FindRole(db.roles, t.workspaceId, RoleCode(KINDS[1])).Some?;
  }

  /** The verifier role gains no PUBLISH and the publisher role no VERIFY. */
  lemma RolesStayClean(db: Db, db': Db, t: Target)
    requires DbOk(db) && DbOk(db') && Grew(db, db', t) && PlanStop(db, t).None?
    ensures var v := FindRole(db'.roles, t.workspaceId, RoleCode(Verifier));
            var p := FindRole(db'.roles, t.workspaceId, RoleCode(Publisher));
            && (v.Some? ==> !RoleGrants(db', v.value.id, PUBLISH))
            && (p.Some? ==> !RoleGrants(db', p.value.id, VERIFY))
  {
    RoleStaysClean(db, db', t, Verifier, PUBLISH);
    RoleStaysClean(db, db', t, Publisher, VERIFY);
  }

  lemma RoleStaysClean(db: Db, db': Db, t: Target, k: Kind, code: string)
    requires DbOk(db) && DbOk(db') && Grew(db, db', t) && code !in Desired(k)
    requires var r := FindRole(db.roles, t.workspaceId, RoleCode(k)); r.Some? ==> !RoleGrants(db, r.value.id, code)
    ensures var r := FindRole(db'.roles, t.workspaceId, RoleCode(k)); r.Some? ==> !RoleGrants(db', r.value.id, code)
  {
    CodesDiffer();
    var r := FindRole(db'.roles, t.workspaceId, RoleCode(k));
    if r.Some? && RoleGrants(db', r.value.id, code) {
      RoleGrantsAfter(db, db', t, r.value, code);
      OldRole(db, db', r.value);
    }
  }

  lemma OldRole(db: Db, db': Db, r: Role)
    requires DbOk(db) && DbOk(db') && db.roles <= db'.roles && r in db'.roles && HasRole(db.roles, r.id)
    ensures FindRole(db.roles, r.workspaceId, r.code) == Some(r)
  {
    var q :| q in db.roles && q.id == r.id;
    assert q in db'.roles;
  }

  /** `i` permissions, `j` roles and `k` grants have been settled since `db0`; the rest is as planned. */
  ghost predicate Stage(db0: Db, db: Db, plan: Plan, ids: seq<string>, i: nat, j: nat, k: nat) {
    && DbOk(db) && Grew(db0, db, plan.target) && |ids| == 11 && Fresh(db, ids, i + j) && db.assignments == db0.assignments
    && PermissionsAt(db, plan, i) && RolesAt(db, plan, j) && GrantsAt(db, plan, k) && ActorsAt(db, plan)
  }

  lemma StageZero(db: Db, plan: Plan, ids: seq<string>)
    requires DbOk(db) && |ids| == 11 && Fresh(db, ids, 0) && plan == PlanOf(db, plan.target)
    ensures Stage(db, db, plan, ids, 0, 0, 0)
    ensures |plan.permissionIds| == 3 && |plan.roleIds| == 2 && |plan.held| == 3
  {
    hide DbOk, ActorIn, HeldIn, Fresh;
    assert METADATA[0].code == REVIEW_VIEW && METADATA[1].code == VERIFY && METADATA[2].code == PUBLISH;
  }

  lemma PermissionStage(db0: Db, db: Db, plan: Plan, ids: seq<string>, k: nat)
    requires k < 3 && Stage(db0, db, plan, ids, k, 0, 0)
    ensures |plan.permissionIds| == 3 && |ids| == 11
    ensures var db' := if plan.permissionIds[k].None? then PlusPermission(db, METADATA[k], ids[k]) else db;
            Stage(db0, db', plan, ids, k + 1, 0, 0)
  {
    hide DbOk, Grew, ActorIn, GrantsAt, Fresh;
    PermissionTurn(db, plan, ids, k);
    GrewTransitive(db0, db, WithPermission(db, METADATA[k], ids[k]), plan.target);
  }

  lemma RoleStage(db0: Db, db: Db, plan: Plan, ids: seq<string>, k: nat)
    requires k < 2 && Stage(db0, db, plan, ids, 3, k, 0)
    ensures |plan.roleIds| == 2 && |ids| == 11
    ensures Stage(db0, if plan.roleIds[k].None? then PlusRole(db, plan.target.workspaceId, KINDS[k], ids[3 + k]) else db,
                  plan, ids, 3, k + 1, 0)
  {
    hide DbOk, Grew, GrantsAt, Fresh, ActorsAt;
    RoleTurn(db, plan, ids, k);
    GrewTransitive(db0, db, WithRole(db, plan.target.workspaceId, KINDS[k], ids[3 + k]), plan.target);
  }

  lemma GrantStage(db0: Db, db: Db, plan: Plan, ids: seq<string>, k: nat)
    requires k < 3 && Stage(db0, db, plan, ids, 3, 2, k)
    ensures |plan.held| == 3
    ensures Stage(db0, if plan.held[k] then db else PlusGrant(db, plan.target.workspaceId, PAIRS[k].0, PAIRS[k].1),
                  plan, ids, 3, 2, k + 1)
  {
    hide DbOk, Grew, Fresh;
    GrantTurn(db, plan, ids, k);
    GrewTransitive(db0, db, WithGrant(db, plan.target.workspaceId, PAIRS[k].0, PAIRS[k].1), plan.target);
  }

  /** The second person's rows leave the first one ready, and both came after the grants. */
  lemma TwoActors(db0: Db, d3: Db, d4: Db, d5: Db, t: Target, v: string, p: string)
    requires Grew(db0, d3, t) && Grew(d3, d4, t) && Grew(d4, d5, t) && AllHeld(d3, t)
    requires d4.permissions == d3.permissions && d4.roles == d3.roles && d4.grants == d3.grants
    requires d5.permissions == d4.permissions && d5.roles == d4.roles && d5.grants == d4.grants
    requires Ready(d4, t, Verifier, v) && Ready(d5, t, Publisher, p)
    requires SameActor(d4, d5, t.workspaceId, Verifier, t.verifierEmail)
    ensures Grew(db0, d5, t) && AllHeld(d5, t) && Ready(d5, t, Verifier, v) && Ready(d5, t, Publisher, p)
  {
    hide Grew, ActorIn;
    GrewTransitive(db0, d3, d4, t);
    GrewTransitive(db0, d4, d5, t);
  }

  /** Each curation role holds all it is for. */
  predicate AllHeld(db: Db, t: Target) {
    && (forall j | 0 <= j < 3 :: Find(db.permissions, METADATA[j].code).Some?)
    && (forall j | 0 <= j < 2 :: FindRole(db.roles, t.workspaceId, RoleCode(KINDS[j])).Some?)
    && (forall j | 0 <= j < 3 :: Held(db, t.workspaceId, PAIRS[j].0, PAIRS[j].1))
  }

  predicate Ready(db: Db, t: Target, k: Kind, accountId: string) {
    ActorReady(db, t.workspaceId, k, EmailOf(t, k))
    && ActorOf(db, t.workspaceId, k, EmailOf(t, k)).accountId == Some(accountId)
  }

  lemma AllGranted(db0: Db, db: Db, plan: Plan, ids: seq<string>)
    requires Stage(db0, db, plan, ids, 3, 2, 3)
    ensures DbOk(db) && Grew(db0, db, plan.target) && |ids| == 11 && Fresh(db, ids, 5) && ActorsAt(db, plan)
    ensures db.assignments == db0.assignments
    ensures AllHeld(db, plan.target)
    ensures FindRole(db.roles, plan.target.workspaceId, RoleCode(Verifier)).Some?
    ensures FindRole(db.roles, plan.target.workspaceId, RoleCode(Publisher)).Some?
  {
    hide DbOk, Grew, ActorsAt, Fresh;
    assert KINDS[0] == Verifier && KINDS[1] == Publisher;
  }

  lemma SodMeansSeparated(db: Db, t: Target, v: string, p: string)
    requires v != p && !Holds(db, v, t.workspaceId, PUBLISH) && !Holds(db, p, t.workspaceId, VERIFY)
    requires Holds(db, v, t.workspaceId, REVIEW_VIEW) && Holds(db, v, t.workspaceId, VERIFY)
    requires Holds(db, p, t.workspaceId, PUBLISH)
    ensures Separated(db, t, v, p)
  {
    hide Holds, Resolves;
    CodesDiffer();
    forall asOf
      ensures !Resolves(db, v, t.workspaceId, asOf, PUBLISH) && !Resolves(db, p, t.workspaceId, asOf, VERIFY)
    {
      if Resolves(db, v, t.workspaceId, asOf, PUBLISH) {
        ResolvedIsHeld(db, v, t.workspaceId, asOf, PUBLISH);
      } else if Resolves(db, p, t.workspaceId, asOf, VERIFY) {
        ResolvedIsHeld(db, p, t.workspaceId, asOf, VERIFY);
      }
    }
  }

  /** Different people; the resolver never gives the one the other's power, at any instant. */
  ghost predicate Separated(db: Db, t: Target, v: string, p: string) {
    && v != p
    && Holds(db, v, t.workspaceId, REVIEW_VIEW) && Holds(db, v, t.workspaceId, VERIFY) && Holds(db, p, t.workspaceId, PUBLISH)
    && (forall asOf :: !Resolves(db, v, t.workspaceId, asOf, PUBLISH))
    && (forall asOf :: !Resolves(db, p, t.workspaceId, asOf, VERIFY))
  }
}

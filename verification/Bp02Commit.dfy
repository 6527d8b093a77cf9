/** When the BP-02 activation commits, and what the two people can do from then on. */
module Bp02Commit {
  import opened Outcomes
  import opened AccessTables
  import opened Bp02Activation

  // ---------------------------------------------------------------- powers at an instant, and at any

  /** An active assignment, unexpired at the instant if one is given. */
  predicate Alive(x: Assignment, at: Option<int>) {
    x.isActive && (at.Some? && x.endDate.Some? ==> at.value <= x.endDate.value)
  }

  predicate HoldsAt(db: Db, accountId: string, ws: string, code: string, at: Option<int>) {
    exists m | m in db.memberships ::
      m.accountId == accountId && m.workspaceId == ws && m.active
      && exists x | x in db.assignments :: x.membershipId == m.id && Alive(x, at) && RoleGrants(db, x.roleId, code)
  }

  /** The two questions asked about a curation code are one question, with and without an instant. */
  lemma HeldOrResolved(db: Db, accountId: string, ws: string, code: string, asOf: int)
    requires IsCuration(code)
    ensures Holds(db, accountId, ws, code) <==> HoldsAt(db, accountId, ws, code, None)
    ensures Resolves(db, accountId, ws, asOf, code) <==> HoldsAt(db, accountId, ws, code, Some(asOf))
  {
    hide RoleGrants;
    CodesDiffer();
    if HoldsAt(db, accountId, ws, code, Some(asOf)) {
      var m :| m in db.memberships && m.accountId == accountId && m.workspaceId == ws && m.active
               && exists x | x in db.assignments ::
                    x.membershipId == m.id && Alive(x, Some(asOf)) && RoleGrants(db, x.roleId, code);
      var x :| x in db.assignments && x.membershipId == m.id && Alive(x, Some(asOf)) && RoleGrants(db, x.roleId, code);
      assert x.isActive && (x.endDate.None? || asOf <= x.endDate.value);
    }
  }

  /** The role is the workspace's role of the kind. */
  predicate IsRole(db: Db, ws: string, k: Kind, roleId: string) {
    var r := FindRole(db.roles, ws, RoleCode(k));
    r.Some? && r.value.id == roleId
  }

  /** The person of the email sits, its membership active or not, in a role that grants the code or is about to. */
  predicate SeatedFor(db: Db, ws: string, email: string, k: Kind, code: string, at: Option<int>) {
    var m := ActorMembership(db, ws, email);
    m.Some? && exists x | x in db.assignments ::
      x.membershipId == m.value.id && Alive(x, at) && (RoleGrants(db, x.roleId, code) || IsRole(db, ws, k, x.roleId))
  }

  /** One of the two already sits where the other's power is. */
  predicate Conflicted(db: Db, t: Target) {
    SeatedFor(db, t.workspaceId, t.verifierEmail, Publisher, PUBLISH, None)
    || SeatedFor(db, t.workspaceId, t.publisherEmail, Verifier, VERIFY, None)
  }

  // ---------------------------------------------------------------- the state after the inserts

  function SeatIf(missing: bool, membershipId: string, roleId: string): seq<Assignment> {
    if missing then [Assignment(membershipId, roleId, true, None)] else []
  }

  predicate HasPlace(db: Db, t: Target, k: Kind) {
    ActorMembership(db, t.workspaceId, EmailOf(t, k)).Some? && FindRole(db.roles, t.workspaceId, RoleCode(k)).Some?
  }

  function MembershipId(db: Db, t: Target, k: Kind): string
    requires HasPlace(db, t, k)
  {
    ActorMembership(db, t.workspaceId, EmailOf(t, k)).value.id
  }

  function RoleId(db: Db, t: Target, k: Kind): string
    requires HasPlace(db, t, k)
  {
    FindRole(db.roles, t.workspaceId, RoleCode(k)).value.id
  }

  predicate WasAssigned(db: Db, t: Target, k: Kind) {
    ActorOf(db, t.workspaceId, k, EmailOf(t, k)).isAssigned
  }

  /** Two assignments at most are new: each person's own, where it was missing. */
  predicate NewSeats(db0: Db, db: Db, t: Target) {
    && HasPlace(db, t, Verifier) && HasPlace(db, t, Publisher)
    && db.assignments == db0.assignments
                         + SeatIf(!WasAssigned(db0, t, Verifier), MembershipId(db, t, Verifier), RoleId(db, t, Verifier))
                         + SeatIf(!WasAssigned(db0, t, Publisher), MembershipId(db, t, Publisher), RoleId(db, t, Publisher))
  }

  ghost predicate Settled(db0: Db, db: Db, t: Target, v: string, p: string) {
    && DbOk(db0) && DbOk(db) && Grew(db0, db, t) && PlanStop(db0, t).None? && EmailsDiffer(t)
    && AllHeld(db, t) && Ready(db, t, Verifier, v) && Ready(db, t, Publisher, p) && NewSeats(db0, db, t)
  }

  function AccountId(k: Kind, v: string, p: string): string {
    if k.Verifier? then v else p
  }

  // ---------------------------------------------------------------- old seats and new ones

  lemma {:induction false} FindAccountStays(xs: seq<Account>, ys: seq<Account>, email: string)
    requires FindAccount(xs, email).Some?
    ensures FindAccount(xs + ys, email) == FindAccount(xs, email)
    decreases |xs|
  {
    if Lower(xs[0].email) != Lower(email) {
      assert (xs + ys)[1..] == xs[1..] + ys;
      FindAccountStays(xs[1..], ys, email);
    }
  }

  lemma AccountFoundStays(db0: Db, db: Db, email: string)
    requires db0.accounts <= db.accounts && FindAccount(db0.accounts, email).Some?
    ensures FindAccount(db.accounts, email) == FindAccount(db0.accounts, email)
  {
    assert db.accounts == db0.accounts + db.accounts[|db0.accounts|..];
    FindAccountStays(db0.accounts, db.accounts[|db0.accounts|..], email);
  }

  /** The person's membership is the one it already had, active by now. */
  lemma MembershipStays(db0: Db, db: Db, t: Target, k: Kind, accountId: string)
    requires DbOk(db0) && DbOk(db) && Grew(db0, db, t) && Ready(db, t, k, accountId)
    ensures var m0, m := ActorMembership(db0, t.workspaceId, EmailOf(t, k)), ActorMembership(db, t.workspaceId, EmailOf(t, k));
            && m.Some? && m.value.active && m.value.accountId == accountId && m.value.workspaceId == t.workspaceId
            && m.value in db.memberships
            && (m0.Some? ==> m0.value.id == m.value.id)
            && (HasMembership(db0.memberships, m.value.id) ==> m0.Some?)
  {
    hide TablesOk, RolesOk, GrantsKnown, AssignmentsKnown, UsersKnown, HasUser, Assigned, CurationGrant, ActorAssignment,
         FindMembership, FindAccount;
    var ws, email := t.workspaceId, EmailOf(t, k);
    var m0, m := ActorMembership(db0, ws, email), ActorMembership(db, ws, email);
    if m0.Some? {
      AccountFoundStays(db0, db, email);
      var i :| 0 <= i < |db0.memberships| && db0.memberships[i] == m0.value;
      assert SameMember(m0.value, db.memberships[i]) && db.memberships[i] in db.memberships;
    }
    if HasMembership(db0.memberships, m.value.id) {
      var before := OldMembership(db0, db, t, m.value);
      OldAccount(db0, db, before, FindAccount(db.accounts, email).value);
      OldAccountFound(db0, db, email);
    }
  }

  lemma OldAccountFound(db0: Db, db: Db, email: string)
    requires db0.accounts <= db.accounts && FindAccount(db.accounts, email).Some?
    requires FindAccount(db.accounts, email).value in db0.accounts
    ensures FindAccount(db0.accounts, email) == FindAccount(db.accounts, email)
  {
    AccountFoundStays(db0, db, email);
  }

  lemma OldGrantsStay(db0: Db, db: Db, t: Target, roleId: string, code: string)
    requires Grew(db0, db, t) && RoleGrants(db0, roleId, code)
    ensures RoleGrants(db, roleId, code)
  {
    var g, p := GrantedCode(db0, roleId, code);
    assert g in db.grants && p in db.permissions;
  }

  /** An old assignment's role grants the code afterwards exactly when it did before, or is the role it is for. */
  lemma OldSeatPower(db0: Db, db: Db, t: Target, x: Assignment, j: Kind, code: string)
    requires DbOk(db0) && DbOk(db) && Grew(db0, db, t) && AllHeld(db, t)
    requires x in db0.assignments && code in Desired(j)
    ensures RoleGrants(db, x.roleId, code) <==> RoleGrants(db0, x.roleId, code) || IsRole(db0, t.workspaceId, j, x.roleId)
  {
    hide TablesOk, AccountsOk, MembershipsOk, UsersKnown, AllHeld, CurationGrant, ActorAssignment, RoleGrants;
    assert HasRole(db0.roles, x.roleId);
    var r :| r in db0.roles && r.id == x.roleId;
    assert r in db.roles;
    if RoleGrants(db, x.roleId, code) {
      RoleGrantsAfter(db0, db, t, r, code);
      DesiredApart(j, code);
    }
    if RoleGrants(db0, x.roleId, code) {
      OldGrantsStay(db0, db, t, x.roleId, code);
    }
    if IsRole(db0, t.workspaceId, j, x.roleId) {
      assert FindRole(db0.roles, t.workspaceId, RoleCode(j)).value == r;
      DesiredHeld(db, t, j, code);
      assert FindRole(db.roles, t.workspaceId, RoleCode(j)) == Some(r);
      HeldIsGranted(db, t.workspaceId, j, code);
    }
  }

  lemma DesiredApart(j: Kind, code: string)
    requires code in Desired(j)
    ensures forall k | code in Desired(k) :: k == j
    ensures IsCuration(code) && RoleCode(Verifier) != RoleCode(Publisher)
  {
    CodesDiffer();
  }

  lemma DesiredHeld(db: Db, t: Target, j: Kind, code: string)
    requires AllHeld(db, t) && code in Desired(j)
    ensures Held(db, t.workspaceId, j, code)
  {
    hide AllHeld, HeldIn;
    PairsHeld(db, t);
  }

  lemma HeldIsGranted(db: Db, ws: string, j: Kind, code: string)
    requires Held(db, ws, j, code)
    ensures RoleGrants(db, FindRole(db.roles, ws, RoleCode(j)).value.id, code)
  {
  }

  lemma AliveSeatCounts(db: Db, m: Membership, x: Assignment, code: string, at: Option<int>)
    requires m in db.memberships && m.active && x in db.assignments && x.membershipId == m.id
    requires Alive(x, at) && RoleGrants(db, x.roleId, code)
    ensures HoldsAt(db, m.accountId, m.workspaceId, code, at)
  {
  }

  lemma SeatOfHolder(db: Db, accountId: string, ws: string, code: string, at: Option<int>)
    returns (m: Membership, x: Assignment)
    requires HoldsAt(db, accountId, ws, code, at)
    ensures m in db.memberships && m.accountId == accountId && m.workspaceId == ws && m.active
    ensures x in db.assignments && x.membershipId == m.id && Alive(x, at) && RoleGrants(db, x.roleId, code)
  {
    m :| m in db.memberships && m.accountId == accountId && m.workspaceId == ws && m.active
         && exists x | x in db.assignments :: x.membershipId == m.id && Alive(x, at) && RoleGrants(db, x.roleId, code);
    x :| x in db.assignments && x.membershipId == m.id && Alive(x, at) && RoleGrants(db, x.roleId, code);
  }

  /** A code one of the two is after, or the one it must not have. */
  predicate Asked(k: Kind, j: Kind, code: string) {
    code in Desired(j) && (k == j || code == PUBLISH || code == VERIFY)
  }

  lemma SamePerson(db: Db, t: Target, v: string, p: string)
    requires DbOk(db) && EmailsDiffer(t) && Ready(db, t, Verifier, v) && Ready(db, t, Publisher, p)
    requires HasPlace(db, t, Verifier) && HasPlace(db, t, Publisher)
    ensures v != p && MembershipId(db, t, Verifier) != MembershipId(db, t, Publisher)
  {
    hide TablesOk, RolesOk, GrantsKnown, AssignmentsKnown, UsersKnown, HasUser, Assigned;
    ActorsDiffer(db, t);
  }

  /** A person's own new seat is in its own role. */
  lemma NewSeatIsOwn(db0: Db, db: Db, t: Target, v: string, p: string, k: Kind, x: Assignment)
    requires DbOk(db) && EmailsDiffer(t) && Ready(db, t, Verifier, v) && Ready(db, t, Publisher, p) && NewSeats(db0, db, t)
    requires x in db.assignments && x !in db0.assignments && x.membershipId == MembershipId(db, t, k)
    ensures !WasAssigned(db0, t, k) && x.roleId == RoleId(db, t, k)
  {
    hide DbOk, EmailsDiffer, Ready, WasAssigned, MembershipId, RoleId;
    SamePerson(db, t, v, p);
  }

  lemma OwnRoleClean(db0: Db, db: Db, t: Target, k: Kind, j: Kind, code: string)
    requires DbOk(db0) && DbOk(db) && Grew(db0, db, t) && PlanStop(db0, t).None? && HasPlace(db, t, k)
    requires Asked(k, j, code) && k != j
    ensures !RoleGrants(db, RoleId(db, t, k), code)
  {
    hide DbOk, Grew, RoleGrants, PlanStop;
    DesiredApart(j, code);
    CodesDiffer();
    RolesStayClean(db0, db, t);
  }

  /**
   * What the person of kind `k` can do with a curation code of role `j` once the inserts are done:
   * what an old seat of its membership gives, and its own new seat where it had none.
   */
  lemma PowerExactly(db0: Db, db: Db, t: Target, v: string, p: string, k: Kind, j: Kind, code: string, at: Option<int>)
    requires Settled(db0, db, t, v, p) && Asked(k, j, code)
    ensures HoldsAt(db, AccountId(k, v, p), t.workspaceId, code, at) <==>
            SeatedFor(db0, t.workspaceId, EmailOf(t, k), j, code, at) || (k == j && !WasAssigned(db0, t, k))
  {
    hide DbOk, Grew, AllHeld, Ready, NewSeats, RoleGrants, IsRole, EmailsDiffer, PlanStop, WasAssigned, HoldsAt, SeatedFor;
    if HoldsAt(db, AccountId(k, v, p), t.workspaceId, code, at) {
      HolderWasSeated(db0, db, t, v, p, k, j, code, at);
    }
    if SeatedFor(db0, t.workspaceId, EmailOf(t, k), j, code, at) {
      SeatedWillHold(db0, db, t, v, p, k, j, code, at);
    }
    if k == j && !WasAssigned(db0, t, k) {
      NewSeatHolds(db0, db, t, v, p, k, code, at);
    }
  }

  lemma HolderWasSeated(db0: Db, db: Db, t: Target, v: string, p: string, k: Kind, j: Kind, code: string, at: Option<int>)
    requires Settled(db0, db, t, v, p) && Asked(k, j, code)
    requires HoldsAt(db, AccountId(k, v, p), t.workspaceId, code, at)
    ensures SeatedFor(db0, t.workspaceId, EmailOf(t, k), j, code, at) || (k == j && !WasAssigned(db0, t, k))
  {
    hide Grew, AllHeld, Ready, NewSeats, RoleGrants, IsRole, EmailsDiffer, PlanStop, WasAssigned, HoldsAt,
         TablesOk, RolesOk, GrantsKnown, AccountsOk, UsersKnown;
    var m, x := SeatOfHolder(db, AccountId(k, v, p), t.workspaceId, code, at);
    MembershipStays(db0, db, t, k, AccountId(k, v, p));
    assert m == ActorMembership(db, t.workspaceId, EmailOf(t, k)).value;
    if x in db0.assignments {
      assert HasMembership(db0.memberships, x.membershipId);
      OldSeatPower(db0, db, t, x, j, code);
    } else {
      PlacesFound(db0, db, t);
      NewSeatIsOwn(db0, db, t, v, p, k, x);
      if k != j {
        OwnRoleClean(db0, db, t, k, j, code);
      }
    }
  }

  lemma PlacesFound(db0: Db, db: Db, t: Target)
    requires NewSeats(db0, db, t)
    ensures HasPlace(db, t, Verifier) && HasPlace(db, t, Publisher)
  {
  }

  lemma SeatedWillHold(db0: Db, db: Db, t: Target, v: string, p: string, k: Kind, j: Kind, code: string, at: Option<int>)
    requires Settled(db0, db, t, v, p) && code in Desired(j)
    requires SeatedFor(db0, t.workspaceId, EmailOf(t, k), j, code, at)
    ensures HoldsAt(db, AccountId(k, v, p), t.workspaceId, code, at)
  {
    hide DbOk, AllHeld, Ready, RoleGrants, IsRole, EmailsDiffer, PlanStop, WasAssigned, HoldsAt, CurationGrant, ActorAssignment;
    var m0 := ActorMembership(db0, t.workspaceId, EmailOf(t, k)).value;
    var x :| x in db0.assignments && x.membershipId == m0.id && Alive(x, at)
             && (RoleGrants(db0, x.roleId, code) || IsRole(db0, t.workspaceId, j, x.roleId));
    MembershipStays(db0, db, t, k, AccountId(k, v, p));
    OldSeatPower(db0, db, t, x, j, code);
    AliveSeatCounts(db, ActorMembership(db, t.workspaceId, EmailOf(t, k)).value, x, code, at);
  }

  lemma NewSeatHolds(db0: Db, db: Db, t: Target, v: string, p: string, k: Kind, code: string, at: Option<int>)
    requires Settled(db0, db, t, v, p) && code in Desired(k) && !WasAssigned(db0, t, k)
    ensures HoldsAt(db, AccountId(k, v, p), t.workspaceId, code, at)
  {
    hide DbOk, Grew, AllHeld, Ready, RoleGrants, EmailsDiffer, PlanStop, WasAssigned, HoldsAt;
    MembershipStays(db0, db, t, k, AccountId(k, v, p));
    DesiredHeld(db, t, k, code);
    HeldIsGranted(db, t.workspaceId, k, code);
    var x := Assignment(MembershipId(db, t, k), RoleId(db, t, k), true, None);
    assert x in SeatIf(true, MembershipId(db, t, k), RoleId(db, t, k));
    assert x in db.assignments;
    AliveSeatCounts(db, ActorMembership(db, t.workspaceId, EmailOf(t, k)).value, x, code, at);
  }

  // ---------------------------------------------------------------- what the guards and the people see

  /** The two guards on separation fire exactly on what was there before the inserts. */
  lemma ConflictExactly(db0: Db, db: Db, t: Target, v: string, p: string)
    requires Settled(db0, db, t, v, p)
    ensures Conflicted(db0, t) <==> Holds(db, v, t.workspaceId, PUBLISH) || Holds(db, p, t.workspaceId, VERIFY)
  {
    hide Settled, Holds, HoldsAt, SeatedFor;
    CodesDiffer();
    PowerExactly(db0, db, t, v, p, Verifier, Publisher, PUBLISH, None);
    PowerExactly(db0, db, t, v, p, Publisher, Verifier, VERIFY, None);
    HeldOrResolved(db, v, t.workspaceId, PUBLISH, 0);
    HeldOrResolved(db, p, t.workspaceId, VERIFY, 0);
  }

  /** A seat that is new never ends; an old one gives its powers until it does. */
  predicate Works(db0: Db, t: Target, k: Kind, code: string, asOf: int) {
    !WasAssigned(db0, t, k) || SeatedFor(db0, t.workspaceId, EmailOf(t, k), k, code, Some(asOf))
  }

  ghost predicate CanWork(db0: Db, db: Db, t: Target, v: string, p: string) {
    && (forall asOf :: Resolves(db, v, t.workspaceId, asOf, REVIEW_VIEW) <==> Works(db0, t, Verifier, REVIEW_VIEW, asOf))
    && (forall asOf :: Resolves(db, v, t.workspaceId, asOf, VERIFY) <==> Works(db0, t, Verifier, VERIFY, asOf))
    && (forall asOf :: Resolves(db, p, t.workspaceId, asOf, PUBLISH) <==> Works(db0, t, Publisher, PUBLISH, asOf))
  }

  lemma WorkExactly(db0: Db, db: Db, t: Target, v: string, p: string)
    requires Settled(db0, db, t, v, p)
    ensures CanWork(db0, db, t, v, p)
  {
    hide Settled, Resolves, HoldsAt, SeatedFor, WasAssigned;
    CodesDiffer();
    forall asOf
      ensures Resolves(db, v, t.workspaceId, asOf, REVIEW_VIEW) <==> Works(db0, t, Verifier, REVIEW_VIEW, asOf)
      ensures Resolves(db, v, t.workspaceId, asOf, VERIFY) <==> Works(db0, t, Verifier, VERIFY, asOf)
      ensures Resolves(db, p, t.workspaceId, asOf, PUBLISH) <==> Works(db0, t, Publisher, PUBLISH, asOf)
    {
      PowerExactly(db0, db, t, v, p, Verifier, Verifier, REVIEW_VIEW, Some(asOf));
      PowerExactly(db0, db, t, v, p, Verifier, Verifier, VERIFY, Some(asOf));
      PowerExactly(db0, db, t, v, p, Publisher, Publisher, PUBLISH, Some(asOf));
      HeldOrResolved(db, v, t.workspaceId, REVIEW_VIEW, asOf);
      HeldOrResolved(db, v, t.workspaceId, VERIFY, asOf);
      HeldOrResolved(db, p, t.workspaceId, PUBLISH, asOf);
    }
  }

  // ---------------------------------------------------------------- the transaction

  lemma SeatWritten(db: Db, t: Target, k: Kind, ids: (string, string, string))
    requires DbOk(db) && Unused(db, ids.0) && Unused(db, ids.1) && ids.0 != ids.1
    requires FindRole(db.roles, t.workspaceId, RoleCode(k)).Some?
    ensures var d := WithActor(db, t.workspaceId, k, EmailOf(t, k), ids);
            HasPlace(d, t, k) && d.roles == db.roles
            && d.assignments == db.assignments + SeatIf(!WasAssigned(db, t, k), MembershipId(d, t, k), RoleId(d, t, k))
  {
    hide DbOk, Grew, Unused, SameSeat, IsActor, HasUser, Assigned, ActorIn;
    var d, m := ActorSeated(db, t, k, ids);
    var r := FindRole(db.roles, t.workspaceId, RoleCode(k)).value;
    var seat := SeatAfter(db, t, k, ids);
    assert WithActor(db, t.workspaceId, k, EmailOf(t, k), ids) == WithAssignment(WithUser(d, m.id, ids.2), m.id, r.id);
  }

  lemma BothSeatsWritten(db0: Db, d3: Db, d4: Db, d5: Db, plan: Plan, ids: seq<string>)
    requires |ids| == 11 && plan == PlanOf(db0, plan.target) && ActorsAt(d3, plan) && d3.assignments == db0.assignments
    requires var t, e := plan.target, (ids[5], ids[6], ids[7]);
             && DbOk(d3) && Unused(d3, e.0) && Unused(d3, e.1) && e.0 != e.1
             && FindRole(d3.roles, t.workspaceId, RoleCode(Verifier)).Some?
             && d4 == WithActor(d3, t.workspaceId, Verifier, t.verifierEmail, e)
             && SameActor(d3, d4, t.workspaceId, Publisher, t.publisherEmail)
    requires var t, e := plan.target, (ids[8], ids[9], ids[10]);
             && DbOk(d4) && Unused(d4, e.0) && Unused(d4, e.1) && e.0 != e.1
             && FindRole(d4.roles, t.workspaceId, RoleCode(Publisher)).Some?
             && d5 == WithActor(d4, t.workspaceId, Publisher, t.publisherEmail, e)
             && SameActor(d4, d5, t.workspaceId, Verifier, t.verifierEmail)
    ensures NewSeats(db0, d5, plan.target)
  {
    hide DbOk, Unused, WithActor, ActorIn, HeldIn, RoleGrants, DirectorHolds, OwnerHolds;
    SeatWritten(d3, plan.target, Verifier, (ids[5], ids[6], ids[7]));
    SeatWritten(d4, plan.target, Publisher, (ids[8], ids[9], ids[10]));
  }

  class Bp02Database {
    var db: Db

    constructor (db: Db)
      ensures this.db == db
    {
      this.db := db;
    }

    method InsertPermissions(plan: Plan, ids: seq<string>) returns (added: nat)
      requires |plan.permissionIds| == 3 && |ids| == 11 && Stage(db, db, plan, ids, 0, 0, 0)
      modifies this
      ensures Stage(old(db), db, plan, ids, 3, 0, 0)
      ensures added == MissingIds(plan.permissionIds)
    {
      hide Stage;
      added := 0;
      for k := 0 to 3
        invariant Stage(old(db), db, plan, ids, k, 0, 0)
        invariant added == MissingIds(plan.permissionIds[..k])
      {
        PermissionStage(old(db), db, plan, ids, k);
        if plan.permissionIds[k].None? {
          db := PlusPermission(db, METADATA[k], ids[k]);
          added := added + 1;
        }
        assert plan.permissionIds[..k + 1][..k] == plan.permissionIds[..k];
      }
      assert plan.permissionIds[..3] == plan.permissionIds;
    }

    method InsertRoles(ghost db0: Db, plan: Plan, ids: seq<string>) returns (added: nat)
      requires |plan.roleIds| == 2 && |ids| == 11 && Stage(db0, db, plan, ids, 3, 0, 0)
      modifies this
      ensures Stage(db0, db, plan, ids, 3, 2, 0)
      ensures added == MissingIds(plan.roleIds)
    {
      hide Stage;
      added := 0;
      for k := 0 to 2
        invariant Stage(db0, db, plan, ids, 3, k, 0)
        invariant added == MissingIds(plan.roleIds[..k])
      {
        RoleStage(db0, db, plan, ids, k);
        if plan.roleIds[k].None? {
          db := PlusRole(db, plan.target.workspaceId, KINDS[k], ids[3 + k]);
          added := added + 1;
        }
        assert plan.roleIds[..k + 1][..k] == plan.roleIds[..k];
      }
      assert plan.roleIds[..2] == plan.roleIds;
    }

    method InsertGrants(ghost db0: Db, plan: Plan, ghost ids: seq<string>) returns (added: nat)
      requires |plan.held| == 3 && |ids| == 11 && Stage(db0, db, plan, ids, 3, 2, 0)
      modifies this
      ensures Stage(db0, db, plan, ids, 3, 2, 3)
      ensures added == MissingGrants(plan.held)
    {
      hide Stage;
      added := 0;
      for k := 0 to 3
        invariant Stage(db0, db, plan, ids, 3, 2, k)
        invariant added == MissingGrants(plan.held[..k])
      {
        GrantStage(db0, db, plan, ids, k);
        if !plan.held[k] {
          db := PlusGrant(db, plan.target.workspaceId, PAIRS[k].0, PAIRS[k].1);
          added := added + 1;
        }
        assert plan.held[..k + 1][..k] == plan.held[..k];
      }
      assert plan.held[..3] == plan.held;
    }

    /** Account, membership (made active in any case), user and assignment of one person. */
    method EnsureActor(t: Target, k: Kind, prior: ActorPlan, ids: (string, string, string))
      returns (accountId: string, added: nat)
      requires prior == ActorOf(db, t.workspaceId, k, EmailOf(t, k))
      requires DbOk(db) && Unused(db, ids.0) && Unused(db, ids.1) && ids.0 != ids.1
      requires FindRole(db.roles, t.workspaceId, RoleCode(k)).Some?
      modifies this
      ensures db == WithActor(old(db), t.workspaceId, k, EmailOf(t, k), ids)
      ensures ActorReady(db, t.workspaceId, k, EmailOf(t, k))
      ensures ActorOf(db, t.workspaceId, k, EmailOf(t, k)).accountId == Some(accountId)
      ensures added == MissingActor(prior)
    {
      hide DbOk, Grew, Unused, FindMembership, Act, RoleCode, HasUser, Lower, Assigned;
      added := 0;
      var email, ws := EmailOf(t, k), t.workspaceId;
      ghost var d0 := db;
      ActorOwnStep(d0, t, k, ids);
      ghost var seat := SeatAfter(d0, t, k, ids);
      if prior.accountId.None? {
        db := db.(accounts := db.accounts + [Account(ids.0, email)]);
        added := added + 1;
      }
      accountId := FindAccount(db.accounts, email).value.id;
      if prior.membershipId.None? {
        db := db.(memberships := db.memberships + [Membership(ids.1, accountId, ws, true)]);
        added := added + 1;
      }
      var membershipId := FindMembership(db.memberships, accountId, ws).value.id;
      db := WithActive(db, membershipId);
      if !prior.hasUser {
        db := db.(users := db.users + [User(ids.2, membershipId)]);
        added := added + 1;
      }
      if !prior.isAssigned {
        var roleId := FindRole(db.roles, ws, RoleCode(k)).value.id;
        db := db.(assignments := db.assignments + [Assignment(membershipId, roleId, true, None)]);
        added := added + 1;
      }
    }

    /**
     * The serializable transaction. It commits exactly on the reviewed plan, when the director and the
     * owner hold no curation, neither person already sits where the other's power is, and the owner
     * sits in neither curation role; otherwise nothing changes. What it commits keeps the two people
     * apart at every instant, gives the new grants to the two curation roles alone, and lets each
     * person do its work at an instant exactly if its seat is new or an old one had not expired.
     */
    method Apply(t: Target, expected: Plan, ids: seq<string>) returns (r: Result<(nat, string, string), Stop>)
      requires DbOk(db) && EmailsDiffer(t) && |ids| == 11 && Fresh(db, ids, 0)
      modifies this
      ensures DbOk(db)
      ensures r.Ok? <==>
                && PlanStop(old(db), t).None? && PlanOf(old(db), t) == expected
                && !expected.directorHolds && !expected.ownerHolds
                && !Conflicted(old(db), t) && !OwnerSits(old(db), t.workspaceId, t.ownerEmail)
      ensures r.Err? ==> db == old(db) && r.error !in {SodSameAccount, SodVerifierMissing, SodPublisherMissing,
                                                       PostconditionIncomplete, DirectorReceived}
      ensures r.Err? && r.error.OwnerReceived? ==> OwnerSits(old(db), t.workspaceId, t.ownerEmail)
      ensures r.Ok? ==> Grew(old(db), db, t) && Complete(PlanOf(db, t)) && r.value.0 == ExpectedChanges(expected)
      ensures r.Ok? ==> Separated(db, t, r.value.1, r.value.2)
      ensures r.Ok? ==> !DirectorHolds(db, t.workspaceId) && !OwnerHolds(db, t.workspaceId, t.ownerEmail)
      ensures r.Ok? ==> CanWork(old(db), db, t, r.value.1, r.value.2)
    {
      hide DbOk, Grew, PlanStop, Complete, Holds, Fresh, EmailsDiffer, OwnerSits, OwnerHolds, DirectorHolds, AllHeld,
           Ready, ActorOf, HeldIn, Separated, ExpectedChanges, NewSeats, Conflicted, CanWork;
      var stop := PlanStop(db, t);
      if stop.Some? {
        return Err(stop.value);
      }
      var plan := PlanOf(db, t);
      if plan != expected {
        return Err(PlanDrift);
      }
      if plan.directorHolds {
        return Err(DirectorAlreadyHolds);
      }
      if plan.ownerHolds {
        return Err(OwnerAlreadyHolds);
      }
      var saved := db;
      var changes, v, p := Inserts(plan, ids);
      BothHold(db, t, v, p);
      PlanIsComplete(saved, db, t, v, p);
      DirectorGainsNothing(saved, db, t);
      PairsHeld(db, t);
      ConflictExactly(saved, db, t, v, p);
      WorkExactly(saved, db, t, v, p);
      stop := AssertSod(t.workspaceId, v, p);
      if stop.Some? {
        db := saved;
        return Err(stop.value);
      }
      // Re-deriving the plan stops for no reason, finds nothing left to insert and no director grant.
      if PlanStop(db, t).Some? || !Complete(PlanOf(db, t)) || DirectorHolds(db, t.workspaceId) {
        assert false;
      }
      OwnerGuardExact(saved, db, t);
      SodMeansSeparated(db, t, v, p);
      if OwnerHolds(db, t.workspaceId, t.ownerEmail) {
        db := saved;
        return Err(OwnerReceived);
      }
      return Ok((changes, v, p));
    }

    /** The in-transaction proof: of the five ways duties can fail to be apart, the first that holds. */
    method AssertSod(ws: string, v: string, p: string) returns (stop: Option<Stop>)
      ensures stop.None? <==>
                && v != p && Holds(db, v, ws, REVIEW_VIEW) && Holds(db, v, ws, VERIFY) && !Holds(db, v, ws, PUBLISH)
                && Holds(db, p, ws, PUBLISH) && !Holds(db, p, ws, VERIFY)
      ensures stop.Some? ==> stop.value in {SodSameAccount, SodVerifierMissing, SodVerifierHasPublish,
                                            SodPublisherMissing, SodPublisherHasVerify}
      ensures stop == Some(SodSameAccount) <==> v == p
      ensures stop == Some(SodVerifierMissing) <==>
                v != p && !(Holds(db, v, ws, REVIEW_VIEW) && Holds(db, v, ws, VERIFY))
      ensures stop == Some(SodVerifierHasPublish) ==> Holds(db, v, ws, PUBLISH)
      ensures stop == Some(SodPublisherMissing) ==> !Holds(db, v, ws, PUBLISH) && !Holds(db, p, ws, PUBLISH)
      ensures stop == Some(SodPublisherHasVerify) ==>
                !Holds(db, v, ws, PUBLISH) && Holds(db, p, ws, PUBLISH) && Holds(db, p, ws, VERIFY)
    {
      hide Holds;
      if v == p {
        return Some(SodSameAccount);
      }
      if !Holds(db, v, ws, REVIEW_VIEW) || !Holds(db, v, ws, VERIFY) {
        return Some(SodVerifierMissing);
      }
      if Holds(db, v, ws, PUBLISH) {
        return Some(SodVerifierHasPublish);
      }
      if !Holds(db, p, ws, PUBLISH) {
        return Some(SodPublisherMissing);
      }
      return if Holds(db, p, ws, VERIFY) then Some(SodPublisherHasVerify) else None;
    }

    /** All the inserts, table by table, then person by person. */
    method Inserts(plan: Plan, ids: seq<string>) returns (changes: nat, v: string, p: string)
      requires DbOk(db) && |ids| == 11 && Fresh(db, ids, 0) && plan == PlanOf(db, plan.target) && EmailsDiffer(plan.target)
      modifies this
      ensures DbOk(db) && Grew(old(db), db, plan.target)
      ensures AllHeld(db, plan.target)
      ensures Ready(db, plan.target, Verifier, v) && Ready(db, plan.target, Publisher, p)
      ensures changes == ExpectedChanges(plan)
      ensures NewSeats(old(db), db, plan.target)
    {
      hide DbOk, Grew, ActorReady, ActorIn, ActorMembership, Stage, AllHeld, WithActor, MissingIds, MissingGrants, MissingActor;
      var t := plan.target;
      ghost var db0 := db;
      StageZero(db, plan, ids);
      var n1 := InsertPermissions(plan, ids);
      var n2 := InsertRoles(db0, plan, ids);
      var n3 := InsertGrants(db0, plan, ids);
      ghost var d3 := db;
      AllGranted(db0, d3, plan, ids);
      ActorOwnStep(d3, t, Verifier, (ids[5], ids[6], ids[7]));
      var n4, n5;
      v, n4 := EnsureActor(t, Verifier, plan.verifier, (ids[5], ids[6], ids[7]));
      ghost var d4 := db;
      StillFresh(d3, t, Verifier, ids);
      ActorOtherStep(d3, t, Verifier, (ids[5], ids[6], ids[7]), Publisher, t.publisherEmail);
      ActorOwnStep(d4, t, Publisher, (ids[8], ids[9], ids[10]));
      ActorOtherStep(d4, t, Publisher, (ids[8], ids[9], ids[10]), Verifier, t.verifierEmail);
      p, n5 := EnsureActor(t, Publisher, plan.publisher, (ids[8], ids[9], ids[10]));
      BothSeatsWritten(db0, d3, d4, db, plan, ids);
      TwoActors(db0, d3, d4, db, t, v, p);
      changes := n1 + n2 + n3 + n4 + n5;
    }
  }
}

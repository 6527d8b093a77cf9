/** Two lawful databases on which the BP-02 activation does not do what its reader may expect. */
module Bp02Examples {
  import opened Outcomes
  import opened AccessTables
  import opened Bp02Activation
  import opened Bp02Commit

  const TARGET: Target := Target("w", "o", "ver", "pub", "owner")

  /** One account, seated in the verifier role of the workspace before that role grants anything. */
  function Seated(email: string, endDate: Option<int>): Db {
    Db(map["w" := "o"], [], [Role("r", "w", RoleCode(Verifier))], [], [Account("a", email)],
       [Membership("m", "a", "w", true)], [], [Assignment("m", "r", true, endDate)])
  }

  lemma EmailsOfTarget()
    ensures EmailsDiffer(TARGET) && Lower("ver") == "ver" && Lower("pub") == "pub" && Lower("owner") == "owner"
  {
    var v, p, o := Lower("ver"), Lower("pub"), Lower("owner");
    assert v == "ver" && p == "pub" && o == "owner";
    assert |o| == 5 && |v| == 3 && |p| == 3 && v[0] == 'v' && p[0] == 'p';
  }

  lemma SeatedOk(email: string, endDate: Option<int>)
    ensures DbOk(Seated(email, endDate))
  {
    var db := Seated(email, endDate);
    assert db.accounts[0] in db.accounts && db.memberships[0] in db.memberships && db.roles[0] in db.roles;
    assert HasAccount(db.accounts, "a") && HasMembership(db.memberships, "m") && HasRole(db.roles, "r");
  }

  lemma SeatedLookups(email: string, endDate: Option<int>)
    ensures var db := Seated(email, endDate);
            && FindRole(db.roles, "w", RoleCode(Verifier)) == Some(db.roles[0])
            && FindRole(db.roles, "w", RoleCode(Publisher)).None?
            && (forall e :: FindAccount(db.accounts, e) == if Lower(email) == Lower(e) then Some(db.accounts[0]) else None)
            && FindMembership(db.memberships, "a", "w") == Some(db.memberships[0])
            && (forall r, c :: !RoleGrants(db, r, c))
  {
    CodesDiffer();
    var db := Seated(email, endDate);
    assert db.roles[1..] == [] && db.accounts[1..] == [];
  }

  /** The plan derives, and of the refusals behind it only the owner's can still fire. */
  lemma PlanDerives(email: string, endDate: Option<int>)
    requires Lower(email) != Lower("pub")
    ensures var db := Seated(email, endDate);
            && PlanStop(db, TARGET).None? && !PlanOf(db, TARGET).directorHolds && !PlanOf(db, TARGET).ownerHolds
            && !Conflicted(db, TARGET)
  {
    hide RoleGrants, Lower, FindRole, FindAccount, FindMembership;
    SeatedLookups(email, endDate);
    var db := Seated(email, endDate);
    assert !SeatedFor(db, "w", "ver", Publisher, PUBLISH, None);
    assert ActorMembership(db, "w", "pub").None?;
  }

  /** The owner already sits in the role: the inserts would give the owner curation, and the last guard refuses. */
  lemma OwnerGuardExample()
    ensures var db := Seated("owner", None);
            && DbOk(db) && EmailsDiffer(TARGET)
            && PlanStop(db, TARGET).None? && !PlanOf(db, TARGET).directorHolds && !PlanOf(db, TARGET).ownerHolds
            && !Conflicted(db, TARGET) && OwnerSits(db, TARGET.workspaceId, TARGET.ownerEmail)
    ensures forall db' :: DbOk(db') && Grew(Seated("owner", None), db', TARGET) && AllHeld(db', TARGET) ==>
                            OwnerHolds(db', TARGET.workspaceId, TARGET.ownerEmail)
  {
    hide RoleGrants, Grew, AllHeld, DbOk, PlanStop, PlanOf, Conflicted, OwnerHolds;
    EmailsOfTarget();
    SeatedOk("owner", None);
    PlanDerives("owner", None);
    var db := Seated("owner", None);
    SittingOwner(db);
    forall db' | DbOk(db') && Grew(db, db', TARGET) && AllHeld(db', TARGET)
      ensures OwnerHolds(db', TARGET.workspaceId, TARGET.ownerEmail)
    {
      SittingOwnerGains(db, db', TARGET);
    }
  }

  lemma SittingOwner(db: Db)
    requires db == Seated("owner", None)
    ensures OwnerSits(db, "w", "owner")
  {
    assert db.accounts[0] in db.accounts && db.memberships[0] in db.memberships && db.assignments[0] in db.assignments;
    PackSeat(db, "w", "owner", db.roles[0], db.accounts[0], db.memberships[0], db.assignments[0]);
  }

  /**
   * The verifier's old seat is active but past its end: the activation commits, adds no seat, and the
   * resolver gives the verifier nothing to verify with from then on.
   */
  lemma ExpiredSeatExample(asOf: int)
    requires asOf > 5
    ensures var db := Seated("ver", Some(5));
            && DbOk(db) && EmailsDiffer(TARGET)
            && PlanStop(db, TARGET).None? && !PlanOf(db, TARGET).directorHolds && !PlanOf(db, TARGET).ownerHolds
            && !Conflicted(db, TARGET) && !OwnerSits(db, TARGET.workspaceId, TARGET.ownerEmail)
            && !Works(db, TARGET, Verifier, VERIFY, asOf) && !Works(db, TARGET, Verifier, REVIEW_VIEW, asOf)
  {
    hide RoleGrants, DbOk, PlanStop, PlanOf, Conflicted, Lower, FindRole, FindAccount, FindMembership, IsCurationRole;
    EmailsOfTarget();
    SeatedOk("ver", Some(5));
    PlanDerives("ver", Some(5));
    SeatedLookups("ver", Some(5));
    var db := Seated("ver", Some(5));
    assert db.assignments[0] in db.assignments;
    assert Assigned(db.assignments, "m", "r");
    NobodyElse(db, "owner");
  }

  lemma NobodyElse(db: Db, email: string)
    requires forall a | a in db.accounts :: Lower(a.email) != Lower(email)
    ensures !OwnerSits(db, "w", email)
  {
  }
}

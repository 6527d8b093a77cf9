/** Granting a fixed list of permissions to one role: plan, review by digest, apply, re-derive. */
module Rm01bActivation {
  import opened Outcomes
  import opened AccessTables
  import opened CanonicalJson

  datatype Target = Target(workspaceId: string, organizationId: string, roleId: string)

  /** One permission of the plan; absent permissions and absent grants are to be inserted. */
  datatype Entry = Entry(code: string, permissionId: Option<string>, granted: bool)

  datatype NonTarget = NonTarget(code: string, permissionId: string)

  datatype Plan = Plan(target: Target, entries: seq<Entry>, others: seq<NonTarget>)

  datatype Stop =
    | RoleNotFound | MultipleRoles | TargetDrift | MetadataConflict(code: string) | PlanDrift
    | PermissionIdUnresolved | ExpectedChangesMismatch | TargetGrantsMissing | NonTargetGrantDrift

  const ROLE_CODE := "DIRECTOR"

  const METADATA: seq<Metadata> := [
    Metadata("RAB_DRAFT_EDIT", "Edit RAB Draft", "Edit RAB drafts and approve bounded BOQ imports."),
    Metadata("RAB_VIEW", "View RAB", "View RAB drafts and bounded import previews.")]

  // ---------------------------------------------------------------- the plan

  function RolesOf(roles: seq<Role>, workspaceId: string, code: string): seq<Role> {
    if |roles| == 0 then []
    else (if roles[0].workspaceId == workspaceId && roles[0].code == code then [roles[0]] else [])
         + RolesOf(roles[1..], workspaceId, code)
  }

  function TargetStop(roles: seq<Role>, organizations: map<string, string>, t: Target): Option<Stop> {
    var found := RolesOf(roles, t.workspaceId, ROLE_CODE);
    if |found| == 0 || t.workspaceId !in organizations then Some(RoleNotFound)
    else if |found| > 1 then Some(MultipleRoles)
    else if found[0].id != t.roleId || organizations[t.workspaceId] != t.organizationId then Some(TargetDrift)
    else None
  }

  predicate Conflicts(ps: seq<Permission>, m: Metadata) {
    var row := Find(ps, m.code);
    row.Some? && (row.value.name != m.name || row.value.description != Some(m.description))
  }

  function FirstConflict(ps: seq<Permission>, meta: seq<Metadata>): (c: Option<string>)
    ensures c.None? <==> forall i | 0 <= i < |meta| :: !Conflicts(ps, meta[i])
  {
    if |meta| == 0 then None
    else if Conflicts(ps, meta[0]) then Some(meta[0].code)
    else FirstConflict(ps, meta[1..])
  }

  function EntryOf(ps: seq<Permission>, gs: seq<Grant>, roleId: string, m: Metadata): Entry {
    var row := Find(ps, m.code);
    Entry(m.code, if row.Some? then Some(row.value.id) else None, row.Some? && Grant(roleId, row.value.id) in gs)
  }

  function EntriesOf(ps: seq<Permission>, gs: seq<Grant>, roleId: string, meta: seq<Metadata>): (es: seq<Entry>)
    ensures |es| == |meta|
    ensures forall i | 0 <= i < |meta| :: es[i] == EntryOf(ps, gs, roleId, meta[i])
  {
    seq(|meta|, i requires 0 <= i < |meta| => EntryOf(ps, gs, roleId, meta[i]))
  }

  /** The role's grants of permissions that are not on the list. */
  function OthersOf(ps: seq<Permission>, gs: seq<Grant>, roleId: string, meta: seq<Metadata>): seq<NonTarget> {
    if |gs| == 0 then []
    else
      var rest, g := OthersOf(ps, gs[..|gs| - 1], roleId, meta), gs[|gs| - 1];
      var p := FindById(ps, g.permissionId);
      if g.roleId == roleId && p.Some? && !HasCode(meta, p.value.code)
      then rest + [NonTarget(p.value.code, p.value.id)] else rest
  }

  function ChangesOf(e: Entry): nat {
    (if e.permissionId.None? then 1 else 0) + (if e.granted then 0 else 1)
  }

  function ExpectedChanges(es: seq<Entry>): nat {
    if |es| == 0 then 0 else ExpectedChanges(es[..|es| - 1]) + ChangesOf(es[|es| - 1])
  }

  function ComputePlan(ps: seq<Permission>, gs: seq<Grant>, roles: seq<Role>, organizations: map<string, string>,
                       t: Target, meta: seq<Metadata>): Result<Plan, Stop> {
    var stop := TargetStop(roles, organizations, t);
    var conflict := FirstConflict(ps, meta);
    if stop.Some? then Err(stop.value)
    else if conflict.Some? then Err(MetadataConflict(conflict.value))
    else Ok(Plan(t, EntriesOf(ps, gs, t.roleId, meta), OthersOf(ps, gs, t.roleId, meta)))
  }

  // ---------------------------------------------------------------- the reviewed text

  function TargetJson(t: Target): seq<(string, Json)> {
    [("workspaceId", JString(t.workspaceId)), ("organizationId", JString(t.organizationId)),
     ("roleId", JString(t.roleId)), ("roleCode", JString(ROLE_CODE))]
  }

  function EntryJson(e: Entry): seq<(string, Json)> {
    [("code", JString(e.code)),
     ("permissionId", if e.permissionId.Some? then JString(e.permissionId.value) else JNull),
     ("permissionAction", JString(if e.permissionId.Some? then "NONE" else "INSERT_PERMISSION")),
     ("grantAction", JString(if e.granted then "NONE" else "INSERT_ROLE_PERMISSION"))]
  }

  function EntryItems(es: seq<Entry>): Items {
    if |es| == 0 then NoItems else Item(JObject(Obj(EntryJson(es[0]))), EntryItems(es[1..]))
  }

  function OtherJson(o: NonTarget): seq<(string, Json)> {
    [("code", JString(o.code)), ("permissionId", JString(o.permissionId))]
  }

  function OtherItems(os: seq<NonTarget>): Items {
    if |os| == 0 then NoItems else Item(JObject(Obj(OtherJson(os[0]))), OtherItems(os[1..]))
  }

  /** The other grants enter the plan as their count and the digest of their own canonical text. */
  function PlanFields(p: Plan): seq<(string, Json)> {
    [("database", JString("simprok_db")),
     ("target", JObject(Obj(TargetJson(p.target)))),
     ("entries", JArray(EntryItems(p.entries))),
     ("expectedChanges", JNumber(ExpectedChanges(p.entries))),
     ("nonTargetGrantCount", JNumber(|p.others|)),
     ("nonTargetGrantFingerprint", JString(Canonical(JArray(OtherItems(p.others)))))]
  }

  /** The text the reviewer's digest is taken of; SHA-256 is represented by the text itself. */
  function PlanText(p: Plan): string {
    Canonical(JObject(Obj(PlanFields(p))))
  }

  /** Keys of different lengths are different. */
  lemma LengthsTellKeysApart(es: seq<(string, Json)>)
    requires forall i, j | 0 <= i < j < |es| :: |es[i].0| != |es[j].0|
    ensures DistinctKeys(es)
  {
  }

  lemma EntryOk(e: Entry)
    ensures DistinctKeys(EntryJson(e)) && WellFormed(JObject(Obj(EntryJson(e))))
  {
    LengthsTellKeysApart(EntryJson(e));
    ObjWellFormed(EntryJson(e));
  }

  lemma OtherOk(o: NonTarget)
    ensures DistinctKeys(OtherJson(o)) && WellFormed(JObject(Obj(OtherJson(o))))
  {
    LengthsTellKeysApart(OtherJson(o));
    ObjWellFormed(OtherJson(o));
  }

  lemma {:induction false} EntryItemsOk(es: seq<Entry>)
    ensures WellFormedItems(EntryItems(es))
  {
    if |es| > 0 {
      EntryOk(es[0]);
      EntryItemsOk(es[1..]);
    }
  }

  lemma {:induction false} OtherItemsOk(os: seq<NonTarget>)
    ensures WellFormedItems(OtherItems(os))
  {
    if |os| > 0 {
      OtherOk(os[0]);
      OtherItemsOk(os[1..]);
    }
  }

  lemma TargetOk(t: Target)
    ensures DistinctKeys(TargetJson(t)) && WellFormed(JObject(Obj(TargetJson(t))))
  {
    LengthsTellKeysApart(TargetJson(t));
    ObjWellFormed(TargetJson(t));
  }

  lemma PlanOk(p: Plan)
    ensures DistinctKeys(PlanFields(p)) && WellFormed(JObject(Obj(PlanFields(p))))
    ensures WellFormed(JArray(OtherItems(p.others)))
  {
    TargetOk(p.target);
    EntryItemsOk(p.entries);
    OtherItemsOk(p.others);
    LengthsTellKeysApart(PlanFields(p));
    ObjWellFormed(PlanFields(p));
  }

  lemma SameEntry(d: Entry, e: Entry)
    requires Same(JObject(Obj(EntryJson(d))), JObject(Obj(EntryJson(e))))
    ensures d == e
  {
    EntryOk(d);
    var a, b := EntryJson(d), EntryJson(e);
    RecordsAgree(a, b);
    assert Same(a[0].1, b[0].1) && Same(a[1].1, b[1].1) && Same(a[3].1, b[3].1);
    var none, insert := "NONE", "INSERT_ROLE_PERMISSION";
    assert |none| != |insert|;
  }

  lemma {:induction false} SameEntryItems(ds: seq<Entry>, es: seq<Entry>)
    requires SameItems(EntryItems(ds), EntryItems(es))
    ensures ds == es
  {
    if |ds| > 0 {
      SameEntry(ds[0], es[0]);
      SameEntryItems(ds[1..], es[1..]);
      assert ds == [ds[0]] + ds[1..] && es == [es[0]] + es[1..];
    }
  }

  lemma SameOther(o: NonTarget, q: NonTarget)
    requires Same(JObject(Obj(OtherJson(o))), JObject(Obj(OtherJson(q))))
    ensures o == q
  {
    OtherOk(o);
    var a, b := OtherJson(o), OtherJson(q);
    RecordsAgree(a, b);
    assert Same(a[0].1, b[0].1) && Same(a[1].1, b[1].1);
  }

  lemma {:induction false} SameOtherItems(os: seq<NonTarget>, qs: seq<NonTarget>)
    requires SameItems(OtherItems(os), OtherItems(qs))
    ensures os == qs
  {
    if |os| > 0 {
      SameOther(os[0], qs[0]);
      SameOtherItems(os[1..], qs[1..]);
      assert os == [os[0]] + os[1..] && qs == [qs[0]] + qs[1..];
    }
  }

  lemma SameTarget(t: Target, u: Target)
    requires Same(JObject(Obj(TargetJson(t))), JObject(Obj(TargetJson(u))))
    ensures t == u
  {
    TargetOk(t);
    var a, b := TargetJson(t), TargetJson(u);
    RecordsAgree(a, b);
    assert Same(a[0].1, b[0].1) && Same(a[1].1, b[1].1) && Same(a[2].1, b[2].1);
  }

  lemma PlansShareTheirShape(p: Plan, q: Plan)
    ensures SameKeys(PlanFields(p), PlanFields(q)) && |PlanFields(p)| == 6
  {
  }

  lemma SamePlanFields(p: Plan, q: Plan)
    requires PlanText(p) == PlanText(q)
    ensures forall i | 0 <= i < 6 :: Same(PlanFields(p)[i].1, PlanFields(q)[i].1)
  {
    PlansShareTheirShape(p, q);
    PlanOk(p);
    PlanOk(q);
    RecordTextsAgree(PlanFields(p), PlanFields(q));
  }

  lemma SamePlanParts(p: Plan, q: Plan)
    requires Same(PlanFields(p)[1].1, PlanFields(q)[1].1)
    requires Same(PlanFields(p)[2].1, PlanFields(q)[2].1)
    requires Same(PlanFields(p)[5].1, PlanFields(q)[5].1)
    ensures p == q
  {
    SameTarget(p.target, q.target);
    SameEntryItems(p.entries, q.entries);
    OtherItemsOk(p.others);
    OtherItemsOk(q.others);
    CanonicalDecides(JArray(OtherItems(p.others)), JArray(OtherItems(q.others)));
    SameOtherItems(p.others, q.others);
  }

  /** The reviewed text names one plan: target, every entry and every other grant of the role. */
  lemma PlanTextDeterminesPlan(p: Plan, q: Plan)
    requires PlanText(p) == PlanText(q)
    ensures p == q
  {
    SamePlanFields(p, q);
    SamePlanParts(p, q);
  }

  // ---------------------------------------------------------------- apply

  /** The permission exists under its own name and the role holds it. */
  predicate GrantedAs(ps: seq<Permission>, gs: seq<Grant>, roleId: string, m: Metadata) {
    var row := Find(ps, m.code);
    row.Some? && row.value.name == m.name && row.value.description == Some(m.description)
    && Grant(roleId, row.value.id) in gs
  }

  /** Nothing about permission `m` has moved since the plan was computed. */
  predicate Untouched(ps0: seq<Permission>, gs0: seq<Grant>, ps: seq<Permission>, gs: seq<Grant>, roleId: string, m: Metadata) {
    var row := Find(ps0, m.code);
    Find(ps, m.code) == row && (row.Some? ==> (Grant(roleId, row.value.id) in gs <==> Grant(roleId, row.value.id) in gs0))
  }

  /** A permission the plan called for: on the list, and missing before. */
  predicate PlannedPermission(ps0: seq<Permission>, meta: seq<Metadata>, p: Permission) {
    HasCode(meta, p.code) && Find(ps0, p.code).None?
  }

  /** A grant the plan called for: of a listed permission, to the target role. */
  predicate PlannedGrant(ps: seq<Permission>, roleId: string, meta: seq<Metadata>, g: Grant) {
    var p := FindById(ps, g.permissionId);
    g.roleId == roleId && p.Some? && HasCode(meta, p.value.code)
  }

  /** What was inserted since the plan, and nothing else. */
  ghost predicate OnlyPlanned(ps0: seq<Permission>, gs0: seq<Grant>, ps: seq<Permission>, gs: seq<Grant>,
                              roleId: string, meta: seq<Metadata>) {
    && ps0 <= ps && gs0 <= gs
    && (forall i | |ps0| <= i < |ps| :: PlannedPermission(ps0, meta, ps[i]))
    && (forall i | |gs0| <= i < |gs| :: PlannedGrant(ps, roleId, meta, gs[i]))
  }

  ghost predicate Progress(ps0: seq<Permission>, gs0: seq<Grant>, ps: seq<Permission>, gs: seq<Grant>,
                           roleId: string, meta: seq<Metadata>, k: nat)
    requires k <= |meta|
  {
    && TablesOk(ps, gs)
    && OnlyPlanned(ps0, gs0, ps, gs, roleId, meta)
    && (forall j | 0 <= j < k :: GrantedAs(ps, gs, roleId, meta[j]))
    && (forall j | k <= j < |meta| :: Untouched(ps0, gs0, ps, gs, roleId, meta[j]))
  }

  function AfterGrant(gs: seq<Grant>, g: Grant): seq<Grant> {
    if g in gs then gs else gs + [g]
  }

  lemma InsertKeepsGrantedAs(ps: seq<Permission>, gs: seq<Grant>, roleId: string, p: Permission, m: Metadata)
    requires GrantedAs(ps, gs, roleId, m)
    ensures GrantedAs(ps + [p], gs, roleId, m)
  {
    FindAppended(ps, p, m.code);
  }

  lemma InsertKeepsPlanned(ps: seq<Permission>, roleId: string, meta: seq<Metadata>, p: Permission, g: Grant)
    requires PlannedGrant(ps, roleId, meta, g)
    ensures PlannedGrant(ps + [p], roleId, meta, g)
  {
    FindByIdAppended(ps, p, g.permissionId);
  }

  /** Inserting the missing permission `k`. */
  lemma InsertProgress(ps0: seq<Permission>, gs0: seq<Grant>, ps: seq<Permission>, gs: seq<Grant>,
                       roleId: string, meta: seq<Metadata>, k: nat, freshId: string)
    requires k < |meta| && Distinct(meta) && Progress(ps0, gs0, ps, gs, roleId, meta, k)
    requires Find(ps0, meta[k].code).None? && FindById(ps, freshId).None?
    ensures var m := meta[k];
            var p := Permission(freshId, m.code, m.name, Some(m.description));
            && TablesOk(ps + [p], gs)
            && OnlyPlanned(ps0, gs0, ps + [p], gs, roleId, meta)
            && (forall j | 0 <= j < k :: GrantedAs(ps + [p], gs, roleId, meta[j]))
            && (forall j | k < j < |meta| :: Untouched(ps0, gs0, ps + [p], gs, roleId, meta[j]))
            && Find(ps + [p], m.code) == Some(p) && Grant(roleId, freshId) !in gs
  {
    var m := meta[k];
    var p := Permission(freshId, m.code, m.name, Some(m.description));
    assert Untouched(ps0, gs0, ps, gs, roleId, m);
    InsertPermissionOk(ps, gs, p);
    FindAppended(ps, p, m.code);
    forall j | 0 <= j < k
      ensures GrantedAs(ps + [p], gs, roleId, meta[j])
    {
      InsertKeepsGrantedAs(ps, gs, roleId, p, meta[j]);
    }
    forall j | k < j < |meta|
      ensures Untouched(ps0, gs0, ps + [p], gs, roleId, meta[j])
    {
      assert Untouched(ps0, gs0, ps, gs, roleId, meta[j]);
      FindAppended(ps, p, meta[j].code);
    }
    forall i | |gs0| <= i < |gs|
      ensures PlannedGrant(ps + [p], roleId, meta, gs[i])
    {
      InsertKeepsPlanned(ps, roleId, meta, p, gs[i]);
    }
  }

  /** Granting permission `k`, once its row exists, completes its turn. */
  lemma GrantProgress(ps0: seq<Permission>, gs0: seq<Grant>, ps: seq<Permission>, gs: seq<Grant>,
                      roleId: string, meta: seq<Metadata>, k: nat, p: Permission)
    requires k < |meta| && Distinct(meta) && TablesOk(ps, gs) && OnlyPlanned(ps0, gs0, ps, gs, roleId, meta)
    requires forall j | 0 <= j < k :: GrantedAs(ps, gs, roleId, meta[j])
    requires forall j | k < j < |meta| :: Untouched(ps0, gs0, ps, gs, roleId, meta[j])
    requires Find(ps, meta[k].code) == Some(p) && p.name == meta[k].name && p.description == Some(meta[k].description)
    ensures Progress(ps0, gs0, ps, AfterGrant(gs, Grant(roleId, p.id)), roleId, meta, k + 1)
  {
    var g := Grant(roleId, p.id);
    var gs' := AfterGrant(gs, g);
    var found := FindById(ps, p.id);
    assert p in ps && found == Some(p);
    if g !in gs {
      InsertGrantOk(ps, gs, g);
    }
    forall j | 0 <= j < k + 1
      ensures GrantedAs(ps, gs', roleId, meta[j])
    {
      if j < k {
        assert GrantedAs(ps, gs, roleId, meta[j]);
      }
    }
    forall j | k + 1 <= j < |meta|
      ensures Untouched(ps0, gs0, ps, gs', roleId, meta[j])
    {
      assert Untouched(ps0, gs0, ps, gs, roleId, meta[j]);
      var row := Find(ps0, meta[j].code);
      assert row.Some? ==> row.value in ps && row.value.code != p.code && row.value.id != p.id;
    }
    assert HasCode(meta, p.code);
  }

  class ActivationStore {
    var permissions: seq<Permission>
    var grants: seq<Grant>
    const roles: seq<Role>
    const organizations: map<string, string>

    ghost predicate Valid()
      reads this
    {
      TablesOk(permissions, grants)
    }

    constructor (permissions: seq<Permission>, grants: seq<Grant>, roles: seq<Role>, organizations: map<string, string>)
      requires TablesOk(permissions, grants)
      ensures Valid() && this.permissions == permissions && this.grants == grants
      ensures this.roles == roles && this.organizations == organizations
    {
      this.permissions := permissions;
      this.grants := grants;
      this.roles := roles;
      this.organizations := organizations;
    }

    /**
     * The serializable transaction: re-derive the plan, compare it with the reviewed text, apply,
     * re-derive. It goes ahead exactly on the reviewed plan; then it adds exactly the planned rows
     * and nothing else; otherwise it leaves the tables as they were, and the four guards after the
     * comparison are never the reason.
     */
    method Apply(t: Target, meta: seq<Metadata>, expected: string, freshIds: seq<string>)
      returns (r: Result<(nat, Plan), Stop>)
      requires Valid() && Distinct(meta) && |freshIds| == |meta|
      requires forall i | 0 <= i < |freshIds| :: FindById(permissions, freshIds[i]).None?
      requires forall i, j | 0 <= i < j < |freshIds| :: freshIds[i] != freshIds[j]
      modifies this`permissions, this`grants
      ensures Valid()
      ensures var plan := ComputePlan(old(permissions), old(grants), roles, organizations, t, meta);
              r.Ok? <==> plan.Ok? && PlanText(plan.value) == expected
      ensures r.Err? ==>
                && permissions == old(permissions) && grants == old(grants)
                && r.error !in {PermissionIdUnresolved, ExpectedChangesMismatch, TargetGrantsMissing, NonTargetGrantDrift}
      ensures r.Ok? ==>
                var plan := ComputePlan(old(permissions), old(grants), roles, organizations, t, meta).value;
                && OnlyPlanned(old(permissions), old(grants), permissions, grants, t.roleId, meta)
                && (forall j | 0 <= j < |meta| :: GrantedAs(permissions, grants, t.roleId, meta[j]))
                && r.value.0 == ExpectedChanges(plan.entries)
                && r.value.0 == |permissions| - |old(permissions)| + |grants| - |old(grants)|
                && ExpectedChanges(r.value.1.entries) == 0 && r.value.1.others == plan.others
    {
      var before := ComputePlan(permissions, grants, roles, organizations, t, meta);
      if before.Err? {
        return Err(before.error);
      }
      if PlanText(before.value) != expected {
        return Err(PlanDrift);
      }
      ghost var savedPermissions, savedGrants := permissions, grants;
      var changesApplied, unresolved := ApplyLoop(t.roleId, meta, before.value.entries, freshIds);
      AfterPlan(savedPermissions, savedGrants, permissions, grants, roles, organizations, t, meta);
      var after := ComputePlan(permissions, grants, roles, organizations, t, meta);
      var stop := if unresolved then Some(PermissionIdUnresolved)
                  else if changesApplied != ExpectedChanges(before.value.entries) then Some(ExpectedChangesMismatch)
                  else if ExpectedChanges(after.value.entries) != 0 then Some(TargetGrantsMissing)
                  else if after.value.others != before.value.others then Some(NonTargetGrantDrift)
                  else None;
      // The roll back behind the guards is never reached.
      if stop.Some? {
        assert false;
      }
      return Ok((changesApplied, after.value));
    }

    /** The loop over the list: insert what is missing, grant what is not granted, count the rows. */
    method ApplyLoop(roleId: string, meta: seq<Metadata>, entries: seq<Entry>, freshIds: seq<string>)
      returns (changesApplied: nat, unresolved: bool)
      requires Valid() && Distinct(meta) && |freshIds| == |meta|
      requires entries == EntriesOf(permissions, grants, roleId, meta)
      requires forall i | 0 <= i < |meta| :: !Conflicts(permissions, meta[i])
      requires forall i | 0 <= i < |freshIds| :: FindById(permissions, freshIds[i]).None?
      requires forall i, j | 0 <= i < j < |freshIds| :: freshIds[i] != freshIds[j]
      modifies this`permissions, this`grants
      ensures Progress(old(permissions), old(grants), permissions, grants, roleId, meta, |meta|)
      ensures !unresolved && changesApplied == ExpectedChanges(entries)
      ensures changesApplied == |permissions| - |old(permissions)| + |grants| - |old(grants)|
    {
      hide GrantedAs;
      changesApplied, unresolved := 0, false;
      ghost var ps0, gs0 := permissions, grants;
      for k := 0 to |meta|
        invariant Progress(ps0, gs0, permissions, grants, roleId, meta, k)
        invariant forall i | k <= i < |freshIds| :: FindById(permissions, freshIds[i]).None?
        invariant !unresolved && changesApplied == ExpectedChanges(entries[..k])
        invariant changesApplied == |permissions| - |ps0| + |grants| - |gs0|
      {
        var m := meta[k];
        var added;
        added := Turn(ps0, gs0, roleId, meta, k, entries[k], freshIds[k]);
        changesApplied := changesApplied + added;
        assert entries[..k + 1][..k] == entries[..k];
      }
      assert entries[..|meta|] == entries;
    }

    /** One turn: the two guarded inserts for permission `k`. */
    method Turn(ghost ps0: seq<Permission>, ghost gs0: seq<Grant>, roleId: string, meta: seq<Metadata>, k: nat,
                entry: Entry, freshId: string)
      returns (added: nat)
      requires k < |meta| && Distinct(meta) && Progress(ps0, gs0, permissions, grants, roleId, meta, k)
      requires entry == EntryOf(ps0, gs0, roleId, meta[k]) && !Conflicts(ps0, meta[k])
      requires FindById(permissions, freshId).None?
      modifies this`permissions, this`grants
      ensures Progress(ps0, gs0, permissions, grants, roleId, meta, k + 1)
      ensures added == ChangesOf(entry)
      ensures added == |permissions| - |old(permissions)| + |grants| - |old(grants)|
      ensures forall id | FindById(old(permissions), id).None? && id != freshId :: FindById(permissions, id).None?
    {
      var m := meta[k];
      added := 0;
      assert Untouched(ps0, gs0, permissions, grants, roleId, m);
      var permissionId := entry.permissionId;
      if permissionId.None? {
        InsertProgress(ps0, gs0, permissions, grants, roleId, meta, k, freshId);
        permissionId := Some(freshId);
        var p := Permission(freshId, m.code, m.name, Some(m.description));
        FindsOnlyFresh(permissions, p);
        if Find(permissions, m.code).None? {
          permissions := permissions + [p];
          added := added + 1;
        }
      }
      ghost var p := Find(permissions, m.code).value;
      GrantProgress(ps0, gs0, permissions, grants, roleId, meta, k, p);
      if !entry.granted {
        var g := Grant(roleId, permissionId.value);
        if g !in grants {
          grants := grants + [g];
          added := added + 1;
        }
      }
    }
  }

  // ---------------------------------------------------------------- the re-derived plan

  lemma {:induction false} PrefixFinds(ps0: seq<Permission>, ps: seq<Permission>, id: string)
    requires ps0 <= ps && FindById(ps0, id).Some?
    ensures FindById(ps, id) == FindById(ps0, id)
  {
    if ps0[0].id != id {
      PrefixFinds(ps0[1..], ps[1..], id);
    }
  }

  lemma {:induction false} OthersKept(ps0: seq<Permission>, ps: seq<Permission>, gs: seq<Grant>, roleId: string,
                                      meta: seq<Metadata>)
    requires ps0 <= ps && forall g | g in gs :: FindById(ps0, g.permissionId).Some?
    ensures OthersOf(ps, gs, roleId, meta) == OthersOf(ps0, gs, roleId, meta)
  {
    if |gs| > 0 {
      OthersKept(ps0, ps, gs[..|gs| - 1], roleId, meta);
      PrefixFinds(ps0, ps, gs[|gs| - 1].permissionId);
    }
  }

  /** What was inserted is invisible among the role's other grants. */
  lemma {:induction false} OthersUnmoved(ps0: seq<Permission>, gs0: seq<Grant>, ps: seq<Permission>, gs: seq<Grant>,
                                         roleId: string, meta: seq<Metadata>)
    requires TablesOk(ps0, gs0) && OnlyPlanned(ps0, gs0, ps, gs, roleId, meta)
    ensures OthersOf(ps, gs, roleId, meta) == OthersOf(ps0, gs0, roleId, meta)
    decreases |gs|
  {
    if |gs| == |gs0| {
      assert gs == gs0;
      OthersKept(ps0, ps, gs, roleId, meta);
    } else {
      assert PlannedGrant(ps, roleId, meta, gs[|gs| - 1]);
      OthersUnmoved(ps0, gs0, ps, gs[..|gs| - 1], roleId, meta);
    }
  }

  lemma {:induction false} NothingLeft(ps: seq<Permission>, gs: seq<Grant>, roleId: string, meta: seq<Metadata>, k: nat)
    requires k <= |meta| && forall j | 0 <= j < |meta| :: GrantedAs(ps, gs, roleId, meta[j])
    ensures ExpectedChanges(EntriesOf(ps, gs, roleId, meta)[..k]) == 0
  {
    if k > 0 {
      NothingLeft(ps, gs, roleId, meta, k - 1);
      var es := EntriesOf(ps, gs, roleId, meta);
      assert es[..k][..k - 1] == es[..k - 1];
      assert GrantedAs(ps, gs, roleId, meta[k - 1]);
    }
  }

  /** After the loop the plan re-derives with no change left and the other grants as they were. */
  lemma AfterPlan(ps0: seq<Permission>, gs0: seq<Grant>, ps: seq<Permission>, gs: seq<Grant>, roles: seq<Role>,
                  organizations: map<string, string>, t: Target, meta: seq<Metadata>)
    requires TablesOk(ps0, gs0) && Progress(ps0, gs0, ps, gs, t.roleId, meta, |meta|)
    requires ComputePlan(ps0, gs0, roles, organizations, t, meta).Ok?
    ensures var before := ComputePlan(ps0, gs0, roles, organizations, t, meta).value;
            var after := ComputePlan(ps, gs, roles, organizations, t, meta);
            after.Ok? && ExpectedChanges(after.value.entries) == 0 && after.value.others == before.others
  {
    forall i | 0 <= i < |meta|
      ensures !Conflicts(ps, meta[i])
    {
      assert GrantedAs(ps, gs, t.roleId, meta[i]);
    }
    var es := EntriesOf(ps, gs, t.roleId, meta);
    NothingLeft(ps, gs, t.roleId, meta, |meta|);
    assert es[..|meta|] == es;
    OthersUnmoved(ps0, gs0, ps, gs, t.roleId, meta);
  }

  lemma FindsOnlyFresh(ps: seq<Permission>, p: Permission)
    ensures forall id | FindById(ps, id).None? && id != p.id :: FindById(ps + [p], id).None?
  {
    forall id | FindById(ps, id).None? && id != p.id
      ensures FindById(ps + [p], id).None?
    {
      FindByIdAppended(ps, p, id);
    }
  }
}

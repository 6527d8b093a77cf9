/** Permissions, roles and grants as rows, with the lookups the activation scripts share. */
module AccessTables {
  import opened Outcomes

  datatype Permission = Permission(id: string, code: string, name: string, description: Option<string>)

  datatype Role = Role(id: string, workspaceId: string, code: string)

  /** A `role_permissions` row, without its own id. */
  datatype Grant = Grant(roleId: string, permissionId: string)

  /** What a script wants a permission to be called. */
  datatype Metadata = Metadata(code: string, name: string, description: string)

  function Find(ps: seq<Permission>, code: string): (p: Option<Permission>)
    ensures p.Some? ==> p.value in ps && p.value.code == code
    ensures p.None? ==> forall q | q in ps :: q.code != code
  {
    if |ps| == 0 then None
    else if ps[0].code == code then Some(ps[0])
    else
      assert ps == [ps[0]] + ps[1..];
      Find(ps[1..], code)
  }

  function FindById(ps: seq<Permission>, id: string): (p: Option<Permission>)
    ensures p.Some? ==> p.value in ps && p.value.id == id
    ensures p.None? ==> forall q | q in ps :: q.id != id
  {
    if |ps| == 0 then None
    else if ps[0].id == id then Some(ps[0])
    else
      assert ps == [ps[0]] + ps[1..];
      FindById(ps[1..], id)
  }

  /** Unique codes, unique ids, no grant twice, and every grant of a known permission. */
  ghost predicate TablesOk(ps: seq<Permission>, gs: seq<Grant>) {
    && (forall p, q | p in ps && q in ps && (p.code == q.code || p.id == q.id) :: p == q)
    && (forall i, j | 0 <= i < j < |gs| :: gs[i] != gs[j])
    && (forall g | g in gs :: FindById(ps, g.permissionId).Some?)
  }

  predicate Distinct(meta: seq<Metadata>) {
    forall i, j | 0 <= i < j < |meta| :: meta[i].code != meta[j].code
  }

  predicate HasCode(meta: seq<Metadata>, code: string) {
    exists i | 0 <= i < |meta| :: meta[i].code == code
  }

  lemma {:induction false} FindAppended(ps: seq<Permission>, p: Permission, code: string)
    ensures Find(ps + [p], code) ==
            if Find(ps, code).Some? then Find(ps, code) else if p.code == code then Some(p) else None
  {
    if |ps| > 0 && ps[0].code != code {
      assert (ps + [p])[1..] == ps[1..] + [p];
      FindAppended(ps[1..], p, code);
    }
  }

  lemma {:induction false} FindByIdAppended(ps: seq<Permission>, p: Permission, id: string)
    ensures FindById(ps + [p], id) ==
            if FindById(ps, id).Some? then FindById(ps, id) else if p.id == id then Some(p) else None
  {
    if |ps| > 0 && ps[0].id != id {
      assert (ps + [p])[1..] == ps[1..] + [p];
      FindByIdAppended(ps[1..], p, id);
    }
  }

  /** Inserting a permission of a new code and a new id keeps the tables' constraints. */
  lemma InsertPermissionOk(ps: seq<Permission>, gs: seq<Grant>, p: Permission)
    requires TablesOk(ps, gs) && Find(ps, p.code).None? && FindById(ps, p.id).None?
    ensures TablesOk(ps + [p], gs)
  {
    forall g | g in gs
      ensures FindById(ps + [p], g.permissionId).Some?
    {
      FindByIdAppended(ps, p, g.permissionId);
    }
  }

  lemma InsertGrantOk(ps: seq<Permission>, gs: seq<Grant>, g: Grant)
    requires TablesOk(ps, gs) && g !in gs && FindById(ps, g.permissionId).Some?
    ensures TablesOk(ps, gs + [g])
  {
  }
}

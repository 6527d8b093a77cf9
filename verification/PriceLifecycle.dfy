/** The writers of price rows as atomic steps, what every run of them keeps, and what each step changes. */
module PriceLifecycle {
  import opened Outcomes
  import opened PriceCurrentness

  // ---------------------------------------------------------------- states

  /** Unique indexes, foreign keys and CHECK constraints of the price table. */
  ghost predicate TableOk(b: Book) {
    && (forall s, s', x :: Replaces(b, s, x) && Replaces(b, s', x) ==> s == s')
    && (forall c, c', x :: Copies(b, c, x) && Copies(b, c', x) ==> c == c')
    && (forall s, x :: Replaces(b, s, x) ==> x in b.rows && s != x)
    && (forall c, x :: Copies(b, c, x) ==> x in b.rows && c != x)
    && (forall x | x in b.rows :: RowOk(b.rows[x]))
  }

  predicate Copies(b: Book, c: Id, x: Id) {
    c in b.rows && b.rows[c].promotedFrom == Some(x)
  }

  predicate IsPublished(p: Price) {
    p.published && p.verification.PublishedTruth?
  }

  predicate RowOk(p: Price) {
    && (p.scope.Private? ==> p.workspaceId.Some? && !p.published && (p.verification.Unverified? || p.verification.Rejected?))
    && (p.supersedes.Some? ==>
          p.promotedFrom.None?
          && (IsPublished(p) || (p.scope.Private? && !p.published && p.verification.Unverified?)))
    && (p.promotedFrom.Some? ==>
          p.workspaceId.None? && p.organizationId.None? && p.scope.Catalog? && IsPublished(p))
  }

  /** What the writers keep beyond the constraints. */
  ghost predicate LineageOk(b: Book) {
    && (forall s, x :: Replaces(b, s, x) ==> SuccessorOk(b, s, x))
    && (forall c, x :: Copies(b, c, x) ==> OriginOk(b, x))
    && (forall x :: SupersessionRecorded(b, x) ==> exists s :: Replaces(b, s, x) && b.rows[s].scope.Catalog?)
    && Acyclic(b)
  }

  /** A correction keeps scope, tenant and resource; a catalog one is recorded, a private one comes later. */
  predicate SuccessorOk(b: Book, s: Id, x: Id)
    requires s in b.rows
  {
    && x in b.rows
    && b.rows[s].scope == b.rows[x].scope
    && b.rows[s].workspaceId == b.rows[x].workspaceId
    && b.rows[s].organizationId == b.rows[x].organizationId
    && b.rows[s].resourceId == b.rows[x].resourceId
    && b.rows[s].regionId == b.rows[x].regionId
    && b.rows[x].promotedFrom.None?
    && (b.rows[x].scope.Catalog? ==> IsPublished(b.rows[x]) && SupersessionRecorded(b, x))
    && (b.rows[x].scope.Private? ==>
          b.rows[s].verification.Unverified? && b.rows[x].createdAt <= b.rows[s].createdAt)
  }

  /** Only a workspace's own published catalog row is ever restated. */
  predicate OriginOk(b: Book, x: Id) {
    x in b.rows && b.rows[x].workspaceId.Some? && b.rows[x].scope.Catalog? && IsPublished(b.rows[x])
    && b.rows[x].promotedFrom.None?
  }

  ghost predicate Acyclic(b: Book) {
    exists rank: map<Id, nat> :: Ranks(b, rank)
  }

  ghost predicate Ranks(b: Book, rank: map<Id, nat>) {
    && (forall x | x in b.rows :: x in rank)
    && (forall s, x | Replaces(b, s, x) && x in b.rows :: rank[x] < rank[s])
  }

  ghost predicate ClockOk(b: Book) {
    && (forall x | x in b.rows :: b.rows[x].createdAt <= b.now)
    && (forall a | a in b.audits :: a.createdAt <= b.now && a.priceId in b.rows)
  }

  ghost predicate WellFormed(b: Book) {
    TableOk(b) && LineageOk(b) && ClockOk(b)
  }

  // ---------------------------------------------------------------- steps

  datatype Step =
    | Accept(at: int, newId: Id, price: Price)
    | KeepPrivate(at: int, newId: Id, price: Price)
    | Publish(at: int, id: Id, predecessor: Option<Id>)
    | Withdraw(at: int, id: Id, effectiveAt: int)
    | RemovePrivate(at: int, id: Id)
    | CorrectPrivate(at: int, newId: Id, id: Id, value: int, reportedBy: string)
    | LinkCorrection(at: int, previous: Id, corrected: Id)
    | RestateDate(at: int, id: Id, effectiveDate: int)
    | Promote(at: int, newId: Id, id: Id)

  /** A new catalog draft that a review accepted: verified, never published, no lineage. */
  predicate IsDraft(p: Price) {
    p.scope.Catalog? && !p.published && p.verification.Verified? && p.supersedes.None? && p.promotedFrom.None?
  }

  /** A new private row, imported or observed: an origin of its own. */
  predicate IsPrivateOrigin(p: Price) {
    && p.scope.Private? && p.workspaceId.Some? && !p.published && p.verification.Unverified?
    && p.supersedes.None? && p.promotedFrom.None?
  }

  predicate IsPrivate(b: Book, x: Id) {
    x in b.rows && b.rows[x].scope.Private?
  }

  /** A published catalog row of a workspace, the only kind that may be withdrawn, corrected or promoted. */
  predicate IsCatalogTruth(b: Book, x: Id) {
    x in b.rows && b.rows[x].workspaceId.Some? && b.rows[x].scope.Catalog? && IsPublished(b.rows[x])
  }

  predicate EverWithdrawn(b: Book, x: Id) {
    exists a | a in b.audits :: a.Withdrawn? && a.priceId == x
  }

  predicate HasCopy(b: Book, x: Id) {
    exists c | c in b.rows :: Copies(b, c, x)
  }

  /** The predecessor a publication names must be published, its own, of the same context, not yet replaced. */
  predicate MayReplace(b: Book, id: Id, x: Id)
    requires id in b.rows
  {
    && x != id && IsCatalogTruth(b, x) && b.rows[x].promotedFrom.None?
    && b.rows[x].workspaceId == b.rows[id].workspaceId
    && b.rows[x].organizationId == b.rows[id].organizationId
    && b.rows[x].resourceId == b.rows[id].resourceId && b.rows[x].regionId == b.rows[id].regionId
    && !HasSuccessor(b, x)
  }

  /** Two imported private rows of one context, neither linked to anything yet, the corrected one later. */
  predicate MayLink(b: Book, previous: Id, corrected: Id) {
    && IsPrivate(b, previous) && IsPrivate(b, corrected)
    && var p, c := b.rows[previous], b.rows[corrected];
    && p.workspaceId == c.workspaceId && p.organizationId == c.organizationId
    && p.resourceId == c.resourceId && p.regionId == c.regionId
    && p.effectiveDate == c.effectiveDate && p.validUntil == c.validUntil
    && p.verification.Unverified? && c.verification.Unverified?
    && p.importRow && c.importRow && p.value != c.value
    && p.supersedes.None? && c.supersedes.None? && p.createdAt < c.createdAt
    && !HasSuccessor(b, previous) && !HasSuccessor(b, corrected)
  }

  predicate Enabled(b: Book, s: Step) {
    && b.now <= s.at
    && match s
       case Accept(at, n, p) => n !in b.rows && IsDraft(p) && p.createdAt == at
       case KeepPrivate(at, n, p) => n !in b.rows && IsPrivateOrigin(p) && p.createdAt == at
       case Publish(_, id, pred) =>
         id in b.rows && IsDraft(b.rows[id]) && b.rows[id].workspaceId.Some?
         && (pred.Some? ==> MayReplace(b, id, pred.value))
       case Withdraw(_, id, _) => IsCatalogTruth(b, id) && !EverWithdrawn(b, id)
       case RemovePrivate(_, id) =>
         IsPrivate(b, id) && !EverWithdrawn(b, id) && !HasCopy(b, id) && !HasSuccessor(b, id)
       case CorrectPrivate(_, n, id, v, _) =>
         n !in b.rows && IsPrivate(b, id) && b.rows[id].value != v && !HasSuccessor(b, id)
       case LinkCorrection(_, p, c) => MayLink(b, p, c)
       case RestateDate(_, id, _) => IsPrivate(b, id)
       case Promote(_, n, id) =>
         n !in b.rows && IsCatalogTruth(b, id) && !HasCopy(b, id) && !HasSuccessor(b, id)
  }

  /** The successor a private correction writes: every fact of the predecessor but the money. */
  function CorrectionOf(p: Price, id: Id, at: int, value: int, reportedBy: string): Price {
    p.(value := value, createdAt := at, reportedBy := reportedBy, importRow := false,
       published := false, verification := Unverified, supersedes := Some(id), promotedFrom := None)
  }

  /** The shared copy: every source fact of the origin, no owner, and the lineage. */
  function SharedCopyOf(p: Price, id: Id, at: int): Price {
    p.(workspaceId := None, organizationId := None, scope := Catalog, published := true,
       verification := PublishedTruth, createdAt := at, importRow := false,
       supersedes := None, promotedFrom := Some(id))
  }

  /** The pointer and both audits, written together. */
  function Publication(b: Book, at: int, id: Id, pred: Option<Id>): Book
    requires id in b.rows
  {
    b.(now := at,
       rows := b.rows[id := b.rows[id].(published := true, verification := PublishedTruth, supersedes := pred)],
       audits := b.audits + [Published(id, at)] + (if pred.Some? then [Superseded(pred.value, at)] else []))
  }

  function Apply(b: Book, s: Step): Book
    requires Enabled(b, s)
  {
    var b' := b.(now := s.at);
    match s
    case Accept(_, n, p) => b'.(rows := b.rows[n := p])
    case KeepPrivate(_, n, p) => b'.(rows := b.rows[n := p])
    case Publish(at, id, pred) => Publication(b, at, id, pred)
    case Withdraw(at, id, eff) => b'.(audits := b.audits + [Withdrawn(id, at, eff)])
    case RemovePrivate(at, id) => b'.(audits := b.audits + [Withdrawn(id, at, at)])
    case CorrectPrivate(at, n, id, v, who) => b'.(rows := b.rows[n := CorrectionOf(b.rows[id], id, at, v, who)])
    case LinkCorrection(_, p, c) => b'.(rows := b.rows[c := b.rows[c].(supersedes := Some(p))])
    case RestateDate(_, id, d) => b'.(rows := b.rows[id := b.rows[id].(effectiveDate := d)])
    case Promote(at, n, id) =>
      b'.(rows := b.rows[n := SharedCopyOf(b.rows[id], id, at)], audits := b.audits + [PromoteShared(n, at)])
  }

  // ---------------------------------------------------------------- every step keeps the state well formed

  lemma StepKeepsTable(b: Book, s: Step)
    requires WellFormed(b) && Enabled(b, s)
    ensures TableOk(Apply(b, s)) && ClockOk(Apply(b, s))
  {
    hide Apply, LineageOk, ClockOk, RowOk;
    LinksAfter(b, s);
    RowsOnlyAdded(b, s);
    TargetIsFree(b, s);
    hide Enabled;
    StepKeepsRows(b, s);
    StepKeepsClock(b, s);
  }

  /** What a step points at exists and nothing points at it yet. */
  lemma TargetIsFree(b: Book, s: Step)
    requires Enabled(b, s)
    ensures forall r, x | NewLink(s, r, x) :: x in b.rows && r != x && forall q :: !Replaces(b, q, x)
    ensures s.Promote? ==> s.id in b.rows && s.id != s.newId && forall c :: !Copies(b, c, s.id)
  {
    assert forall q, x :: Replaces(b, q, x) ==> HasSuccessor(b, x);
    assert forall c, x :: Copies(b, c, x) ==> HasCopy(b, x);
  }

  lemma StepKeepsRows(b: Book, s: Step)
    requires WellFormed(b) && Enabled(b, s)
    ensures forall x | x in Apply(b, s).rows :: RowOk(Apply(b, s).rows[x])
  {
    hide LineageOk, ClockOk;
  }

  lemma StepKeepsClock(b: Book, s: Step)
    requires WellFormed(b) && Enabled(b, s)
    ensures ClockOk(Apply(b, s))
  {
    hide LineageOk, TableOk;
  }

  /** The one correction pointer a step may write. */
  predicate NewLink(s: Step, r: Id, x: Id) {
    match s
    case Publish(_, id, pred) => r == id && pred == Some(x)
    case CorrectPrivate(_, n, id, _, _) => r == n && x == id
    case LinkCorrection(_, p, c) => r == c && x == p
    case _ => false
  }

  /** Every audit a step appends. */
  function NewAudits(s: Step): seq<Audit> {
    match s
    case Publish(at, id, pred) => [Published(id, at)] + (if pred.Some? then [Superseded(pred.value, at)] else [])
    case Withdraw(at, id, eff) => [Withdrawn(id, at, eff)]
    case RemovePrivate(at, id) => [Withdrawn(id, at, at)]
    case Promote(at, n, _) => [PromoteShared(n, at)]
    case _ => []
  }

  /** A withdrawal this step records against `x`, in force at `asOf`. */
  predicate Withdraws(s: Step, x: Id, asOf: int) {
    (s.Withdraw? && s.id == x && s.effectiveAt <= asOf) || (s.RemovePrivate? && s.id == x && s.at <= asOf)
  }

  predicate Supersedes(s: Step, x: Id) {
    s.Publish? && s.predecessor == Some(x)
  }

  /** The book as if only these audits had been written. */
  function WithAudits(b: Book, audits: seq<Audit>): Book {
    b.(audits := audits)
  }

  lemma AuditsAppended(b: Book, s: Step)
    requires Enabled(b, s)
    ensures Apply(b, s).audits == b.audits + NewAudits(s)
  {
    hide MayReplace, MayLink;
  }

  lemma AuditsJoined(b: Book, b': Book, more: seq<Audit>, x: Id, asOf: int)
    requires b'.audits == b.audits + more
    ensures WithdrawnBy(b', x, asOf) <==> WithdrawnBy(b, x, asOf) || WithdrawnBy(WithAudits(b, more), x, asOf)
    ensures SupersededBy(b', x, asOf) <==> SupersededBy(b, x, asOf) || SupersededBy(WithAudits(b, more), x, asOf)
    ensures SupersessionRecorded(b', x) <==> SupersessionRecorded(b, x) || SupersessionRecorded(WithAudits(b, more), x)
  {
    assert forall a :: a in b'.audits <==> a in b.audits || a in more;
  }

  lemma NewAuditsSay(b: Book, s: Step, x: Id, asOf: int)
    ensures WithdrawnBy(WithAudits(b, NewAudits(s)), x, asOf) <==> Withdraws(s, x, asOf)
    ensures SupersededBy(WithAudits(b, NewAudits(s)), x, asOf) <==> Supersedes(s, x) && s.at <= asOf
    ensures SupersessionRecorded(WithAudits(b, NewAudits(s)), x) <==> Supersedes(s, x)
  {
    var more := NewAudits(s);
    assert |more| > 0 ==> more[0] in more;
    assert |more| > 1 ==> more[1] in more;
  }

  lemma AuditsAfter(b: Book, s: Step, x: Id, asOf: int)
    requires Enabled(b, s)
    ensures var b' := Apply(b, s);
            && (WithdrawnBy(b', x, asOf) <==> WithdrawnBy(b, x, asOf) || Withdraws(s, x, asOf))
            && (SupersededBy(b', x, asOf) <==> SupersededBy(b, x, asOf) || (Supersedes(s, x) && s.at <= asOf))
            && (SupersessionRecorded(b', x) <==> SupersessionRecorded(b, x) || Supersedes(s, x))
  {
    hide Apply, Enabled, NewAudits, WithdrawnBy, SupersededBy, SupersessionRecorded;
    AuditsAppended(b, s);
    AuditsJoined(b, Apply(b, s), NewAudits(s), x, asOf);
    NewAuditsSay(b, s, x, asOf);
  }

  /** What no step changes about a row that exists. */
  lemma FactsKept(b: Book, s: Step, x: Id)
    requires Enabled(b, s) && x in b.rows
    ensures var b' := Apply(b, s);
            && x in b'.rows
            && var p, q := b.rows[x], b'.rows[x];
            && q.scope == p.scope && q.workspaceId == p.workspaceId && q.organizationId == p.organizationId
            && q.resourceId == p.resourceId && q.regionId == p.regionId
            && q.createdAt == p.createdAt && q.promotedFrom == p.promotedFrom
            && (IsPublished(p) ==> IsPublished(q))
            && (q.verification == p.verification || (s.Publish? && s.id == x && IsDraft(p)))
  {
    hide MayReplace, MayLink;
  }

  lemma LinksAfter(b: Book, s: Step)
    requires Enabled(b, s)
    ensures var b' := Apply(b, s);
            && (forall r, x :: Replaces(b', r, x) <==> Replaces(b, r, x) || NewLink(s, r, x))
            && (forall c, x :: Copies(b', c, x) <==> Copies(b, c, x) || (s.Promote? && c == s.newId && x == s.id))
  {
  }

  lemma SuccessorStays(b: Book, s: Step, r: Id, x: Id)
    requires WellFormed(b) && Enabled(b, s) && Replaces(b, r, x)
    ensures r in Apply(b, s).rows && SuccessorOk(Apply(b, s), r, x)
  {
    hide Apply, Enabled, TableOk, ClockOk, Acyclic, OriginOk, SupersessionRecorded;
    assert SuccessorOk(b, r, x);
    FactsKept(b, s, r);
    FactsKept(b, s, x);
    AuditsAfter(b, s, x, 0);
  }

  lemma NewSuccessorIsLawful(b: Book, s: Step, r: Id, x: Id)
    requires WellFormed(b) && Enabled(b, s) && NewLink(s, r, x)
    ensures r in Apply(b, s).rows && SuccessorOk(Apply(b, s), r, x)
  {
    hide LineageOk, SupersessionRecorded;
    AuditsAfter(b, s, x, 0);
  }

  lemma StepKeepsSuccessors(b: Book, s: Step, r: Id, x: Id)
    requires WellFormed(b) && Enabled(b, s) && Replaces(Apply(b, s), r, x)
    ensures SuccessorOk(Apply(b, s), r, x)
  {
    hide Apply, Enabled, WellFormed, SuccessorOk;
    LinksAfter(b, s);
    if Replaces(b, r, x) {
      SuccessorStays(b, s, r, x);
    } else {
      NewSuccessorIsLawful(b, s, r, x);
    }
  }

  lemma StepKeepsOrigins(b: Book, s: Step, c: Id, x: Id)
    requires WellFormed(b) && Enabled(b, s) && Copies(Apply(b, s), c, x)
    ensures OriginOk(Apply(b, s), x)
  {
    LinksAfter(b, s);
    if Copies(b, c, x) {
      assert OriginOk(b, x);
    }
  }

  lemma StepKeepsRecords(b: Book, s: Step, x: Id)
    requires WellFormed(b) && Enabled(b, s) && SupersessionRecorded(Apply(b, s), x)
    ensures exists r :: Replaces(Apply(b, s), r, x) && Apply(b, s).rows[r].scope.Catalog?
  {
    var b' := Apply(b, s);
    LinksAfter(b, s);
    AuditsAfter(b, s, x, 0);
    if SupersessionRecorded(b, x) {
      RecordStays(b, s, x);
    } else {
      hide WellFormed, SupersessionRecorded, MayReplace;
      assert Replaces(b', s.id, x) && b'.rows[s.id].scope.Catalog?;
    }
  }

  lemma RecordStays(b: Book, s: Step, x: Id)
    requires WellFormed(b) && Enabled(b, s) && SupersessionRecorded(b, x)
    ensures exists r :: Replaces(Apply(b, s), r, x) && Apply(b, s).rows[r].scope.Catalog?
  {
    hide Apply, Enabled, TableOk, ClockOk, Acyclic, SupersessionRecorded, SuccessorOk, OriginOk;
    LinksAfter(b, s);
    var r :| Replaces(b, r, x) && b.rows[r].scope.Catalog?;
    FactsKept(b, s, r);
    assert Replaces(Apply(b, s), r, x);
  }

  /** A new pointer from a row that points nowhere and that nothing points at. */
  lemma RankOfNewTop(b: Book, b': Book, rank: map<Id, nat>, r: Id, x: Id)
    requires Ranks(b, rank) && x in b.rows && x != r && (r in b.rows ==> b.rows[r].supersedes.None?)
    requires b'.rows.Keys == b.rows.Keys + {r}
    requires forall q :: !Replaces(b, q, r)
    requires forall q, y :: Replaces(b', q, y) ==> Replaces(b, q, y) || (q == r && y == x)
    ensures Acyclic(b')
  {
    var rank': map<Id, nat> := rank[r := rank[x] + 1];
    forall q, y | Replaces(b', q, y) && y in b'.rows
      ensures rank'[y] < rank'[q]
    {
      if Replaces(b, q, y) {
        assert y != r && q != r;
      }
    }
    assert Ranks(b', rank');
  }

  /** No new pointer, and no new row anything points at. */
  lemma RankOfOldLinks(b: Book, b': Book, rank: map<Id, nat>)
    requires Ranks(b, rank) && forall q, y :: Replaces(b, q, y) ==> y in b.rows
    requires b.rows.Keys <= b'.rows.Keys
    requires forall q, y :: Replaces(b', q, y) ==> Replaces(b, q, y)
    ensures Acyclic(b')
  {
    var rank': map<Id, nat> := map y | y in b'.rows :: if y in rank then rank[y] else 0;
    assert Ranks(b', rank');
  }

  lemma SuccessorIsLawful(b: Book, r: Id, x: Id)
    requires WellFormed(b) && Replaces(b, r, x)
    ensures x in b.rows && SuccessorOk(b, r, x) && HasSuccessor(b, x)
  {
  }

  /** A step that writes a pointer writes it from a row without any to a row already there. */
  lemma NewLinkStartsFresh(b: Book, s: Step, r: Id, x: Id)
    requires WellFormed(b) && Enabled(b, s) && NewLink(s, r, x)
    ensures x in b.rows && x != r && (r in b.rows ==> b.rows[r].supersedes.None?)
    ensures Apply(b, s).rows.Keys == b.rows.Keys + {r}
    ensures forall q :: !Replaces(b, q, r)
    ensures forall q, y | NewLink(s, q, y) :: q == r && y == x
  {
    hide TableOk, LineageOk, HasSuccessor;
    forall q
      ensures !Replaces(b, q, r)
    {
      if Replaces(b, q, r) {
        SuccessorIsLawful(b, q, r);
        assert false;
      }
    }
  }

  lemma RowsOnlyAdded(b: Book, s: Step)
    requires Enabled(b, s)
    ensures b.rows.Keys <= Apply(b, s).rows.Keys && b.audits <= Apply(b, s).audits && b.now <= Apply(b, s).now
  {
    hide MayReplace, MayLink;
  }

  /** A new pointer always starts at a row nothing points at, so the lineage stays a forest of chains. */
  lemma StepKeepsAcyclic(b: Book, s: Step)
    requires WellFormed(b) && Enabled(b, s)
    ensures Acyclic(Apply(b, s))
  {
    hide Apply, Enabled, ClockOk, RowOk, OriginOk, SuccessorOk, Ranks;
    var b' := Apply(b, s);
    LinksAfter(b, s);
    var rank: map<Id, nat> :| Ranks(b, rank);
    if r, x :| NewLink(s, r, x) {
      NewLinkStartsFresh(b, s, r, x);
      RankOfNewTop(b, b', rank, r, x);
    } else {
      RowsOnlyAdded(b, s);
      RankOfOldLinks(b, b', rank);
    }
  }

  /** Every writer keeps the constraints and the lineage. */
  lemma StepKeepsWellFormed(b: Book, s: Step)
    requires WellFormed(b) && Enabled(b, s)
    ensures WellFormed(Apply(b, s))
  {
    var b' := Apply(b, s);
    StepKeepsTable(b, s);
    forall r, x | Replaces(b', r, x)
      ensures SuccessorOk(b', r, x)
    {
      StepKeepsSuccessors(b, s, r, x);
    }
    forall c, x | Copies(b', c, x)
      ensures OriginOk(b', x)
    {
      StepKeepsOrigins(b, s, c, x);
    }
    forall x | SupersessionRecorded(b', x)
      ensures exists r :: Replaces(b', r, x) && b'.rows[r].scope.Catalog?
    {
      StepKeepsRecords(b, s, x);
    }
    StepKeepsAcyclic(b, s);
  }

  /** The checks on a named predecessor are exactly what keeps the state well formed: a refused one would break it. */
  lemma PredecessorChecksAreExact(b: Book, at: int, id: Id, x: Id)
    requires WellFormed(b) && Enabled(b, Publish(at, id, None))
    ensures WellFormed(Publication(b, at, id, Some(x))) <==> MayReplace(b, id, x)
  {
    var b' := Publication(b, at, id, Some(x));
    if MayReplace(b, id, x) {
      StepKeepsWellFormed(b, Publish(at, id, Some(x)));
    }
    if WellFormed(b') {
      WellFormedAllowsPredecessor(b, at, id, x);
    }
  }

  lemma WellFormedAllowsPredecessor(b: Book, at: int, id: Id, x: Id)
    requires id in b.rows && IsDraft(b.rows[id]) && b.rows[id].workspaceId.Some?
    requires WellFormed(Publication(b, at, id, Some(x)))
    ensures MayReplace(b, id, x)
  {
    hide ClockOk, Acyclic, RowOk;
    var b' := Publication(b, at, id, Some(x));
    assert Replaces(b', id, x) && SuccessorOk(b', id, x);
    assert forall r :: Replaces(b, r, x) ==> Replaces(b', r, x);
  }

  // ---------------------------------------------------------------- what a step changes, at every instant

  /** What a step leaves of the currency of an existing row `x` at `asOf`. */
  predicate Spared(b: Book, s: Step, x: Id, asOf: int)
    requires x in b.rows
  {
    match s
    case Publish(at, _, pred) => pred.Some? && IsOrRestates(b, x, pred.value) ==> asOf < at
    case Withdraw(_, id, eff) => IsOrRestates(b, x, id) ==> asOf < eff
    case RemovePrivate(at, id) => x == id ==> asOf < at
    case CorrectPrivate(at, _, id, _, _) => x == id ==> asOf < at
    case LinkCorrection(_, p, c) =>
      c in b.rows && (x == p ==> asOf < b.rows[c].createdAt) && (x == c ==> b.rows[c].createdAt <= asOf)
    case _ => true
  }

  predicate IsOrRestates(b: Book, x: Id, o: Id)
    requires x in b.rows
  {
    x == o || b.rows[x].promotedFrom == Some(o)
  }

  /**
   * The exact effect of every writer on every row and every instant: nothing gains currency, and a
   * row loses it only from the instant the step names, shared copies together with their origin.
   */
  lemma StepEffect(b: Book, s: Step, x: Id, asOf: int)
    requires WellFormed(b) && Enabled(b, s) && x in b.rows
    ensures x in Apply(b, s).rows
    ensures Current(Apply(b, s), x, asOf) <==> Current(b, x, asOf) && Spared(b, s, x, asOf)
  {
    hide TableOk, ClockOk, Acyclic, RestatesEnded, ReplacedBySuccessor;
    LinksAfter(b, s);
    AuditsAfter(b, s, x, asOf);
    ReplacedAfter(b, s, x, asOf);
    RestatedAfter(b, s, x, asOf);
  }

  /** How a step moves the origin clause of a shared copy. */
  lemma RestatedAfter(b: Book, s: Step, x: Id, asOf: int)
    requires WellFormed(b) && Enabled(b, s) && x in b.rows
    ensures x in Apply(b, s).rows && Apply(b, s).rows[x].promotedFrom == b.rows[x].promotedFrom
    ensures RestatesEnded(Apply(b, s), x, asOf) <==>
            RestatesEnded(b, x, asOf)
            || exists o | o in b.rows && b.rows[x].promotedFrom == Some(o) ::
                 Withdraws(s, o, asOf) || (Supersedes(s, o) && s.at <= asOf)
  {
    FactsKept(b, s, x);
    hide Apply, Enabled, TableOk, ClockOk, Acyclic, SupersededAsOf, SupersededBy, WithdrawnBy, SuccessorOk;
    if b.rows[x].promotedFrom.Some? {
      var o := b.rows[x].promotedFrom.value;
      assert Copies(b, x, o) && OriginOk(b, o);
      AuditsAfter(b, s, o, asOf);
      OriginEndsAfter(b, s, o, asOf);
    }
  }

  /** `r` is what puts `x` out of currency through the successor clause. */
  predicate ReplacedThrough(b: Book, r: Id, x: Id, asOf: int) {
    Replaces(b, r, x)
    && if b.rows[r].verification.Unverified? then b.rows[r].createdAt <= asOf else !SupersessionRecorded(b, x)
  }

  lemma ReplacedMeansThrough(b: Book, x: Id, asOf: int)
    ensures ReplacedBySuccessor(b, x, asOf) <==> exists r :: ReplacedThrough(b, r, x, asOf)
  {
    hide SupersessionRecorded;
    if r :| ReplacedThrough(b, r, x, asOf) {
      assert Replaces(b, r, x);
    }
    if ReplacedBySuccessor(b, x, asOf) {
      var r :| r in b.rows && Replaces(b, r, x)
               && if b.rows[r].verification.Unverified? then b.rows[r].createdAt <= asOf else !SupersessionRecorded(b, x);
      assert ReplacedThrough(b, r, x, asOf);
    }
  }

  lemma OldLinkAfter(b: Book, s: Step, r: Id, x: Id, asOf: int)
    requires WellFormed(b) && Enabled(b, s) && Replaces(b, r, x)
    ensures ReplacedThrough(Apply(b, s), r, x, asOf) <==> ReplacedThrough(b, r, x, asOf)
  {
    hide Apply, Enabled, Acyclic, ClockOk, SupersessionRecorded, OriginOk;
    LinksAfter(b, s);
    assert SuccessorOk(b, r, x) && RowOk(b.rows[r]);
    FactsKept(b, s, r);
    AuditsAfter(b, s, x, asOf);
  }

  /** The successor a step writes is in force at `asOf` already. */
  predicate LinkInForce(b: Book, s: Step, asOf: int) {
    (s.CorrectPrivate? && s.at <= asOf)
    || (s.LinkCorrection? && s.corrected in b.rows && b.rows[s.corrected].createdAt <= asOf)
  }

  lemma NewLinkAfter(b: Book, s: Step, r: Id, x: Id, asOf: int)
    requires Enabled(b, s) && NewLink(s, r, x)
    ensures ReplacedThrough(Apply(b, s), r, x, asOf) <==> LinkInForce(b, s, asOf)
  {
    hide SupersessionRecorded;
    AuditsAfter(b, s, x, asOf);
  }

  /** How a step moves the successor clause. */
  lemma ReplacedAfter(b: Book, s: Step, x: Id, asOf: int)
    requires WellFormed(b) && Enabled(b, s) && x in b.rows
    ensures ReplacedBySuccessor(Apply(b, s), x, asOf) <==>
            ReplacedBySuccessor(b, x, asOf)
            || (s.CorrectPrivate? && s.id == x && s.at <= asOf)
            || (s.LinkCorrection? && s.previous == x && b.rows[s.corrected].createdAt <= asOf)
  {
    assert s.LinkCorrection? ==> s.corrected in b.rows;
    hide Apply, Enabled, WellFormed, SupersessionRecorded;
    var b' := Apply(b, s);
    LinksAfter(b, s);
    forall r | Replaces(b, r, x)
      ensures ReplacedThrough(b', r, x, asOf) <==> ReplacedThrough(b, r, x, asOf)
    {
      OldLinkAfter(b, s, r, x, asOf);
    }
    forall r | NewLink(s, r, x)
      ensures ReplacedThrough(b', r, x, asOf) <==> LinkInForce(b, s, asOf)
    {
      NewLinkAfter(b, s, r, x, asOf);
    }
    ReplacedMeansThrough(b, x, asOf);
    ReplacedMeansThrough(b', x, asOf);
    assert s.CorrectPrivate? && s.id == x ==> NewLink(s, s.newId, x);
    assert s.LinkCorrection? && s.previous == x ==> NewLink(s, s.corrected, x);
  }

  /** A catalog origin ends exactly when its recorded supersession does. */
  lemma OriginEndsAfter(b: Book, s: Step, o: Id, asOf: int)
    requires WellFormed(b) && Enabled(b, s) && OriginOk(b, o)
    ensures SupersededAsOf(b, o, asOf) <==> SupersededBy(b, o, asOf)
    ensures SupersededAsOf(Apply(b, s), o, asOf) <==> SupersededBy(Apply(b, s), o, asOf)
  {
    StepKeepsWellFormed(b, s);
    CatalogIsTimed(b, o);
    CatalogIsTimed(Apply(b, s), o);
  }

  lemma CatalogIsTimed(b: Book, o: Id)
    requires WellFormed(b) && o in b.rows && b.rows[o].scope.Catalog?
    ensures HasSuccessor(b, o) ==> SupersessionRecorded(b, o)
  {
    if HasSuccessor(b, o) {
      var r :| r in b.rows && Replaces(b, r, o);
      assert SuccessorOk(b, r, o);
    }
  }

  /** The rows a step adds: a private correction is current from its own instant on, a copy follows its origin. */
  lemma NewRowEffect(b: Book, s: Step, asOf: int)
    requires WellFormed(b) && Enabled(b, s)
    requires s.Accept? || s.KeepPrivate? || s.CorrectPrivate? || s.Promote?
    ensures s.newId in Apply(b, s).rows
    ensures Current(Apply(b, s), s.newId, asOf) <==>
            match s
            case CorrectPrivate(at, _, _, _, _) => at <= asOf
            case Promote(_, _, id) => !SupersededBy(b, id, asOf) && !WithdrawnBy(b, id, asOf)
            case _ => true
  {
    hide TableOk;
    var b', n := Apply(b, s), s.newId;
    LinksAfter(b, s);
    AuditsAfter(b, s, n, asOf);
    assert forall a | a in b.audits :: a.priceId != n;
    assert forall r :: !Replaces(b', r, n);
    if s.Promote? {
      AuditsAfter(b, s, s.id, asOf);
      StepKeepsWellFormed(b, s);
      CatalogIsTimed(b', s.id);
    }
  }

  // ---------------------------------------------------------------- the past over whole runs

  ghost predicate Runs(b: Book, steps: seq<Step>, b': Book)
    decreases |steps|
  {
    if |steps| == 0 then b == b'
    else Enabled(b, steps[0]) && Runs(Apply(b, steps[0]), steps[1..], b')
  }

  lemma {:induction false} RunKeepsWellFormed(b: Book, steps: seq<Step>, b': Book)
    requires WellFormed(b) && Runs(b, steps, b')
    ensures WellFormed(b') && b.now <= b'.now && b.audits <= b'.audits && b.rows.Keys <= b'.rows.Keys
    decreases |steps|
  {
    if |steps| > 0 {
      hide WellFormed, Enabled, Apply;
      StepKeepsWellFormed(b, steps[0]);
      RowsOnlyAdded(b, steps[0]);
      RunKeepsWellFormed(Apply(b, steps[0]), steps[1..], b');
    }
  }

  /** A withdrawal dated to or before `asOf`, or a linking of `x` to another existing row. */
  predicate Reaches(s: Step, x: Id, asOf: int) {
    (s.Withdraw? && s.effectiveAt <= asOf) || (s.LinkCorrection? && x in {s.previous, s.corrected})
  }

  /**
   * No run rewrites the past: what was current before the run began stays so at every earlier
   * instant, except where a withdrawal is dated back to it or two existing rows are linked.
   */
  lemma {:induction false} PastIsKept(b: Book, steps: seq<Step>, b': Book, x: Id, asOf: int)
    requires WellFormed(b) && Runs(b, steps, b') && x in b.rows
    requires asOf < b.now
    requires forall s | s in steps :: !Reaches(s, x, asOf)
    ensures x in b'.rows && (Current(b', x, asOf) <==> Current(b, x, asOf))
    decreases |steps|
  {
    if |steps| > 0 {
      var s := steps[0];
      assert s in steps;
      StepEffect(b, s, x, asOf);
      StepKeepsWellFormed(b, s);
      PastIsKept(Apply(b, s), steps[1..], b', x, asOf);
    }
  }

  /** Currency once lost is never regained: later runs only remove. */
  lemma {:induction false} RunsOnlyRemove(b: Book, steps: seq<Step>, b': Book, x: Id, asOf: int)
    requires WellFormed(b) && Runs(b, steps, b') && x in b.rows
    ensures x in b'.rows && (Current(b', x, asOf) ==> Current(b, x, asOf))
    decreases |steps|
  {
    if |steps| > 0 {
      StepEffect(b, steps[0], x, asOf);
      StepKeepsWellFormed(b, steps[0]);
      RunsOnlyRemove(Apply(b, steps[0]), steps[1..], b', x, asOf);
    }
  }

  // ---------------------------------------------------------------- linking rewrites the past

  /** An instant before every recorded withdrawal. */
  function BeforeWithdrawals(audits: seq<Audit>, t: int): (r: int)
    ensures r < t && forall a | a in audits && a.Withdrawn? :: r < a.effectiveAt
  {
    if |audits| == 0 then t - 1
    else
      var last := audits[|audits| - 1];
      assert audits == audits[..|audits| - 1] + [last];
      BeforeWithdrawals(audits[..|audits| - 1], if last.Withdrawn? && last.effectiveAt < t then last.effectiveAt else t)
  }

  /** A private row that nothing replaces and that replaces nothing is current until it is withdrawn. */
  lemma IsolatedPrivateIsCurrent(b: Book, x: Id, t: int)
    requires WellFormed(b) && IsPrivate(b, x) && b.rows[x].supersedes.None? && !HasSuccessor(b, x)
    ensures Current(b, x, t) <==> !WithdrawnBy(b, x, t)
  {
    assert SupersededBy(b, x, t) ==> SupersessionRecorded(b, x);
  }

  /**
   * Linking two existing rows leaves every earlier answer about `x` alone exactly when `x` is
   * neither of them, or is the previous one and had been withdrawn by the time the corrected one
   * was recorded (or that is this very instant). For the corrected row it never does.
   */
  lemma LinkRewritesThePast(b: Book, s: Step, x: Id)
    requires WellFormed(b) && s.LinkCorrection? && Enabled(b, s) && x in b.rows
    ensures (forall t | t < s.at :: Current(Apply(b, s), x, t) <==> Current(b, x, t)) <==>
            x != s.corrected
            && (x == s.previous ==>
                  s.at <= b.rows[s.corrected].createdAt || WithdrawnBy(b, x, b.rows[s.corrected].createdAt))
  {
    forall t
      ensures Current(Apply(b, s), x, t) <==> Current(b, x, t) && Spared(b, s, x, t)
    {
      StepEffect(b, s, x, t);
    }
    var from := b.rows[s.corrected].createdAt;
    if x == s.corrected {
      var t := BeforeWithdrawals(b.audits, from);
      IsolatedPrivateIsCurrent(b, x, t);
      assert Current(b, x, t) && !Current(Apply(b, s), x, t) && t < s.at;
    } else if x == s.previous {
      forall t
        ensures Current(b, x, t) <==> !WithdrawnBy(b, x, t)
        ensures from <= t && WithdrawnBy(b, x, from) ==> WithdrawnBy(b, x, t)
      {
        IsolatedPrivateIsCurrent(b, x, t);
        if from <= t {
          AuditsAccumulate(b, x, from, t);
        }
      }
      assert from < s.at && !WithdrawnBy(b, x, from) ==>
          Current(b, x, from) && !Current(Apply(b, s), x, from);
    }
  }

  function ExampleBook(): Book {
    var p := Price("r", None, Some("w"), Some("o"), Private, false, Unverified, 7, 0, None, 10, true, "a", None, None);
    Book(map["old" := p, "new" := p.(value := 8, createdAt := 20)], [], 20)
  }

  const EXAMPLE_LINK: Step := LinkCorrection(30, "old", "new")

  lemma ExampleTableOk()
    ensures TableOk(ExampleBook()) && ClockOk(ExampleBook())
    ensures forall r, x :: !Replaces(ExampleBook(), r, x) && !Copies(ExampleBook(), r, x)
  {
  }

  lemma ExampleIsLawful()
    ensures WellFormed(ExampleBook()) && Enabled(ExampleBook(), EXAMPLE_LINK)
    ensures !HasSuccessor(ExampleBook(), "old") && !HasSuccessor(ExampleBook(), "new")
  {
    hide TableOk, ClockOk;
    ExampleTableOk();
    hide Replaces, Copies;
    assert Ranks(ExampleBook(), map["old" := 0, "new" := 0]);
  }

  /** Two imports at 10 and 20, linked at 30: the answer at 25 and the answer at 5 both change. */
  lemma LinkExample()
    ensures var b, s := ExampleBook(), EXAMPLE_LINK;
            && WellFormed(b) && Enabled(b, s) && 25 < s.at
            && Current(b, "old", 25) && !Current(Apply(b, s), "old", 25)
            && Current(b, "new", 5) && !Current(Apply(b, s), "new", 5)
  {
    ExampleIsLawful();
    hide WellFormed, Apply, Current, HasSuccessor;
    IsolatedPrivateIsCurrent(ExampleBook(), "old", 25);
    IsolatedPrivateIsCurrent(ExampleBook(), "new", 5);
    StepEffect(ExampleBook(), EXAMPLE_LINK, "old", 25);
    StepEffect(ExampleBook(), EXAMPLE_LINK, "new", 5);
  }
}

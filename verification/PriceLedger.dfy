/** The transactions that write prices, check by check, each proved to be one lifecycle step or none. */
module PriceLedger {
  import opened Outcomes
  import opened PriceCurrentness
  import opened PriceLifecycle
  import Text

  datatype Refusal =
    | ActorRequired | ActorNotLive | ReasonRequired | ContextRequired | SelfReference | NotFound
    | ConcurrentlyCompleted | AlreadySettled | InconsistentState
    | VerifierEvidenceMissing | VerifierCannotPublish
    | PredecessorNotFound | PredecessorNotPublished | PredecessorNotCatalog | PredecessorIsShared
    | ResourceMismatch | RegionMismatch | AlreadySuperseded
    | NotPublished | NotWithdrawable | NotPromotable | OriginSuperseded
    | PriceUnchanged | StaleFact | ContextMismatch | NotImported | PublisherUnproved | LineageNotSafe | AlreadyLinked
    | LinkAuditMissing
    | ProposalProtected | ReferencedProtected | PublicProtected

  /** The row a call answers with, and whether the call wrote anything. */
  datatype Receipt = Receipt(id: Id, written: bool)

  /** The caller's server-derived scope. */
  datatype Tenant = Tenant(workspaceId: string, organizationId: string)

  predicate Owned(b: Book, t: Tenant, x: Id) {
    x in b.rows && b.rows[x].workspaceId == Some(t.workspaceId) && b.rows[x].organizationId == Some(t.organizationId)
  }

  /** The first recorded withdrawal of a row. */
  function FirstWithdrawal(audits: seq<Audit>, x: Id): (a: Option<Audit>)
    ensures a.Some? ==> a.value in audits && a.value.Withdrawn? && a.value.priceId == x
    ensures a.None? ==> forall w | w in audits && w.Withdrawn? :: w.priceId != x
  {
    if |audits| == 0 then None
    else if audits[0].Withdrawn? && audits[0].priceId == x then Some(audits[0])
    else
      assert audits == [audits[0]] + audits[1..];
      FirstWithdrawal(audits[1..], x)
  }

  // ---------------------------------------------------------------- links and their journal

  /** Every imported private row that corrects another was linked to it on record. */
  ghost predicate LinksKept(b: Book, links: set<(Id, Id)>) {
    forall c, p | Replaces(b, c, p) && IsPrivate(b, c) && b.rows[c].importRow :: (c, p) in links
  }

  /** Only linking makes an imported private row a correction. */
  lemma StepKeepsLinks(b: Book, s: Step, links: set<(Id, Id)>)
    requires Enabled(b, s) && LinksKept(b, links)
    ensures LinksKept(Apply(b, s), if s.LinkCorrection? then links + {(s.corrected, s.previous)} else links)
  {
    LinksAfter(b, s);
  }

  lemma LinkIsOnRecord(b: Book, links: set<(Id, Id)>, c: Id, p: Id)
    requires LinksKept(b, links) && Replaces(b, c, p) && IsPrivate(b, c) && b.rows[c].importRow
    ensures (c, p) in links
  {
  }

  /** Two imported private rows of the caller's workspace and of one context, the expected values, the corrected one later. */
  predicate Linkable(b: Book, t: Tenant, previous: Id, corrected: Id, expectedPrevious: int, expectedCorrected: int) {
    && previous != corrected && expectedPrevious != expectedCorrected
    && IsPrivate(b, previous) && IsPrivate(b, corrected)
    && var p, c := b.rows[previous], b.rows[corrected];
    && p.workspaceId == Some(t.workspaceId) && c.workspaceId == Some(t.workspaceId)
    && p.organizationId == c.organizationId && p.resourceId == c.resourceId && p.regionId == c.regionId
    && p.effectiveDate == c.effectiveDate && p.validUntil == c.validUntil
    && p.verification.Unverified? && c.verification.Unverified? && p.importRow && c.importRow
    && p.value == expectedPrevious && c.value == expectedCorrected
    && p.supersedes.None? && !HasSuccessor(b, corrected) && p.createdAt < c.createdAt
  }

  lemma RowIsOk(b: Book, x: Id)
    requires WellFormed(b) && x in b.rows
    ensures RowOk(b.rows[x])
  {
  }

  class Ledger {
    var rows: map<Id, Price>
    var audits: seq<Audit>
    var now: int
    var links: set<(Id, Id)>

    function Contents(): Book
      reads this
    {
      Book(rows, audits, now)
    }

    ghost predicate Valid()
      reads this
    {
      WellFormed(Contents()) && LinksKept(Contents(), links)
    }

    constructor (now: int)
      ensures Valid() && Contents() == Book(map[], [], now)
    {
      rows := map[];
      audits := [];
      this.now := now;
      links := {};
      assert Ranks(Book(map[], [], now), map[]);
    }

    method FindSuccessor(x: Id) returns (s: Option<Id>)
      ensures s.Some? ==> Replaces(Contents(), s.value, x)
      ensures s.None? <==> !HasSuccessor(Contents(), x)
    {
      if r :| r in rows && rows[r].supersedes == Some(x) {
        assert Replaces(Contents(), r, x);
        return Some(r);
      }
      return None;
    }

    method FindCopy(x: Id) returns (c: Option<Id>)
      ensures c.Some? ==> Copies(Contents(), c.value, x)
      ensures c.None? <==> !HasCopy(Contents(), x)
    {
      if r :| r in rows && rows[r].promotedFrom == Some(x) {
        assert Copies(Contents(), r, x);
        return Some(r);
      }
      return None;
    }

    /** Why a named predecessor may not be replaced by `id`, in the order the transaction asks. */
    method CheckPredecessor(t: Tenant, id: Id, x: Id) returns (refusal: Option<Refusal>)
      requires Valid() && Owned(Contents(), t, id) && x != id
      ensures refusal.None? <==> MayReplace(Contents(), id, x)
      ensures refusal == Some(PredecessorNotFound) <==> !Owned(Contents(), t, x)
      ensures refusal == Some(AlreadySuperseded) ==> HasSuccessor(Contents(), x)
    {
      if x !in rows || rows[x].workspaceId != Some(t.workspaceId) || rows[x].organizationId != Some(t.organizationId) {
        return Some(PredecessorNotFound);
      }
      var p := rows[x];
      if !p.published || !p.verification.PublishedTruth? {
        return Some(PredecessorNotPublished);
      }
      if !p.scope.Catalog? {
        return Some(PredecessorNotCatalog);
      }
      if p.promotedFrom.Some? {
        return Some(PredecessorIsShared);
      }
      if p.resourceId != rows[id].resourceId {
        return Some(ResourceMismatch);
      }
      if p.regionId != rows[id].regionId {
        return Some(RegionMismatch);
      }
      var successor := FindSuccessor(x);
      return if successor.Some? then Some(AlreadySuperseded) else None;
    }

    /**
     * Publication, with the optional correction pointer. `live` says whether the publisher has a
     * live account, membership and profile in the workspace; `seenPublished` is what was read before
     * the lock; `verifier` is the account traced from the one ACCEPT decision, if it could be.
     * Something is written exactly when the publication is lawful and its verifier is someone else.
     */
    method Publish(t: Tenant, id: Id, publisher: string, live: bool, verifier: Option<string>,
                   predecessor: Option<Id>, seenPublished: bool, at: int)
      returns (r: Result<Receipt, Refusal>)
      requires Valid() && now <= at
      modifies this`rows, this`audits, this`now
      ensures Valid()
      ensures r == Ok(Receipt(id, true)) <==>
              publisher != "" && live && old(Owned(Contents(), t, id))
              && verifier.Some? && verifier.value != publisher
              && old(Enabled(Contents(), Step.Publish(at, id, predecessor)))
      ensures r == Ok(Receipt(id, true)) ==> Contents() == Apply(old(Contents()), Step.Publish(at, id, predecessor))
      ensures r != Ok(Receipt(id, true)) ==> Contents() == old(Contents())
      ensures r.Ok? && !r.value.written ==>
                r.value.id == id && id in rows && IsPublished(rows[id]) && rows[id].supersedes == predecessor
    {
      hide WellFormed, LinksKept;
      if publisher == "" {
        return Err(ActorRequired);
      }
      if predecessor == Some(id) {
        return Err(SelfReference);
      }
      if !live {
        return Err(ActorNotLive);
      }
      if id !in rows || rows[id].workspaceId != Some(t.workspaceId) || rows[id].organizationId != Some(t.organizationId) {
        return Err(NotFound);
      }
      var price := rows[id];
      RowIsOk(Contents(), id);
      if price.published && price.verification.PublishedTruth? {
        if !seenPublished {
          return Err(ConcurrentlyCompleted);
        }
        return if predecessor != price.supersedes then Err(AlreadySettled) else Ok(Receipt(id, false));
      }
      if price.published || !price.verification.Verified? {
        return Err(InconsistentState);
      }
      if verifier.None? {
        return Err(VerifierEvidenceMissing);
      }
      if verifier.value == publisher {
        return Err(VerifierCannotPublish);
      }
      if predecessor.Some? {
        var refusal := CheckPredecessor(t, id, predecessor.value);
        if refusal.Some? {
          return Err(refusal.value);
        }
      }
      StepKeepsWellFormed(Contents(), Step.Publish(at, id, predecessor));
      StepKeepsLinks(Contents(), Step.Publish(at, id, predecessor), links);
      rows := rows[id := price.(published := true, verification := PublishedTruth, supersedes := predecessor)];
      audits := audits + [Published(id, at)];
      if predecessor.Some? {
        audits := audits + [Superseded(predecessor.value, at)];
      }
      now := at;
      assert Contents().audits == Apply(old(Contents()), Step.Publish(at, id, predecessor)).audits;
      return Ok(Receipt(id, true));
    }

    /** Withdrawal: one audit, no price row touched; a repeat must name the same instant or none. */
    method Withdraw(t: Tenant, id: Id, actor: string, live: bool, reason: string, effectiveAt: Option<int>,
                    decisionInstant: int, at: int)
      returns (r: Result<Receipt, Refusal>)
      requires Valid() && now <= at
      modifies this`audits, this`now
      ensures Valid()
      ensures var eff := if effectiveAt.Some? then effectiveAt.value else decisionInstant;
              && (r == Ok(Receipt(id, true)) <==>
                    actor != "" && Text.Trim(reason) != "" && live && old(Owned(Contents(), t, id))
                    && old(Enabled(Contents(), Step.Withdraw(at, id, eff))))
              && (r == Ok(Receipt(id, true)) ==> Contents() == Apply(old(Contents()), Step.Withdraw(at, id, eff)))
      ensures r != Ok(Receipt(id, true)) ==> Contents() == old(Contents())
      ensures r == Ok(Receipt(id, false)) ==>
                EverWithdrawn(Contents(), id) && (effectiveAt.Some? ==> WithdrawnBy(Contents(), id, effectiveAt.value))
    {
      hide WellFormed, LinksKept;
      if actor == "" {
        return Err(ActorRequired);
      }
      if Text.Trim(reason) == "" {
        return Err(ReasonRequired);
      }
      if !live {
        return Err(ActorNotLive);
      }
      if id !in rows || rows[id].workspaceId != Some(t.workspaceId) || rows[id].organizationId != Some(t.organizationId) {
        return Err(NotFound);
      }
      if !rows[id].published || !rows[id].verification.PublishedTruth? {
        return Err(NotPublished);
      }
      if !rows[id].scope.Catalog? {
        return Err(NotWithdrawable);
      }
      var existing := FirstWithdrawal(audits, id);
      if existing.Some? {
        if effectiveAt.Some? && existing.value.effectiveAt != effectiveAt.value {
          return Err(AlreadySettled);
        }
        return Ok(Receipt(id, false));
      }
      var eff := if effectiveAt.Some? then effectiveAt.value else decisionInstant;
      StepKeepsWellFormed(Contents(), Step.Withdraw(at, id, eff));
      StepKeepsLinks(Contents(), Step.Withdraw(at, id, eff), links);
      audits := audits + [Withdrawn(id, at, eff)];
      now := at;
      return Ok(Receipt(id, true));
    }

    /** Promotion: the copy that exists, or a new one of a published, uncorrected catalog row. */
    method Promote(t: Tenant, id: Id, actor: string, live: bool, newId: Id, at: int) returns (r: Result<Receipt, Refusal>)
      requires Valid() && now <= at && newId !in rows
      modifies this`rows, this`audits, this`now
      ensures Valid()
      ensures r == Ok(Receipt(newId, true)) <==>
              actor != "" && t.workspaceId != "" && live && old(Owned(Contents(), t, id))
              && old(Enabled(Contents(), Step.Promote(at, newId, id)))
      ensures r == Ok(Receipt(newId, true)) ==> Contents() == Apply(old(Contents()), Step.Promote(at, newId, id))
      ensures r != Ok(Receipt(newId, true)) ==> Contents() == old(Contents())
      ensures r.Ok? ==> Copies(Contents(), r.value.id, id) && (r.value.written ==> r.value.id == newId)
      ensures r == Err(OriginSuperseded) ==> HasSuccessor(Contents(), id)
    {
      hide WellFormed, LinksKept;
      if actor == "" {
        return Err(ActorRequired);
      }
      if t.workspaceId == "" {
        return Err(ContextRequired);
      }
      if !live {
        return Err(ActorNotLive);
      }
      if id !in rows || rows[id].workspaceId != Some(t.workspaceId) || rows[id].organizationId != Some(t.organizationId) {
        return Err(NotFound);
      }
      var existing := FindCopy(id);
      if existing.Some? {
        return Ok(Receipt(existing.value, false));
      }
      if !rows[id].scope.Catalog? {
        return Err(NotPromotable);
      }
      if !rows[id].published || !rows[id].verification.PublishedTruth? {
        return Err(NotPublished);
      }
      var successor := FindSuccessor(id);
      if successor.Some? {
        return Err(OriginSuperseded);
      }
      StepKeepsWellFormed(Contents(), Step.Promote(at, newId, id));
      StepKeepsLinks(Contents(), Step.Promote(at, newId, id), links);
      rows := rows[newId := SharedCopyOf(rows[id], id, at)];
      audits := audits + [PromoteShared(newId, at)];
      now := at;
      return Ok(Receipt(newId, true));
    }

    /** Private money correction: a new successor row, or the row that already holds the proposed value. */
    method CorrectPrivate(t: Tenant, id: Id, actor: string, expected: int, proposed: int, newId: Id, at: int)
      returns (r: Result<Receipt, Refusal>)
      requires Valid() && now <= at && newId !in rows
      modifies this`rows, this`now
      ensures Valid()
      ensures r == Ok(Receipt(newId, true)) <==>
              id in old(rows) && old(rows)[id].workspaceId == Some(t.workspaceId) && old(rows)[id].value == expected
              && old(Enabled(Contents(), Step.CorrectPrivate(at, newId, id, proposed, actor)))
      ensures r == Ok(Receipt(newId, true)) ==>
                Contents() == Apply(old(Contents()), Step.CorrectPrivate(at, newId, id, proposed, actor))
      ensures r != Ok(Receipt(newId, true)) ==> Contents() == old(Contents())
      ensures r.Ok? ==> r.value.id in rows && rows[r.value.id].value == proposed
                        && (r.value.id == id || Replaces(Contents(), r.value.id, id))
    {
      hide WellFormed, LinksKept;
      if expected == proposed {
        return Err(PriceUnchanged);
      }
      if id !in rows || rows[id].workspaceId != Some(t.workspaceId) || !rows[id].scope.Private? {
        return Err(NotFound);
      }
      var stored := rows[id].value;
      if stored != expected {
        return if stored == proposed then Ok(Receipt(id, false)) else Err(StaleFact);
      }
      var successor := FindSuccessor(id);
      if successor.Some? {
        return if rows[successor.value].value == proposed then Ok(Receipt(successor.value, false))
               else Err(AlreadySuperseded);
      }
      StepKeepsWellFormed(Contents(), Step.CorrectPrivate(at, newId, id, proposed, actor));
      StepKeepsLinks(Contents(), Step.CorrectPrivate(at, newId, id, proposed, actor), links);
      rows := rows[newId := CorrectionOf(rows[id], id, at, proposed, actor)];
      now := at;
      return Ok(Receipt(newId, true));
    }

    /**
     * Linking two imported rows. `samePublisher` is the outcome of comparing the two documents'
     * normalised publishers, `sameSource` that of the facts of source, period and unit that are
     * stored beside the price, `uploadedBoth` whether the caller uploaded both documents.
     * The pair is linked, or found linked already, exactly when all of it agrees and neither row
     * is tied to a third; a link found already is always on record.
     */
    method LinkCorrection(t: Tenant, previous: Id, corrected: Id, expectedPrevious: int, expectedCorrected: int,
                          reason: string, uploadedBoth: bool, samePublisher: bool, sameSource: bool, at: int)
      returns (r: Result<Receipt, Refusal>)
      requires Valid() && now <= at
      modifies this`rows, this`links, this`now
      ensures Valid()
      ensures r == Ok(Receipt(corrected, true)) <==>
                Text.Trim(reason) != "" && uploadedBoth && samePublisher && sameSource
                && old(Linkable(Contents(), t, previous, corrected, expectedPrevious, expectedCorrected))
                && old(Enabled(Contents(), Step.LinkCorrection(at, previous, corrected)))
      ensures r == Ok(Receipt(corrected, false)) <==>
                Text.Trim(reason) != "" && uploadedBoth && samePublisher && sameSource
                && old(Linkable(Contents(), t, previous, corrected, expectedPrevious, expectedCorrected))
                && old(Replaces(Contents(), corrected, previous))
      ensures r == Ok(Receipt(corrected, true)) ==>
                Contents() == Apply(old(Contents()), Step.LinkCorrection(at, previous, corrected))
      ensures r != Ok(Receipt(corrected, true)) ==> Contents() == old(Contents())
      ensures r.Ok? ==> r.value.id == corrected && (corrected, previous) in links
      ensures links == if r == Ok(Receipt(corrected, true)) then old(links) + {(corrected, previous)} else old(links)
      ensures r.Err? ==> !r.error.LinkAuditMissing?
    {
      hide WellFormed, LinksKept, Publication, CorrectionOf, SharedCopyOf, MayReplace, IsDraft, IsPrivateOrigin;
      if previous == corrected {
        return Err(SelfReference);
      }
      if expectedPrevious == expectedCorrected {
        return Err(PriceUnchanged);
      }
      if Text.Trim(reason) == "" {
        return Err(ReasonRequired);
      }
      if previous !in rows || corrected !in rows
         || !rows[previous].scope.Private? || !rows[corrected].scope.Private?
         || rows[previous].workspaceId != Some(t.workspaceId) || rows[corrected].workspaceId != Some(t.workspaceId) {
        return Err(NotFound);
      }
      var p, c := rows[previous], rows[corrected];
      RowIsOk(Contents(), previous);
      RowIsOk(Contents(), corrected);
      if p.organizationId != c.organizationId || p.resourceId != c.resourceId || p.regionId != c.regionId
         || p.effectiveDate != c.effectiveDate || p.validUntil != c.validUntil
         || p.published || c.published || !p.verification.Unverified? || !c.verification.Unverified? || !sameSource {
        return Err(ContextMismatch);
      }
      if !p.importRow || !c.importRow {
        return Err(NotImported);
      }
      if !uploadedBoth {
        return Err(NotFound);
      }
      if !samePublisher {
        return Err(PublisherUnproved);
      }
      if p.value != expectedPrevious || c.value != expectedCorrected {
        return Err(StaleFact);
      }
      var beyond := FindSuccessor(corrected);
      if p.supersedes.Some? || beyond.Some? || c.createdAt <= p.createdAt {
        return Err(LineageNotSafe);
      }
      if c.supersedes == Some(previous) {
        LinkIsOnRecord(Contents(), links, corrected, previous);
        if (corrected, previous) !in links {
          return Err(LinkAuditMissing);
        }
        return Ok(Receipt(corrected, false));
      }
      var successor := FindSuccessor(previous);
      if successor.Some? {
        return Err(LineageNotSafe);
      }
      if c.supersedes.Some? {
        return Err(AlreadyLinked);
      }
      StepKeepsWellFormed(Contents(), Step.LinkCorrection(at, previous, corrected));
      StepKeepsLinks(Contents(), Step.LinkCorrection(at, previous, corrected), links);
      rows := rows[corrected := c.(supersedes := Some(previous))];
      links := links + {(corrected, previous)};
      now := at;
      return Ok(Receipt(corrected, true));
    }

    /**
     * Removal of one's own private price from active use. `proposed` says whether it ever entered
     * review, `referenced` whether a project or a later observation refers to it.
     */
    method RemovePrivate(t: Tenant, account: string, id: Id, proposed: bool, referenced: bool, at: int)
      returns (r: Result<Receipt, Refusal>)
      requires Valid() && now <= at
      modifies this`audits, this`now
      ensures Valid()
      ensures r == Ok(Receipt(id, true)) <==>
              id in old(rows) && old(rows)[id].workspaceId == Some(t.workspaceId) && old(rows)[id].reportedBy == account
              && !proposed && !referenced && old(Enabled(Contents(), Step.RemovePrivate(at, id)))
      ensures r == Ok(Receipt(id, true)) ==> Contents() == Apply(old(Contents()), Step.RemovePrivate(at, id))
      ensures r != Ok(Receipt(id, true)) ==> Contents() == old(Contents())
      ensures r.Ok? ==> EverWithdrawn(Contents(), id)
    {
      hide WellFormed, LinksKept;
      if id !in rows || rows[id].workspaceId != Some(t.workspaceId) || rows[id].reportedBy != account
         || !rows[id].scope.Private? {
        return Err(NotFound);
      }
      RowIsOk(Contents(), id);
      if rows[id].published || rows[id].verification.PublishedTruth? {
        return Err(PublicProtected);
      }
      var existing := FirstWithdrawal(audits, id);
      if existing.Some? {
        return Ok(Receipt(id, false));
      }
      if proposed {
        return Err(ProposalProtected);
      }
      var copy := FindCopy(id);
      var successor := FindSuccessor(id);
      if referenced || copy.Some? || successor.Some? {
        return Err(ReferencedProtected);
      }
      StepKeepsWellFormed(Contents(), Step.RemovePrivate(at, id));
      StepKeepsLinks(Contents(), Step.RemovePrivate(at, id), links);
      audits := audits + [Withdrawn(id, at, at)];
      now := at;
      assert audits[|audits| - 1] in audits;
      return Ok(Receipt(id, true));
    }
  }
}

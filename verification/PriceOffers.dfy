/** Which prices a workspace is offered: eligibility, lineage precedence, currentness and applicability composed. */
module PriceOffers {
  import opened Outcomes
  import opened PriceCurrentness
  import opened PriceLifecycle

  // ---------------------------------------------------------------- the four questions

  /** May this workspace lawfully use the row: a published row of its own or of nobody, or its own private row. */
  predicate Usable(b: Book, ws: string, x: Id)
    requires x in b.rows
  {
    var p := b.rows[x];
    || (IsPublished(p) && (p.workspaceId == Some(ws) || p.workspaceId == None))
    || (p.scope.Private? && p.workspaceId == Some(ws) && !p.verification.Rejected?)
  }

  /** A copy of a row the workspace itself owns. */
  predicate CopyOfOwn(b: Book, ws: string, x: Id)
    requires x in b.rows
  {
    var o := b.rows[x].promotedFrom;
    o.Some? && o.value in b.rows && b.rows[o.value].workspaceId == Some(ws)
  }

  predicate Started(b: Book, x: Id, asOf: int)
    requires x in b.rows
  {
    b.rows[x].effectiveDate <= asOf
  }

  predicate NotEnded(b: Book, x: Id, asOf: int)
    requires x in b.rows
  {
    b.rows[x].validUntil.None? || asOf <= b.rows[x].validUntil.value
  }

  predicate Offered(b: Book, ws: string, x: Id, asOf: int)
    requires x in b.rows
  {
    && Usable(b, ws, x)
    && !CopyOfOwn(b, ws, x)
    && Current(b, x, asOf)
    && Started(b, x, asOf) && NotEnded(b, x, asOf)
  }

  // ---------------------------------------------------------------- what is offered in every reachable state

  /** Reached by any run from any well-formed book. */
  ghost predicate Reachable(b: Book) {
    exists b0, steps :: WellFormed(b0) && Runs(b0, steps, b)
  }

  lemma ReachableIsWellFormed(b: Book)
    requires Reachable(b)
    ensures WellFormed(b)
  {
    var b0, steps :| WellFormed(b0) && Runs(b0, steps, b);
    RunKeepsWellFormed(b0, steps, b);
  }

  /** No workspace is offered an origin and its shared copy, not even at two different instants. */
  lemma NeverOriginAndCopy(b: Book, ws: string, o: Id, c: Id, t: int, u: int)
    requires Reachable(b) && o in b.rows && Copies(b, c, o)
    ensures !(Offered(b, ws, o, t) && Offered(b, ws, c, u))
  {
    ReachableIsWellFormed(b);
    assert OriginOk(b, o);
  }

  /**
   * A shared copy is offered only while its origin stands, however late the promotion was, and to
   * every workspace but the origin's, subject to the copy's own dates and own withdrawal.
   */
  lemma CopyFollowsOrigin(b: Book, ws: string, o: Id, c: Id, asOf: int)
    requires Reachable(b) && Copies(b, c, o)
    ensures o in b.rows
    ensures Offered(b, ws, c, asOf) <==>
            && b.rows[o].workspaceId != Some(ws)
            && !SupersededBy(b, o, asOf) && !WithdrawnBy(b, o, asOf)
            && !WithdrawnBy(b, c, asOf)
            && Started(b, c, asOf) && NotEnded(b, c, asOf)
    ensures forall d :: Copies(b, d, o) ==> d == c
  {
    ReachableIsWellFormed(b);
    assert OriginOk(b, o);
    CatalogIsTimed(b, o);
    assert SupersededBy(b, c, asOf) ==> SupersessionRecorded(b, c);
    assert forall s :: !Replaces(b, s, c);
  }

  /** What a workspace is offered is lawful for it: its own row, or one that belongs to no workspace. */
  lemma OffersAreOwnOrShared(b: Book, ws: string, x: Id, asOf: int)
    requires Reachable(b) && x in b.rows && Offered(b, ws, x, asOf)
    ensures b.rows[x].workspaceId == Some(ws) || (b.rows[x].workspaceId == None && IsPublished(b.rows[x]))
    ensures b.rows[x].promotedFrom.Some? ==>
              var o := b.rows[x].promotedFrom.value;
              o in b.rows && b.rows[o].workspaceId.Some? && b.rows[o].workspaceId != Some(ws)
  {
    ReachableIsWellFormed(b);
    if b.rows[x].promotedFrom.Some? {
      assert Copies(b, x, b.rows[x].promotedFrom.value);
    }
  }

  // ---------------------------------------------------------------- the query that asks them

  type Condition = (Book, Id) -> bool

  /** A where-object: under each key the conditions that key states, all of which must hold. */
  type Where = map<string, seq<Condition>>

  predicate Matches(w: Where, b: Book, x: Id) {
    forall k | k in w :: HoldsAll(w[k], b, x)
  }

  predicate HoldsAll(cs: seq<Condition>, b: Book, x: Id) {
    forall i | 0 <= i < |cs| :: cs[i](b, x)
  }

  function UsableWhere(ws: string): Where {
    map["OR" := [(b: Book, x: Id) => x in b.rows && Usable(b, ws, x)]]
  }

  function PrecedenceWhere(ws: string): Where {
    map["NOT" := [(b: Book, x: Id) => x in b.rows && !CopyOfOwn(b, ws, x)]]
  }

  function CurrentnessWhere(asOf: int): Where {
    map["supersededBy" := [(b: Book, x: Id) => x in b.rows && !ReplacedBySuccessor(b, x, asOf)],
        "AND" := [(b: Book, x: Id) => x in b.rows && RecordedBy(b, x, asOf)],
        "publicationAudits" := [(b: Book, x: Id) => x in b.rows && !EndedByAudit(b, x, asOf)],
        "promotedFrom" := [(b: Book, x: Id) => x in b.rows && !RestatesEnded(b, x, asOf)]]
  }

  function ApplicabilityAnd(asOf: int): seq<Condition> {
    [(b: Book, x: Id) => x in b.rows && Started(b, x, asOf), (b: Book, x: Id) => x in b.rows && NotEnded(b, x, asOf)]
  }

  /** Keeps the fragment's own AND conditions and adds the caller's. */
  function MergeAnd(w: Where, extra: seq<Condition>): Where {
    w["AND" := (if "AND" in w then w["AND"] else []) + extra]
  }

  /** The object spread the list query builds; a later key replaces an earlier one. */
  function OfferWhere(ws: string, asOf: int): Where {
    UsableWhere(ws) + PrecedenceWhere(ws) + MergeAnd(CurrentnessWhere(asOf), ApplicabilityAnd(asOf))
  }

  /** The same query with AND assigned after the spread instead of merged. */
  function AssignedWhere(ws: string, asOf: int): Where {
    (UsableWhere(ws) + PrecedenceWhere(ws) + CurrentnessWhere(asOf))["AND" := ApplicabilityAnd(asOf)]
  }

  /** Spreading fragments that share no key asks both questions. */
  lemma SpreadOfDisjoint(v: Where, w: Where, b: Book, x: Id)
    requires v.Keys !! w.Keys
    ensures Matches(v + w, b, x) <==> Matches(v, b, x) && Matches(w, b, x)
  {
    if Matches(v + w, b, x) {
      forall k | k in v
        ensures HoldsAll(v[k], b, x)
      {
        assert k in v + w && (v + w)[k] == v[k];
      }
      forall k | k in w
        ensures HoldsAll(w[k], b, x)
      {
        assert k in v + w && (v + w)[k] == w[k];
      }
    }
  }

  /** Merging asks the fragment's questions and the extra ones, whatever the fragment holds under AND. */
  lemma MergeAsksBoth(w: Where, extra: seq<Condition>, b: Book, x: Id)
    ensures Matches(MergeAnd(w, extra), b, x) <==> Matches(w, b, x) && HoldsAll(extra, b, x)
  {
    var m := MergeAnd(w, extra);
    var own := if "AND" in w then w["AND"] else [];
    assert HoldsAll(own + extra, b, x) <==> HoldsAll(own, b, x) && HoldsAll(extra, b, x) by {
      if HoldsAll(own + extra, b, x) {
        assert forall i | 0 <= i < |own| :: own[i] == (own + extra)[i];
        assert forall i | 0 <= i < |extra| :: extra[i] == (own + extra)[|own| + i];
      }
    }
    if Matches(m, b, x) {
      assert "AND" in m && HoldsAll(m["AND"], b, x);
      forall k | k in w
        ensures HoldsAll(w[k], b, x)
      {
        assert k in m;
      }
    }
  }

  lemma CurrentnessWhereMeans(b: Book, x: Id, asOf: int)
    requires x in b.rows
    ensures Matches(CurrentnessWhere(asOf), b, x) <==> Current(b, x, asOf)
  {
    var w := CurrentnessWhere(asOf);
    if Matches(w, b, x) {
      assert "supersededBy" in w && w["supersededBy"][0](b, x);
      assert "AND" in w && w["AND"][0](b, x);
      assert "publicationAudits" in w && w["publicationAudits"][0](b, x);
      assert "promotedFrom" in w && w["promotedFrom"][0](b, x);
    }
  }

  /** The list query, built by spreading and merging, offers exactly the rows that pass all four questions. */
  lemma OfferWhereMeans(b: Book, ws: string, x: Id, asOf: int)
    requires x in b.rows
    ensures Matches(OfferWhere(ws, asOf), b, x) <==> Offered(b, ws, x, asOf)
  {
    var u, p, c := UsableWhere(ws), PrecedenceWhere(ws), MergeAnd(CurrentnessWhere(asOf), ApplicabilityAnd(asOf));
    SpreadOfDisjoint(u, p, b, x);
    SpreadOfDisjoint(u + p, c, b, x);
    MergeAsksBoth(CurrentnessWhere(asOf), ApplicabilityAnd(asOf), b, x);
    CurrentnessWhereMeans(b, x, asOf);
    assert Matches(u, b, x) <==> u["OR"][0](b, x);
    assert Matches(p, b, x) <==> p["NOT"][0](b, x);
    var a := ApplicabilityAnd(asOf);
    assert HoldsAll(a, b, x) <==> a[0](b, x) && a[1](b, x);
  }

  /** Assigning AND instead would offer, beyond the lawful rows, exactly the successors not yet recorded. */
  lemma AssignedWhereLeaks(b: Book, ws: string, x: Id, asOf: int)
    requires x in b.rows
    ensures Matches(OfferWhere(ws, asOf), b, x) ==> Matches(AssignedWhere(ws, asOf), b, x)
    ensures Matches(AssignedWhere(ws, asOf), b, x) && !Matches(OfferWhere(ws, asOf), b, x) <==>
            && Usable(b, ws, x) && !CopyOfOwn(b, ws, x)
            && !ReplacedBySuccessor(b, x, asOf) && !EndedByAudit(b, x, asOf) && !RestatesEnded(b, x, asOf)
            && Started(b, x, asOf) && NotEnded(b, x, asOf)
            && b.rows[x].supersedes.Some? && b.rows[x].verification.Unverified? && asOf < b.rows[x].createdAt
  {
    hide OfferWhere, ReplacedBySuccessor, Replaces, Usable, SupersessionRecorded, IsPublished, SupersededAsOf, Started,
         HasSuccessor, RestatesEnded, NotEnded, CopyOfOwn;
    OfferWhereMeans(b, ws, x, asOf);
    var w := AssignedWhere(ws, asOf);
    assert w.Keys == {"OR", "NOT", "supersededBy", "AND", "publicationAudits", "promotedFrom"};
    assert Matches(w, b, x) <==>
        w["OR"][0](b, x) && w["NOT"][0](b, x) && w["supersededBy"][0](b, x) && w["AND"][0](b, x) && w["AND"][1](b, x)
        && w["publicationAudits"][0](b, x) && w["promotedFrom"][0](b, x) by {
      if Matches(w, b, x) {
        assert forall k | k in w.Keys :: HoldsAll(w[k], b, x);
      }
    }
  }
}

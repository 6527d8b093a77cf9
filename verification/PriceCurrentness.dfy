/**
 * Price rows, their publication audits, and which rows are current at an instant.
 *
 * The database is a map from row id to row and an append-only list of audits. Every where-fragment
 * of the original is a predicate on that state.
 */
module PriceCurrentness {
  import opened Outcomes

  type Id = string

  datatype Scope = Catalog | Private

  datatype Verification = Unverified | Verified | PublishedTruth | Rejected

  datatype Price = Price(
    resourceId: string,
    regionId: Option<string>,
    workspaceId: Option<string>,
    organizationId: Option<string>,
    scope: Scope,
    published: bool,
    verification: Verification,
    value: int,
    effectiveDate: int,
    validUntil: Option<int>,
    createdAt: int,
    importRow: bool,
    reportedBy: string,
    supersedes: Option<Id>,
    promotedFrom: Option<Id>)

  /** A WITHDRAWN audit always states when it becomes true; the other actions are instantaneous. */
  datatype Audit =
    | Published(priceId: Id, createdAt: int)
    | PromoteShared(priceId: Id, createdAt: int)
    | Superseded(priceId: Id, createdAt: int)
    | Withdrawn(priceId: Id, createdAt: int, effectiveAt: int)

  /** `now` is the latest instant at which anything was recorded. */
  datatype Book = Book(rows: map<Id, Price>, audits: seq<Audit>, now: int)

  predicate Replaces(b: Book, s: Id, x: Id) {
    s in b.rows && b.rows[s].supersedes == Some(x)
  }

  predicate WithdrawnBy(b: Book, x: Id, asOf: int) {
    exists a | a in b.audits :: a.Withdrawn? && a.priceId == x && a.effectiveAt <= asOf
  }

  predicate SupersededBy(b: Book, x: Id, asOf: int) {
    exists a | a in b.audits :: a.Superseded? && a.priceId == x && a.createdAt <= asOf
  }

  /** Any supersession record at all, at any instant. */
  predicate SupersessionRecorded(b: Book, x: Id) {
    exists a | a in b.audits :: a.Superseded? && a.priceId == x
  }

  predicate HasSuccessor(b: Book, x: Id) {
    exists s | s in b.rows :: Replaces(b, s, x)
  }

  /** `supersededBy`: a catalog successor whose transition was never recorded, or a private one in force. */
  predicate ReplacedBySuccessor(b: Book, x: Id, asOf: int) {
    exists s | s in b.rows ::
      Replaces(b, s, x)
      && if b.rows[s].verification.Unverified? then b.rows[s].createdAt <= asOf else !SupersessionRecorded(b, x)
  }

  /** A private successor is hidden until it was recorded. */
  predicate RecordedBy(b: Book, x: Id, asOf: int)
    requires x in b.rows
  {
    var p := b.rows[x];
    p.supersedes.None? || !p.verification.Unverified? || p.createdAt <= asOf
  }

  predicate EndedByAudit(b: Book, x: Id, asOf: int) {
    WithdrawnBy(b, x, asOf) || SupersededBy(b, x, asOf)
  }

  /** The correction of `x` had taken effect, or cannot be timed at all. */
  predicate SupersededAsOf(b: Book, x: Id, asOf: int) {
    SupersededBy(b, x, asOf) || (HasSuccessor(b, x) && !SupersessionRecorded(b, x))
  }

  /** A shared copy whose origin had been replaced or withdrawn. */
  predicate RestatesEnded(b: Book, x: Id, asOf: int)
    requires x in b.rows
  {
    match b.rows[x].promotedFrom
    case None => false
    case Some(o) => SupersededAsOf(b, o, asOf) || WithdrawnBy(b, o, asOf)
  }

  predicate Current(b: Book, x: Id, asOf: int)
    requires x in b.rows
  {
    && !ReplacedBySuccessor(b, x, asOf)
    && RecordedBy(b, x, asOf)
    && !EndedByAudit(b, x, asOf)
    && !RestatesEnded(b, x, asOf)
  }

  // ---------------------------------------------------------------- currentness over time

  /** Whatever takes a row out of currency keeps it out at every later instant. */
  lemma EndedStaysEnded(b: Book, x: Id, t: int, u: int)
    requires x in b.rows && t <= u
    ensures ReplacedBySuccessor(b, x, t) ==> ReplacedBySuccessor(b, x, u)
    ensures EndedByAudit(b, x, t) ==> EndedByAudit(b, x, u)
    ensures RestatesEnded(b, x, t) ==> RestatesEnded(b, x, u)
  {
    if ReplacedBySuccessor(b, x, t) {
      var s :| s in b.rows && Replaces(b, s, x)
               && if b.rows[s].verification.Unverified? then b.rows[s].createdAt <= t else !SupersessionRecorded(b, x);
      assert Replaces(b, s, x);
    }
    AuditsAccumulate(b, x, t, u);
    if b.rows[x].promotedFrom.Some? {
      AuditsAccumulate(b, b.rows[x].promotedFrom.value, t, u);
    }
  }

  lemma AuditsAccumulate(b: Book, x: Id, t: int, u: int)
    requires t <= u
    ensures WithdrawnBy(b, x, t) ==> WithdrawnBy(b, x, u)
    ensures SupersededBy(b, x, t) ==> SupersededBy(b, x, u)
  {
    if WithdrawnBy(b, x, t) {
      var a :| a in b.audits && a.Withdrawn? && a.priceId == x && a.effectiveAt <= t;
      assert a.effectiveAt <= u;
    }
    if SupersededBy(b, x, t) {
      var a :| a in b.audits && a.Superseded? && a.priceId == x && a.createdAt <= t;
      assert a.createdAt <= u;
    }
  }

  /**
   * In any state whatever, malformed pairs included, the instants at which a row is current form
   * an interval, and it can only start late when the row is a private successor.
   */
  lemma CurrentIsAnInterval(b: Book, x: Id, t: int, u: int, v: int)
    requires x in b.rows && t <= u <= v
    ensures Current(b, x, t) && Current(b, x, v) ==> Current(b, x, u)
    ensures !Current(b, x, t) && Current(b, x, u) ==>
              b.rows[x].supersedes.Some? && b.rows[x].verification.Unverified? && t < b.rows[x].createdAt <= u
  {
    EndedStaysEnded(b, x, t, u);
    EndedStaysEnded(b, x, u, v);
  }
}

/** Proposing import rows and private prices to curation: each row and each price at most once. */
module Submissions {
  import opened Outcomes

  datatype RowStatus = NeedsReview | Ready | Rejected | SubmissionCreated

  datatype Row = Row(batchId: string, status: RowStatus, submissionId: Option<string>, resolved: bool)

  datatype BatchStatus = Previewed | InReview | ReadyForReview | ApprovedForSubmission | PartiallySubmitted | Submitted

  /** `curates`: the source family, where one is stated, is routed to community curation. */
  datatype Batch = Batch(
    workspaceId: string,
    uploadedBy: string,
    status: BatchStatus,
    curates: bool,
    effectiveDate: Option<int>,
    regionId: Option<string>,
    sourceOrigin: Option<string>,
    sourceType: Option<string>,
    scopeLabel: Option<string>,
    scopeEvidence: Option<string>,
    scopeConfirmedRegionId: Option<string>)

  datatype Price = Price(
    workspaceId: string,
    isPrivate: bool,
    published: bool,
    removed: bool,
    replaced: bool,
    blocked: bool,
    hasOrganization: bool,
    importRowId: Option<string>)

  /** What a submission was made for, as its audit names it. */
  datatype Subject = ForRow(rowId: string) | ForPrice(priceId: string)

  datatype Refusal =
    | BatchNotFound | FamilyNotRouted | BatchNotReady | DateRequired | RegionRequired | ScopeUnconfirmed
    | OriginRequired | TypeRequired | NoRowsReady | RowNotResolved | RowAlreadySubmitted | CountMismatch
    | PriceNotFound | AutoPublishForbidden | AlreadyRemoved | NoLongerCurrent | PriceBlocked

  /** The submission answered with, and whether it was there already. */
  datatype Receipt = Receipt(submissionId: string, alreadyProposed: bool)

  type Rows = map<string, Row>
  type Subjects = map<string, Subject>

  // ---------------------------------------------------------------- the gate

  /** The source named a place and nobody has confirmed that it is this region. */
  predicate ScopeUnproven(b: Batch) {
    && b.scopeLabel.Some? && b.scopeLabel.value != "" && b.scopeEvidence.Some? && b.scopeEvidence.value != ""
    && b.regionId.Some? && b.scopeConfirmedRegionId != b.regionId
  }

  function ProposalBlock(b: Batch, readyRows: nat): Option<Refusal> {
    if !b.curates then Some(FamilyNotRouted)
    else if !b.status.InReview? && !b.status.ReadyForReview? then Some(BatchNotReady)
    else if b.effectiveDate.None? then Some(DateRequired)
    else if b.regionId.None? then Some(RegionRequired)
    else if ScopeUnproven(b) then Some(ScopeUnconfirmed)
    else if b.sourceOrigin.None? then Some(OriginRequired)
    else if b.sourceType.None? then Some(TypeRequired)
    else if readyRows == 0 then Some(NoRowsReady)
    else None
  }

  predicate IsClosed(s: BatchStatus) {
    s.PartiallySubmitted? || s.Submitted?
  }

  /** A reviewed row becomes ready or rejected; compensating or reopening sends it back. */
  predicate ReviewMoves(before: RowStatus, after: RowStatus) {
    match before
    case NeedsReview => after.Ready? || after.Rejected?
    case Ready => after.NeedsReview?
    case Rejected => after.NeedsReview?
    case SubmissionCreated => false
  }

  function ReadyRows(rows: Rows, batchId: string): set<string> {
    set r | r in rows && rows[r].batchId == batchId && rows[r].status.Ready? && rows[r].submissionId.None?
  }

  predicate HasRow(rows: Rows, batchId: string, status: RowStatus) {
    exists r | r in rows :: rows[r].batchId == batchId && rows[r].status == status
  }

  // ---------------------------------------------------------------- what every committed state keeps

  /** A row is in SUBMISSION_CREATED exactly when it points at a submission, which is its own. */
  predicate RowLinked(rows: Rows, subs: Subjects, r: string)
    requires r in rows
  {
    && (rows[r].status.SubmissionCreated? <==> rows[r].submissionId.Some?)
    && (rows[r].submissionId.Some? ==>
          rows[r].submissionId.value in subs && subs[rows[r].submissionId.value] == ForRow(r))
  }

  /** A row's submission is the one the row points at; a price's is the only one for it. */
  predicate SubjectOk(rows: Rows, subs: Subjects, s: string)
    requires s in subs
  {
    match subs[s]
    case ForRow(r) => r in rows && rows[r].submissionId == Some(s)
    case ForPrice(p) => forall t | t in subs :: subs[t] == ForPrice(p) ==> t == s
  }

  ghost predicate LedgerOk(rows: Rows, subs: Subjects) {
    && (forall r | r in rows :: RowLinked(rows, subs, r))
    && (forall s | s in subs :: SubjectOk(rows, subs, s))
  }

  /** Never left between the gate and the close, and closed only with nothing left to review. */
  ghost predicate BatchesOk(batches: map<string, Batch>, rows: Rows) {
    && (forall b | b in batches :: !batches[b].status.ApprovedForSubmission?)
    && (forall b | b in batches && IsClosed(batches[b].status) :: !HasRow(rows, b, NeedsReview))
  }

  predicate HasSubject(subs: Subjects, subject: Subject) {
    exists s | s in subs :: subs[s] == subject
  }

  // ---------------------------------------------------------------- one private price

  /** Unpublished, private, in force, and with the facts a proposal states. */
  predicate IsProposable(p: Price) {
    p.isPrivate && !p.published && !p.removed && !p.replaced && !p.blocked
  }

  /** What a proposal of the price is recorded for: its import row if it has one, else itself. */
  function SubjectOf(prices: map<string, Price>, priceId: string): Subject
    requires priceId in prices
  {
    if prices[priceId].importRowId.Some? then ForRow(prices[priceId].importRowId.value) else ForPrice(priceId)
  }

  /** The row was proposed already, or stands in a batch of the workspace. */
  predicate RowProposable(batches: map<string, Batch>, rows: Rows, workspaceId: string, r: string) {
    r in rows
    && (rows[r].submissionId.Some?
        || (rows[r].batchId in batches && batches[rows[r].batchId].workspaceId == workspaceId))
  }

  function Created(rows: Rows, r: string, submissionId: string): Rows
    requires r in rows
  {
    rows[r := rows[r].(status := SubmissionCreated, submissionId := Some(submissionId))]
  }

  /** A row has a submission exactly when it points at one. */
  lemma ExistingSubject(rows: Rows, subs: Subjects, r: string)
    requires LedgerOk(rows, subs)
    ensures HasSubject(subs, ForRow(r)) <==> r in rows && rows[r].submissionId.Some?
  {
    if s :| s in subs && subs[s] == ForRow(r) {
      assert SubjectOk(rows, subs, s);
    }
    if r in rows && rows[r].submissionId.Some? {
      assert RowLinked(rows, subs, r);
    }
  }

  // ---------------------------------------------------------------- one wave

  /** Row `r` carries a submission of its own that was not there before. */
  predicate Moved(rows0: Rows, subs0: Subjects, rows: Rows, subs: Subjects, r: string)
    requires r in rows0 && r in rows
  {
    && rows[r].submissionId.Some? && rows[r] == rows0[r].(status := SubmissionCreated, submissionId := rows[r].submissionId)
    && rows[r].submissionId.value !in subs0
    && rows[r].submissionId.value in subs && subs[rows[r].submissionId.value] == ForRow(r)
  }

  /** Exactly the rows of `wave` were moved, each by its own new submission, and nothing else changed. */
  ghost predicate Wave(rows0: Rows, subs0: Subjects, rows: Rows, subs: Subjects, wave: set<string>) {
    && rows.Keys == rows0.Keys && wave <= rows.Keys
    && (forall r | r in rows && r !in wave :: rows[r] == rows0[r])
    && (forall r | r in wave :: Moved(rows0, subs0, rows, subs, r))
    && (forall s | s in subs0 :: s in subs && subs[s] == subs0[s])
    && (forall s | s in subs && s !in subs0 ::
          subs[s].ForRow? && subs[s].rowId in wave && rows[subs[s].rowId].submissionId == Some(s))
  }

  lemma WaveKeepsLedger(rows0: Rows, subs0: Subjects, rows: Rows, subs: Subjects, wave: set<string>)
    requires LedgerOk(rows0, subs0) && Wave(rows0, subs0, rows, subs, wave)
    requires forall r | r in wave :: rows0[r].submissionId.None?
    ensures LedgerOk(rows, subs)
  {
    forall r | r in rows
      ensures RowLinked(rows, subs, r)
    {
      assert RowLinked(rows0, subs0, r);
      if r in wave {
        assert Moved(rows0, subs0, rows, subs, r);
      }
    }
    forall s | s in subs
      ensures SubjectOk(rows, subs, s)
    {
      if s in subs0 {
        assert SubjectOk(rows0, subs0, s);
      }
    }
  }

  lemma NoWave(rows: Rows, subs: Subjects)
    ensures Wave(rows, subs, rows, subs, {})
  {
  }

  lemma MovedStays(rows0: Rows, subs0: Subjects, rows: Rows, subs: Subjects, r: string, s: string, q: string)
    requires q in rows0 && q in rows && r in rows && r != q && s !in subs && Moved(rows0, subs0, rows, subs, q)
    ensures Moved(rows0, subs0, rows[r := rows[r].(status := SubmissionCreated, submissionId := Some(s))],
                  subs[s := ForRow(r)], q)
  {
  }

  lemma WaveGrows(rows0: Rows, subs0: Subjects, rows: Rows, subs: Subjects, wave: set<string>, r: string, s: string)
    requires Wave(rows0, subs0, rows, subs, wave) && r in rows && r !in wave && s !in subs
    ensures Wave(rows0, subs0, rows[r := rows[r].(status := SubmissionCreated, submissionId := Some(s))],
                 subs[s := ForRow(r)], wave + {r})
  {
    var rows' := rows[r := rows[r].(status := SubmissionCreated, submissionId := Some(s))];
    var subs' := subs[s := ForRow(r)];
    assert Moved(rows0, subs0, rows', subs', r);
    assert forall q | q in wave :: q in rows0 && q in rows' && q != r;
    forall q | q in wave
      ensures Moved(rows0, subs0, rows', subs', q)
    {
      MovedStays(rows0, subs0, rows, subs, r, s, q);
    }
    hide Moved;
    assert forall q | q in rows' && q !in wave + {r} :: rows'[q] == rows0[q];
  }

  class CurationDesk {
    var batches: map<string, Batch>
    var rows: Rows
    var prices: map<string, Price>
    var submissions: Subjects

    ghost predicate Valid()
      reads this
    {
      LedgerOk(rows, submissions) && BatchesOk(batches, rows)
    }

    constructor (batches: map<string, Batch>, rows: Rows, prices: map<string, Price>)
      requires (forall r | r in rows :: rows[r].submissionId.None? && !rows[r].status.SubmissionCreated?)
               && BatchesOk(batches, rows)
      ensures Valid() && this.batches == batches && this.rows == rows && this.prices == prices && submissions == map[]
    {
      this.batches := batches;
      this.rows := rows;
      this.prices := prices;
      submissions := map[];
    }

    /** Review moves a row that was never submitted, while its batch is open. */
    method ReviewRow(rowId: string, status: RowStatus, resolved: bool) returns (ok: bool)
      requires Valid()
      modifies this`rows
      ensures Valid()
      ensures ok <==> rowId in old(rows) && ReviewMoves(old(rows)[rowId].status, status)
                      && old(rows)[rowId].batchId in batches && !IsClosed(batches[old(rows)[rowId].batchId].status)
      ensures rows == if ok then old(rows)[rowId := old(rows)[rowId].(status := status, resolved := resolved)] else old(rows)
    {
      ok := rowId in rows && ReviewMoves(rows[rowId].status, status)
            && rows[rowId].batchId in batches && !IsClosed(batches[rows[rowId].batchId].status);
      if ok {
        ghost var before := rows;
        assert RowLinked(before, submissions, rowId);
        rows := rows[rowId := rows[rowId].(status := status, resolved := resolved)];
        forall r | r in rows
          ensures RowLinked(rows, submissions, r)
        {
          assert RowLinked(before, submissions, r);
        }
        forall s | s in submissions
          ensures SubjectOk(rows, submissions, s)
        {
          assert SubjectOk(before, submissions, s);
        }
      }
    }

    /**
     * One wave. It submits exactly the batch's ready rows, each once, and closes the batch exactly
     * when no row of it is left to review; a row that is not resolved sends everything back.
     */
    method SubmitBatch(workspaceId: string, batchId: string, account: string, freshIds: seq<string>)
      returns (r: Result<BatchStatus, Refusal>)
      requires Valid() && |ReadyRows(rows, batchId)| <= |freshIds|
      requires forall i, j | 0 <= i < j < |freshIds| :: freshIds[i] != freshIds[j]
      requires forall i | 0 <= i < |freshIds| :: freshIds[i] !in submissions
      modifies this
      ensures Valid() && prices == old(prices)
      ensures r.Err? ==> batches == old(batches) && rows == old(rows) && submissions == old(submissions)
                         && r.error !in {RowAlreadySubmitted, CountMismatch}
      ensures r.Ok? <==>
                && batchId in old(batches) && old(batches)[batchId].workspaceId == workspaceId
                && old(batches)[batchId].uploadedBy == account
                && (IsClosed(old(batches)[batchId].status)
                    || (ProposalBlock(old(batches)[batchId], |ReadyRows(old(rows), batchId)|).None?
                        && forall x | x in ReadyRows(old(rows), batchId) :: old(rows)[x].resolved))
      ensures r.Ok? && IsClosed(old(batches)[batchId].status) ==>
                batches == old(batches) && rows == old(rows) && submissions == old(submissions)
      ensures r.Ok? && !IsClosed(old(batches)[batchId].status) ==>
                && Wave(old(rows), old(submissions), rows, submissions, ReadyRows(old(rows), batchId))
                && batches == old(batches)[batchId := old(batches)[batchId].(status := r.value)]
                && r.value == (if HasRow(old(rows), batchId, NeedsReview) then old(batches)[batchId].status
                               else if HasRow(old(rows), batchId, Rejected) then PartiallySubmitted else Submitted)
    {
      hide Wave, HasRow, ScopeUnproven, IsClosed, SubjectOk, LedgerOk, Moved, RowLinked;
      if batchId !in batches || batches[batchId].workspaceId != workspaceId || batches[batchId].uploadedBy != account {
        return Err(BatchNotFound);
      }
      var batch := batches[batchId];
      if batch.status.ApprovedForSubmission? || IsClosed(batch.status) {
        return Ok(batch.status);
      }
      var ready := ReadyRows(rows, batchId);
      var blocked := ProposalBlock(batch, |ready|);
      if blocked.Some? {
        return Err(blocked.value);
      }
      var savedBatches, savedRows, savedSubmissions := batches, rows, submissions;
      var freeze := !HasRow(rows, batchId, NeedsReview);
      if freeze {
        batches := batches[batchId := batch.(status := ApprovedForSubmission)];
      }
      var refusal := SubmitRows(ready, freshIds);
      if refusal.Some? {
        batches, rows, submissions := savedBatches, savedRows, savedSubmissions;
        return Err(refusal.value);
      }
      WaveKeepsLedger(savedRows, savedSubmissions, rows, submissions, ready);
      WaveKeepsStatuses(savedRows, savedSubmissions, rows, submissions, ready, batchId);
      WaveKeepsBatches(savedBatches, savedRows, savedSubmissions, rows, submissions, ready, batchId);
      if !freeze {
        assert batches[batchId := batch] == batches;
        return Ok(batch.status);
      }
      var final := if HasRow(rows, batchId, Rejected) then PartiallySubmitted else Submitted;
      batches := batches[batchId := batch.(status := final)];
      return Ok(final);
    }

    /** The loop over the rows of the wave. */
    method SubmitRows(ready: set<string>, freshIds: seq<string>) returns (refusal: Option<Refusal>)
      requires ready <= rows.Keys && forall x | x in ready :: rows[x].status.Ready? && rows[x].submissionId.None?
      requires |ready| <= |freshIds|
      requires forall i, j | 0 <= i < j < |freshIds| :: freshIds[i] != freshIds[j]
      requires forall i | 0 <= i < |freshIds| :: freshIds[i] !in submissions
      modifies this`rows, this`submissions
      ensures refusal.None? ==> Wave(old(rows), old(submissions), rows, submissions, ready)
      ensures refusal.None? <==> forall x | x in ready :: old(rows)[x].resolved
      ensures refusal.Some? ==> refusal.value == RowNotResolved
    {
      hide Wave, Moved;
      ghost var rows0, subs0 := rows, submissions;
      ghost var done: set<string> := {};
      NoWave(rows, submissions);
      var todo := ready;
      var k := 0;
      while todo != {}
        invariant todo !! done && todo + done == ready && |todo| + k == |ready|
        invariant Wave(rows0, subs0, rows, submissions, done)
        invariant forall x | x in todo :: x in rows && rows[x] == rows0[x]
        invariant forall x | x in done :: rows0[x].resolved
        invariant forall i | k <= i < |freshIds| :: freshIds[i] !in submissions
        decreases |todo|
      {
        var rowId :| rowId in todo;
        var row := rows[rowId];
        assert row == rows0[rowId];
        if !row.resolved {
          return Some(RowNotResolved);
        }
        if row.submissionId.Some? {
          assert false;
        }
        var submissionId := freshIds[k];
        WaveGrows(rows0, subs0, rows, submissions, done, rowId, submissionId);
        submissions := submissions[submissionId := ForRow(rowId)];
        rows := rows[rowId := row.(status := SubmissionCreated, submissionId := Some(submissionId))];
        todo := todo - {rowId};
        done := done + {rowId};
        k := k + 1;
      }
      assert done == ready;
      return None;
    }

    /** One private price: through its import row if it has one, else under its own name; a repeat answers with the first. */
    method SubmitPrivatePrice(workspaceId: string, priceId: string, freshId: string)
      returns (r: Result<Receipt, Refusal>)
      requires Valid() && freshId !in submissions
      modifies this`rows, this`submissions
      ensures Valid()
      ensures r.Err? || r.value.alreadyProposed ==> rows == old(rows) && submissions == old(submissions)
      ensures r.Ok? ==>
                && priceId in prices && prices[priceId].workspaceId == workspaceId && prices[priceId].isPrivate
                && !prices[priceId].removed && !prices[priceId].replaced && !prices[priceId].published
                && r.value.submissionId in submissions
                && submissions[r.value.submissionId] == SubjectOf(prices, priceId)
      ensures r.Ok? <==>
                && priceId in prices && prices[priceId].workspaceId == workspaceId && IsProposable(prices[priceId])
                && if prices[priceId].importRowId.Some?
                   then RowProposable(batches, old(rows), workspaceId, prices[priceId].importRowId.value)
                   else prices[priceId].hasOrganization || HasSubject(old(submissions), ForPrice(priceId))
      ensures r.Ok? ==> (r.value.alreadyProposed <==> HasSubject(old(submissions), SubjectOf(prices, priceId)))
      ensures r.Ok? && !r.value.alreadyProposed ==>
                && r.value.submissionId == freshId
                && submissions == old(submissions)[freshId := SubjectOf(prices, priceId)]
                && rows == match submissions[freshId]
                           case ForRow(x) => if x in old(rows) then Created(old(rows), x, freshId) else old(rows)
                           case ForPrice(_) => old(rows)
    {
      if priceId !in prices || prices[priceId].workspaceId != workspaceId || !prices[priceId].isPrivate {
        return Err(PriceNotFound);
      }
      var price := prices[priceId];
      if price.published {
        return Err(AutoPublishForbidden);
      }
      if price.removed {
        return Err(AlreadyRemoved);
      }
      if price.replaced {
        return Err(NoLongerCurrent);
      }
      if price.blocked {
        return Err(PriceBlocked);
      }
      if price.importRowId.Some? {
        r := SubmitPriceRow(workspaceId, price.importRowId.value, freshId);
      } else {
        r := SubmitPriceAlone(priceId, price, freshId);
      }
    }

    method SubmitPriceRow(workspaceId: string, rowId: string, freshId: string) returns (r: Result<Receipt, Refusal>)
      requires Valid() && freshId !in submissions
      modifies this`rows, this`submissions
      ensures Valid()
      ensures r.Err? || r.value.alreadyProposed ==> rows == old(rows) && submissions == old(submissions)
      ensures r.Ok? ==> r.value.submissionId in submissions && submissions[r.value.submissionId] == ForRow(rowId)
      ensures r.Ok? && !r.value.alreadyProposed ==>
                && r.value.submissionId == freshId && rowId in old(rows)
                && submissions == old(submissions)[freshId := ForRow(rowId)]
                && rows == Created(old(rows), rowId, freshId)
      ensures r.Ok? <==> RowProposable(batches, old(rows), workspaceId, rowId)
      ensures r.Ok? ==> (r.value.alreadyProposed <==> HasSubject(old(submissions), ForRow(rowId)))
    {
      ExistingSubject(rows, submissions, rowId);
      if rowId !in rows {
        return Err(RowNotResolved);
      }
      var row := rows[rowId];
      assert RowLinked(rows, submissions, rowId);
      if row.submissionId.Some? {
        return Ok(Receipt(row.submissionId.value, true));
      }
      if row.batchId !in batches || batches[row.batchId].workspaceId != workspaceId {
        return Err(PriceNotFound);
      }
      ghost var rows0, subs0 := rows, submissions;
      WaveGrows(rows0, subs0, rows0, subs0, {}, rowId, freshId);
      submissions := submissions[freshId := ForRow(rowId)];
      rows := Created(rows, rowId, freshId);
      assert {} + {rowId} == {rowId};
      WaveKeepsLedger(rows0, subs0, rows, submissions, {rowId});
      assert forall b | b in batches && IsClosed(batches[b].status) :: !HasRow(rows0, b, NeedsReview);
      return Ok(Receipt(freshId, false));
    }

    method FindForPrice(priceId: string) returns (found: Option<string>)
      ensures found.Some? ==> found.value in submissions && submissions[found.value] == ForPrice(priceId)
      ensures found.None? ==> forall s | s in submissions :: submissions[s] != ForPrice(priceId)
    {
      if s :| s in submissions && submissions[s] == ForPrice(priceId) {
        return Some(s);
      }
      return None;
    }

    method SubmitPriceAlone(priceId: string, price: Price, freshId: string) returns (r: Result<Receipt, Refusal>)
      requires Valid() && freshId !in submissions
      modifies this`submissions
      ensures Valid()
      ensures r.Err? || r.value.alreadyProposed ==> submissions == old(submissions)
      ensures r.Ok? ==> r.value.submissionId in submissions && submissions[r.value.submissionId] == ForPrice(priceId)
      ensures r.Ok? && !r.value.alreadyProposed ==>
                r.value.submissionId == freshId && submissions == old(submissions)[freshId := ForPrice(priceId)]
      ensures r.Ok? <==> price.hasOrganization || HasSubject(old(submissions), ForPrice(priceId))
      ensures r.Ok? ==> (r.value.alreadyProposed <==> HasSubject(old(submissions), ForPrice(priceId)))
    {
      var existing := FindForPrice(priceId);
      if existing.Some? {
        return Ok(Receipt(existing.value, true));
      }
      if !price.hasOrganization {
        return Err(NoRowsReady);
      }
      ghost var subs0 := submissions;
      submissions := submissions[freshId := ForPrice(priceId)];
      NewPriceSubmission(rows, subs0, priceId, freshId);
      return Ok(Receipt(freshId, false));
    }
  }

  lemma NewPriceSubmission(rows: Rows, subs: Subjects, priceId: string, s: string)
    requires LedgerOk(rows, subs) && s !in subs && forall t | t in subs :: subs[t] != ForPrice(priceId)
    ensures LedgerOk(rows, subs[s := ForPrice(priceId)])
  {
    var subs' := subs[s := ForPrice(priceId)];
    forall r | r in rows
      ensures RowLinked(rows, subs', r)
    {
      assert RowLinked(rows, subs, r);
    }
    forall t | t in subs'
      ensures SubjectOk(rows, subs', t)
    {
      if t != s {
        assert SubjectOk(rows, subs, t);
      }
    }
  }

  /** A wave of ready rows leaves the rejected rows and the rows under review of every batch as they were. */
  lemma WaveKeepsStatuses(rows0: Rows, subs0: Subjects, rows: Rows, subs: Subjects, wave: set<string>, batchId: string)
    requires Wave(rows0, subs0, rows, subs, wave) && wave <= rows0.Keys && forall r | r in wave :: rows0[r].status.Ready?
    ensures HasRow(rows, batchId, NeedsReview) <==> HasRow(rows0, batchId, NeedsReview)
    ensures HasRow(rows, batchId, Rejected) <==> HasRow(rows0, batchId, Rejected)
  {
    forall r | r in rows
      ensures r in wave ==> rows[r].status.SubmissionCreated? && rows0[r].status.Ready?
      ensures r !in wave ==> rows[r] == rows0[r]
    {
      if r in wave {
        assert Moved(rows0, subs0, rows, subs, r);
      }
    }
    if HasRow(rows0, batchId, NeedsReview) {
      var r :| r in rows0 && rows0[r].batchId == batchId && rows0[r].status == NeedsReview;
      assert rows[r] == rows0[r];
    }
    if HasRow(rows0, batchId, Rejected) {
      var r :| r in rows0 && rows0[r].batchId == batchId && rows0[r].status == Rejected;
      assert rows[r] == rows0[r];
    }
  }

  lemma WaveKeepsBatches(batches: map<string, Batch>, rows0: Rows, subs0: Subjects, rows: Rows, subs: Subjects,
                         wave: set<string>, batchId: string)
    requires BatchesOk(batches, rows0) && Wave(rows0, subs0, rows, subs, wave)
    requires wave <= rows0.Keys && forall r | r in wave :: rows0[r].status.Ready?
    ensures BatchesOk(batches, rows)
  {
    forall b | b in batches && IsClosed(batches[b].status)
      ensures !HasRow(rows, b, NeedsReview)
    {
      WaveKeepsStatuses(rows0, subs0, rows, subs, wave, b);
    }
  }

  // ---------------------------------------------------------------- at most once

  /** In every state the desk reaches, a row or a price has at most one submission. */
  lemma AtMostOnce(rows: Rows, subs: Subjects, s: string, t: string)
    requires LedgerOk(rows, subs) && s in subs && t in subs && subs[s] == subs[t]
    ensures s == t
  {
    assert SubjectOk(rows, subs, s) && SubjectOk(rows, subs, t);
  }

  /** The submissions made for rows are exactly those the rows in SUBMISSION_CREATED point at, one each. */
  lemma RowSubmissionsAreCreatedRows(rows: Rows, subs: Subjects, r: string)
    requires LedgerOk(rows, subs)
    ensures (exists s :: s in subs && subs[s] == ForRow(r)) <==> r in rows && rows[r].status.SubmissionCreated?
    ensures r in rows && rows[r].status.SubmissionCreated? ==>
              forall s | s in subs :: subs[s] == ForRow(r) <==> rows[r].submissionId == Some(s)
  {
    forall s | s in subs && subs[s] == ForRow(r)
      ensures r in rows && rows[r].submissionId == Some(s) && rows[r].status.SubmissionCreated?
    {
      assert SubjectOk(rows, subs, s);
      assert RowLinked(rows, subs, r);
    }
    if r in rows && rows[r].status.SubmissionCreated? {
      assert RowLinked(rows, subs, r);
      var s := rows[r].submissionId.value;
      assert s in subs && subs[s] == ForRow(r);
    }
  }
}

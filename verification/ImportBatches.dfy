/** Import batches: one intake door, and metadata saves that recompute the batch's identity. */
module ImportBatches {
  import opened Outcomes
  import opened ImportIdentity
  import opened TemporalProvenance
  import Coverage = RegionCoverage
  import Text

  datatype Status = NeedsReview | ReadyForReview | Closed

  /** `reviewDate` is a day. */
  datatype Batch = Batch(
    reading: Reading,
    uploadedBy: string,
    observationKey: Option<string>,
    metadata: Metadata,
    coverageSetId: Option<string>,
    reviewDate: Option<int>,
    confirmedRegionId: Option<string>,
    status: Status,
    version: nat,
    fingerprint: string)

  datatype Refusal =
    | BatchNotFound | VersionStale | NotMutable | DateDecisionRequired
    | Incoherent(issue: Issue) | RegionCoverageRefused(reason: Coverage.Refusal)
    | RegionScopeHasPrices | LinkContextImmutable
    | IdentityAlreadyExists(existing: string) | SourceObservationConflict(existing: string)

  /** The batch a read answered with, and whether it was already there. */
  datatype Receipt = Receipt(id: string, replay: bool)

  /** A field of a request: not sent, sent as null, or sent with a value. */
  datatype Field<+T> = Absent | Null | Value(v: T)

  datatype Update = Update(
    version: nat,
    regionId: Field<string>,
    coveredVillages: Field<seq<string>>,
    effectiveDate: Field<DateInput>,
    reviewDate: Field<int>,
    sourceType: Field<string>,
    sourceOrigin: Field<string>,
    sourceOrganizationName: Field<string>,
    sourceVendorName: Field<string>,
    sourcePeriodLabel: Field<string>,
    sourcePeriodGranularity: Field<string>,
    effectiveDateProvenance: Field<string>,
    effectiveDateDerivationRule: Field<string>,
    priceCoverageDeclared: Field<bool>,
    transportIncluded: Field<bool>,
    loadingIncluded: Field<bool>,
    unloadingIncluded: Field<bool>,
    deliveredToProject: Field<bool>,
    confirmRegionScope: Option<bool>)

  // ---------------------------------------------------------------- one column of an update

  /** `undefined` leaves a column alone; anything else, null included, is put there. */
  datatype Column<+T> = Keep | Put(value: Option<T>)

  function Stored<T>(c: Column<T>, before: Option<T>): Option<T> {
    if c.Put? then c.value else before
  }

  /** `sent ?? undefined`. */
  function SentColumn<T>(f: Field<T>): Column<T> {
    if f.Value? then Put(Some(f.v)) else Keep
  }

  /** Absent keeps, null clears, a value replaces; only for keys the client sent. */
  function PatchColumn<T>(f: Field<T>, key: string, provided: Option<set<string>>): Column<T> {
    if provided.None? then SentColumn(f)
    else if key !in provided.value then Keep
    else match f
         case Absent => Keep
         case Null => Put(None)
         case Value(v) => Put(Some(v))
  }

  /** `sent ?? stored`. */
  function Coalesce<T>(f: Field<T>, stored: Option<T>): Option<T> {
    if f.Value? then Some(f.v) else stored
  }

  /** What a patched field will read as. */
  function Patch<T>(f: Field<T>, key: string, provided: Option<set<string>>, stored: Option<T>): Option<T> {
    Stored(PatchColumn(f, key, provided), stored)
  }

  predicate Sent(key: string, provided: Option<set<string>>) {
    provided.Some? && key in provided.value
  }

  function DayOf(d: Option<DateInput>): Option<int> {
    if d.Some? && d.value.At? then Some(UtcDay(d.value.instant)) else None
  }

  function SentDate(dto: Update): Option<DateInput> {
    if dto.effectiveDate.Value? && dto.effectiveDate.v.At? then Some(dto.effectiveDate.v) else None
  }

  /** The date the save writes: a stated one, or the stored one. */
  function WrittenDate(b: Batch, dto: Update): Option<DateInput> {
    if SentDate(dto).Some? then SentDate(dto) else b.metadata.effectiveDate
  }

  /** The date the save validates: what was sent, an empty one included, or the stored one. */
  function ValidatedDate(b: Batch, dto: Update, provided: Option<set<string>>): Option<DateInput> {
    if Sent("effectiveDate", provided) then SentDate(dto) else b.metadata.effectiveDate
  }

  function MergedClaim(b: Batch, dto: Update, provided: Option<set<string>>): Claim {
    var m := b.metadata;
    Claim(
      Patch(dto.sourcePeriodLabel, "sourcePeriodLabel", provided, m.sourcePeriodLabel),
      Patch(dto.sourcePeriodGranularity, "sourcePeriodGranularity", provided, m.sourcePeriodGranularity),
      Patch(dto.effectiveDateProvenance, "effectiveDateProvenance", provided, m.effectiveDateProvenance),
      Patch(dto.effectiveDateDerivationRule, "effectiveDateDerivationRule", provided, m.effectiveDateDerivationRule))
  }

  function ClaimOf(m: Metadata): Claim {
    Claim(m.sourcePeriodLabel, m.sourcePeriodGranularity, m.effectiveDateProvenance, m.effectiveDateDerivationRule)
  }

  // ---------------------------------------------------------------- the facts that are fingerprinted

  /** What a save's geography came to. */
  datatype Resolved = Resolved(regionId: Option<string>, setId: Option<string>, digest: Option<string>)

  predicate CoverageSent(dto: Update, provided: Option<set<string>>) {
    if provided.Some? then "coveredVillageRegionIds" in provided.value else !dto.coveredVillages.Absent?
  }

  /** The metadata the new fingerprint is computed from. */
  function FinalMetadata(b: Batch, dto: Update, provided: Option<set<string>>, regionId: Option<string>): Metadata {
    var m, c := b.metadata, MergedClaim(b, dto, provided);
    Metadata(
      regionId,
      WrittenDate(b, dto),
      Coalesce(dto.sourceType, m.sourceType),
      Coalesce(dto.sourceOrigin, m.sourceOrigin),
      Coalesce(dto.sourceOrganizationName, m.sourceOrganizationName),
      Coalesce(dto.sourceVendorName, m.sourceVendorName),
      c.period, c.granularity, c.provenance, c.rule,
      Coalesce(dto.priceCoverageDeclared, m.priceCoverageDeclared),
      Coalesce(dto.transportIncluded, m.transportIncluded),
      Coalesce(dto.loadingIncluded, m.loadingIncluded),
      Coalesce(dto.unloadingIncluded, m.unloadingIncluded),
      Coalesce(dto.deliveredToProject, m.deliveredToProject))
  }

  function FinalFacts(b: Batch, dto: Update, provided: Option<set<string>>, c: Resolved): Facts {
    Facts(b.reading, FinalMetadata(b, dto, provided, c.regionId), c.digest)
  }

  // ---------------------------------------------------------------- the columns that are written

  /** The update statement, column by column; `fingerprint` is written only where it moved. */
  datatype Write = Write(
    regionId: Column<string>,
    coverageSetId: Column<string>,
    effectiveDate: Column<DateInput>,
    reviewDate: Column<int>,
    sourceType: Column<string>,
    sourceOrigin: Column<string>,
    sourceOrganizationName: Column<string>,
    sourceVendorName: Column<string>,
    sourcePeriodLabel: Column<string>,
    sourcePeriodGranularity: Column<string>,
    effectiveDateProvenance: Column<string>,
    effectiveDateDerivationRule: Column<string>,
    priceCoverageDeclared: Column<bool>,
    transportIncluded: Column<bool>,
    loadingIncluded: Column<bool>,
    unloadingIncluded: Column<bool>,
    deliveredToProject: Column<bool>,
    confirmedRegionId: Column<string>,
    fingerprint: Option<string>)

  function WriteFor(b: Batch, dto: Update, provided: Option<set<string>>, c: Resolved): Write {
    var fingerprint := Fingerprint(FinalFacts(b, dto, provided, c));
    Write(
      if c.regionId.Some? then Put(c.regionId) else Keep,
      if CoverageSent(dto, provided) then Put(c.setId) else Keep,
      if SentDate(dto).Some? then Put(SentDate(dto)) else Keep,
      PatchColumn(dto.reviewDate, "reviewDate", provided),
      SentColumn(dto.sourceType),
      SentColumn(dto.sourceOrigin),
      SentColumn(dto.sourceOrganizationName),
      SentColumn(dto.sourceVendorName),
      PatchColumn(dto.sourcePeriodLabel, "sourcePeriodLabel", provided),
      PatchColumn(dto.sourcePeriodGranularity, "sourcePeriodGranularity", provided),
      PatchColumn(dto.effectiveDateProvenance, "effectiveDateProvenance", provided),
      PatchColumn(dto.effectiveDateDerivationRule, "effectiveDateDerivationRule", provided),
      SentColumn(dto.priceCoverageDeclared),
      SentColumn(dto.transportIncluded),
      SentColumn(dto.loadingIncluded),
      SentColumn(dto.unloadingIncluded),
      SentColumn(dto.deliveredToProject),
      if dto.confirmRegionScope.None? then Keep else Put(if dto.confirmRegionScope.value then c.regionId else None),
      if fingerprint == b.fingerprint then None else Some(fingerprint))
  }

  /** The row after the update. */
  function ApplyWrite(b: Batch, w: Write): Batch {
    var m := b.metadata;
    b.(metadata := Metadata(
         Stored(w.regionId, m.regionId),
         Stored(w.effectiveDate, m.effectiveDate),
         Stored(w.sourceType, m.sourceType),
         Stored(w.sourceOrigin, m.sourceOrigin),
         Stored(w.sourceOrganizationName, m.sourceOrganizationName),
         Stored(w.sourceVendorName, m.sourceVendorName),
         Stored(w.sourcePeriodLabel, m.sourcePeriodLabel),
         Stored(w.sourcePeriodGranularity, m.sourcePeriodGranularity),
         Stored(w.effectiveDateProvenance, m.effectiveDateProvenance),
         Stored(w.effectiveDateDerivationRule, m.effectiveDateDerivationRule),
         Stored(w.priceCoverageDeclared, m.priceCoverageDeclared),
         Stored(w.transportIncluded, m.transportIncluded),
         Stored(w.loadingIncluded, m.loadingIncluded),
         Stored(w.unloadingIncluded, m.unloadingIncluded),
         Stored(w.deliveredToProject, m.deliveredToProject)),
       coverageSetId := Stored(w.coverageSetId, b.coverageSetId),
       reviewDate := Stored(w.reviewDate, b.reviewDate),
       confirmedRegionId := Stored(w.confirmedRegionId, b.confirmedRegionId),
       version := b.version + 1,
       fingerprint := if w.fingerprint.Some? then w.fingerprint.value else b.fingerprint)
  }

  // ---------------------------------------------------------------- identity of stored facts

  type Sets = map<string, Coverage.CoverageSet>

  predicate SetKnown(b: Batch, sets: Sets) {
    b.coverageSetId.Some? ==> b.coverageSetId.value in sets
  }

  function StoredFacts(b: Batch, sets: Sets): Facts
    requires SetKnown(b, sets)
  {
    Facts(b.reading, b.metadata, DigestOf(b.coverageSetId, sets))
  }

  function DigestOf(setId: Option<string>, sets: Sets): Option<string>
    requires setId.Some? ==> setId.value in sets
  {
    if setId.Some? then Some(sets[setId.value].digest) else None
  }

  /**
   * Reading the written row back gives the facts that were fingerprinted exactly when a save that
   * resolved no region had none stored, and the digest is that of the set the row ends up with.
   */
  lemma ReadBackExactly(b: Batch, dto: Update, provided: Option<set<string>>, c: Resolved, sets: Sets)
    requires SetKnown(b, sets) && (c.setId.Some? ==> c.setId.value in sets)
    ensures var b' := ApplyWrite(b, WriteFor(b, dto, provided, c));
            && SetKnown(b', sets)
            && b'.fingerprint == Fingerprint(FinalFacts(b, dto, provided, c))
            && (StoredFacts(b', sets) == FinalFacts(b, dto, provided, c) <==>
                  && (c.regionId.None? ==> b.metadata.regionId.None?)
                  && c.digest == DigestOf(if CoverageSent(dto, provided) then c.setId else b.coverageSetId, sets))
  {
    hide Fingerprint;
    var b' := ApplyWrite(b, WriteFor(b, dto, provided, c));
    assert b'.metadata == FinalMetadata(b, dto, provided, b'.metadata.regionId);
    assert StoredFacts(b', sets).metadata.regionId == FinalFacts(b, dto, provided, c).metadata.regionId <==>
           (c.regionId.None? ==> b.metadata.regionId.None?);
  }

  // ---------------------------------------------------------------- the geography of a save

  type Regions = map<string, Coverage.Region>

  /** `sent ?? stored`. */
  function Requested(b: Batch, dto: Update): Option<string> {
    Coalesce(dto.regionId, b.metadata.regionId)
  }

  /** The villages the request lists. */
  function Asked(dto: Update): seq<string> {
    if dto.coveredVillages.Value? then dto.coveredVillages.v else []
  }

  /** One village stands for itself, and no other region was asked for beside it. */
  predicate SingleAllowed(dto: Update, regions: Regions, v: string) {
    && v in regions && regions[v].isActive && regions[v].level.Village?
    && (dto.regionId.Absent? || dto.regionId == Value(v))
  }

  /** Several villages make a lawful coverage of the district. */
  predicate SeveralAllowed(regions: Regions, anchorId: Option<string>, ids: seq<string>) {
    && anchorId.Some? && anchorId.value in regions && Coverage.AllKnown(regions, ids)
    && Coverage.Lawful(regions[anchorId.value], Coverage.RowsOf(regions, ids))
  }

  function CoverageAsked(regions: Regions, anchorId: Option<string>, ids: seq<string>): Coverage.Coverage
    requires SeveralAllowed(regions, anchorId, ids)
  {
    Coverage.CoverageOf(regions[anchorId.value], Coverage.RowsOf(regions, ids))
  }

  /** The request's geography can be resolved. */
  predicate CoverageAllowed(b: Batch, dto: Update, provided: Option<set<string>>, regions: Regions, sets: Sets)
    requires SetKnown(b, sets)
  {
    if !CoverageSent(dto, provided) then
      b.coverageSetId.Some? ==>
        dto.regionId.Absent? || dto.regionId == Value(sets[b.coverageSetId.value].anchorRegionId)
    else
      var ids := Asked(dto);
      && Coverage.NoRepeats(ids)
      && (|ids| == 1 ==> SingleAllowed(dto, regions, ids[0]))
      && (|ids| > 1 ==>
            SeveralAllowed(regions, Requested(b, dto), ids)
            && !Coverage.DigestTaken(sets, CoverageAsked(regions, Requested(b, dto), ids)))
  }

  /** What it resolves to; a value not yet registered takes the candidate id. */
  ghost function Geography(b: Batch, dto: Update, provided: Option<set<string>>, regions: Regions, sets: Sets,
                           candidateId: string): Resolved
    requires SetKnown(b, sets) && CoverageAllowed(b, dto, provided, regions, sets)
  {
    var ids, requested := Asked(dto), Requested(b, dto);
    if !CoverageSent(dto, provided) then
      if b.coverageSetId.None? then Resolved(requested, None, None)
      else Resolved(Some(sets[b.coverageSetId.value].anchorRegionId), b.coverageSetId, DigestOf(b.coverageSetId, sets))
    else if |ids| == 0 then Resolved(requested, None, None)
    else if |ids| == 1 then Resolved(Some(ids[0]), None, None)
    else
      var c := CoverageAsked(regions, requested, ids);
      Resolved(requested, Some(Coverage.SetIdFor(sets, c, candidateId)), Some(c.digest))
  }

  /** The set names exactly these villages of this district. */
  ghost predicate SetNames(regions: Regions, sets: Sets, setId: Option<string>, anchorId: Option<string>, ids: seq<string>) {
    && anchorId.Some? && anchorId.value in regions && Coverage.AllKnown(regions, ids) && Coverage.NoRepeats(ids)
    && setId.Some? && setId.value in sets
    && Coverage.Names(regions, sets[setId.value], regions[anchorId.value], Coverage.RowsOf(regions, ids))
  }

  /** No village leaves the region as requested, one becomes the region, several become the set that names them. */
  ghost predicate NamesAsked(b: Batch, dto: Update, c: Resolved, regions: Regions, sets: Sets) {
    var ids := Asked(dto);
    && (|ids| == 0 ==> c.setId.None? && c.regionId == Requested(b, dto))
    && (|ids| == 1 ==> c.setId.None? && c.regionId == Some(ids[0]))
    && (|ids| > 1 ==> c.regionId == Requested(b, dto) && SetNames(regions, sets, c.setId, c.regionId, ids))
  }

  /** What the geography of a save came to, against the row, the region table and the register. */
  ghost predicate Fits(b: Batch, dto: Update, provided: Option<set<string>>, c: Resolved, regions: Regions, sets: Sets) {
    && (c.setId.Some? ==> c.setId.value in sets && c.regionId == Some(sets[c.setId.value].anchorRegionId))
    && c.digest == DigestOf(c.setId, sets)
    && (dto.regionId.Value? ==> c.regionId == Some(dto.regionId.v))
    && (c.regionId.None? ==> b.metadata.regionId.None?)
    && if CoverageSent(dto, provided) then NamesAsked(b, dto, c, regions, sets)
       else c.setId == b.coverageSetId && (c.setId.None? ==> c.regionId == Requested(b, dto))
  }

  /** The row `b'` is `b` under the update statement of some geography that fits. */
  ghost predicate Written(b: Batch, dto: Update, provided: Option<set<string>>, regions: Regions, sets: Sets, b': Batch) {
    exists c :: Fits(b, dto, provided, c, regions, sets) && b' == ApplyWrite(b, WriteFor(b, dto, provided, c))
  }

  /** The fingerprint that was computed beforehand is the one the written columns spell. */
  lemma WriteSpellsItsRow(b: Batch, dto: Update, provided: Option<set<string>>, c: Resolved, regions: Regions, sets: Sets)
    requires SetKnown(b, sets) && Fits(b, dto, provided, c, regions, sets)
    ensures var b' := ApplyWrite(b, WriteFor(b, dto, provided, c));
            IdentityOk(b', sets) && Saved(b, dto, provided, b')
  {
    hide Fingerprint;
    ReadBackExactly(b, dto, provided, c, sets);
  }

  /** The stored fingerprint is the fingerprint of the stored facts. */
  ghost predicate IdentityOk(b: Batch, sets: Sets) {
    SetKnown(b, sets) && b.fingerprint == Fingerprint(StoredFacts(b, sets))
  }

  ghost predicate Distinct(batches: map<string, Batch>) {
    forall i, j | i in batches && j in batches && i != j
                  && batches[i].reading.workspaceId == batches[j].reading.workspaceId ::
      batches[i].fingerprint != batches[j].fingerprint
      && (batches[i].observationKey.Some? ==> batches[i].observationKey != batches[j].observationKey)
  }

  /** Every batch spells its own facts, and no workspace holds one identity twice. */
  ghost predicate StoreOk(batches: map<string, Batch>, sets: Sets) {
    (forall i | i in batches :: IdentityOk(batches[i], sets)) && Distinct(batches)
  }

  /** The row intake writes for a request. */
  function StoredMetadata(dto: Metadata): Metadata {
    dto.(effectiveDate := if dto.effectiveDate == Some(Blank) then None else dto.effectiveDate,
         priceCoverageDeclared := Some(dto.priceCoverageDeclared == Some(true)))
  }

  /** What a read mints from a request is what its stored row spells. */
  lemma IntakeSpellsItsRow(r: Reading, dto: Metadata)
    ensures Fingerprint(Facts(r, dto, None)) == Fingerprint(Facts(r, StoredMetadata(dto), None))
  {
    SameImportSameFingerprint(Facts(r, dto, None), Facts(r, StoredMetadata(dto), None));
  }

  lemma StoredIdentity(batches: map<string, Batch>, sets: Sets, id: string)
    requires StoreOk(batches, sets) && id in batches
    ensures IdentityOk(batches[id], sets) && SetKnown(batches[id], sets)
  {
  }

  /** A row whose fingerprint and observation no other row of its workspace holds keeps both indexes unique. */
  lemma NewBatchKeepsDistinct(batches: map<string, Batch>, id: string, b: Batch)
    requires Distinct(batches)
    requires forall i | i in batches && i != id && batches[i].reading.workspaceId == b.reading.workspaceId ::
               batches[i].fingerprint != b.fingerprint
               && (b.observationKey.Some? ==> batches[i].observationKey != b.observationKey)
    ensures Distinct(batches[id := b])
  {
  }

  // ---------------------------------------------------------------- the store

  class ImportStore {
    var batches: map<string, Batch>
    const register: Coverage.CoverageRegister

    ghost predicate Valid()
      reads this, register
    {
      register.Valid() && StoreOk(batches, register.sets)
    }

    constructor (register: Coverage.CoverageRegister)
      requires register.Valid()
      ensures Valid() && batches == map[] && this.register == register
    {
      batches := map[];
      this.register := register;
    }

    /**
     * The one intake door. It refuses exactly an incoherent claim or an observation held for another
     * source; a retry or an identical read answers with the batch that exists, and a batch is created
     * exactly when neither the observation nor the fingerprint is held.
     */
    method Intake(reading: Reading, actor: string, observationKey: Option<string>, dto: Metadata, newId: string)
      returns (r: Result<Receipt, Refusal>)
      requires Valid() && newId !in batches
      modifies this`batches
      ensures Valid()
      ensures r.Ok? <==> Coherent(ClaimOf(dto), DayOf(dto.effectiveDate))
                         && !ObservedElsewhere(old(batches), reading, observationKey)
      ensures r == Ok(Receipt(newId, false)) <==>
                && Coherent(ClaimOf(dto), DayOf(dto.effectiveDate))
                && !Observed(old(batches), reading.workspaceId, observationKey)
                && !HeldElsewhere(old(batches), newId, reading.workspaceId, Fingerprint(Facts(reading, dto, None)))
      ensures r == Ok(Receipt(newId, false)) ==>
                batches == old(batches)[newId := Batch(reading, actor, observationKey, StoredMetadata(dto), None,
                                                       None, None, NeedsReview, 0,
                                                       Fingerprint(Facts(reading, dto, None)))]
      ensures r.Err? || r.value.replay ==> batches == old(batches)
      ensures r.Ok? && r.value.replay ==>
                && r.value.id in batches && batches[r.value.id].reading.workspaceId == reading.workspaceId
                && ((observationKey.Some? && batches[r.value.id].observationKey == observationKey
                       && batches[r.value.id].reading.sourceSha256 == reading.sourceSha256)
                    || batches[r.value.id].fingerprint == Fingerprint(Facts(reading, dto, None)))
      ensures r.Ok? && !r.value.replay ==> r.value.id == newId
    {
      hide Fingerprint;
      var issue := TemporalIssue(ClaimOf(dto), DayOf(dto.effectiveDate));
      if issue.Some? {
        return Err(Incoherent(issue.value));
      }
      if observationKey.Some? {
        var held := FindByObservation(reading.workspaceId, observationKey);
        if held.Some? {
          return if batches[held.value].reading.sourceSha256 != reading.sourceSha256
                 then Err(SourceObservationConflict(held.value))
                 else Ok(Receipt(held.value, true));
        }
      }
      var fingerprint := Fingerprint(Facts(reading, dto, None));
      var existing := FindByFingerprint(reading.workspaceId, fingerprint, newId);
      if existing.Some? {
        return Ok(Receipt(existing.value, true));
      }
      IntakeSpellsItsRow(reading, dto);
      var batch := Batch(reading, actor, observationKey, StoredMetadata(dto), None, None, None, NeedsReview, 0, fingerprint);
      NewBatchKeepsDistinct(batches, newId, batch);
      batches := batches[newId := batch];
      return Ok(Receipt(newId, false));
    }

    method FindByObservation(workspaceId: string, key: Option<string>) returns (found: Option<string>)
      ensures found.Some? ==> found.value in batches && batches[found.value].reading.workspaceId == workspaceId
                              && batches[found.value].observationKey == key
      ensures found.None? ==>
                forall i | i in batches && batches[i].reading.workspaceId == workspaceId :: batches[i].observationKey != key
    {
      if i :| i in batches && batches[i].reading.workspaceId == workspaceId && batches[i].observationKey == key {
        return Some(i);
      }
      return None;
    }

    /** The batch of the workspace, other than `except`, that holds the fingerprint. */
    method FindByFingerprint(workspaceId: string, fingerprint: string, except: string) returns (found: Option<string>)
      ensures found.Some? ==> found.value in batches && batches[found.value].reading.workspaceId == workspaceId
                              && batches[found.value].fingerprint == fingerprint && found.value != except
      ensures found.None? ==>
                forall i | i in batches && i != except && batches[i].reading.workspaceId == workspaceId ::
                  batches[i].fingerprint != fingerprint
    {
      if i :| i in batches && i != except && batches[i].reading.workspaceId == workspaceId
              && batches[i].fingerprint == fingerprint {
        return Some(i);
      }
      return None;
    }

    /** Zero or one village stays scalar; two or more resolve to one register entry; silence keeps what is stored. */
    method ResolveCoverage(b: Batch, dto: Update, provided: Option<set<string>>, candidateId: string)
      returns (r: Result<Resolved, Coverage.Refusal>)
      requires Valid() && IdentityOk(b, register.sets) && candidateId !in register.sets
      modifies register`sets
      ensures register.Valid() && Grown(old(register.sets), register.sets)
      ensures r.Ok? <==> CoverageAllowed(b, dto, provided, register.regions, old(register.sets))
      ensures r.Ok? ==> r.value == Geography(b, dto, provided, register.regions, old(register.sets), candidateId)
                        && Fits(b, dto, provided, r.value, register.regions, register.sets)
      ensures r.Err? ==> register.sets == old(register.sets)
    {
      hide Fingerprint, StoredFacts, Coverage.Names, Coverage.RegisterOk, Coverage.RegionsOk, Coverage.Lawful,
           Coverage.DigestTaken, Coverage.SetIdFor, Coverage.RowsOf, Coverage.CoverageOf;
      var requested := Requested(b, dto);
      if !CoverageSent(dto, provided) {
        if b.coverageSetId.None? {
          return Ok(Resolved(requested, None, None));
        }
        var current := register.sets[b.coverageSetId.value];
        if !dto.regionId.Absent? && dto.regionId != Value(current.anchorRegionId) {
          return Err(Coverage.ExplicitSelectionRequired);
        }
        return Ok(Resolved(Some(current.anchorRegionId), b.coverageSetId, Some(current.digest)));
      }
      var memberIds := Asked(dto);
      if exists i, j | 0 <= i < j < |memberIds| :: memberIds[i] == memberIds[j] {
        return Err(Coverage.DuplicateMember);
      }
      if |memberIds| == 0 {
        return Ok(Resolved(requested, None, None));
      }
      var regions := register.regions;
      if |memberIds| == 1 {
        var v := memberIds[0];
        if v !in regions || !regions[v].isActive || !regions[v].level.Village? {
          return Err(Coverage.MemberMustBeActiveVillage);
        }
        if !dto.regionId.Absent? && dto.regionId != Value(v) {
          return Err(Coverage.ScalarMismatch);
        }
        return Ok(Resolved(Some(v), None, None));
      }
      r := ResolveMany(requested, memberIds, candidateId);
    }

    method ResolveMany(anchorId: Option<string>, memberIds: seq<string>, candidateId: string)
      returns (r: Result<Resolved, Coverage.Refusal>)
      requires register.Valid() && candidateId !in register.sets && |memberIds| > 1 && Coverage.NoRepeats(memberIds)
      modifies register`sets
      ensures register.Valid() && Grown(old(register.sets), register.sets)
      ensures r.Ok? <==> SeveralAllowed(register.regions, anchorId, memberIds)
                         && !Coverage.DigestTaken(old(register.sets), CoverageAsked(register.regions, anchorId, memberIds))
      ensures r.Ok? ==>
                var c := CoverageAsked(register.regions, anchorId, memberIds);
                && r.value == Resolved(anchorId, Some(Coverage.SetIdFor(old(register.sets), c, candidateId)), Some(c.digest))
                && SetNames(register.regions, register.sets, r.value.setId, anchorId, memberIds)
                && register.sets[r.value.setId.value] == Coverage.SetOf(c) && c.anchorRegionId == anchorId.value
      ensures r.Err? ==> register.sets == old(register.sets)
      ensures r.Err? && Coverage.CodesReadable(register.regions) ==> r.error != Coverage.DigestCollision
    {
      hide Coverage.RegionsOk, Coverage.RegisterOk, Coverage.Lawful, Coverage.CodesReadable, Coverage.DigestTaken,
           Coverage.SetIdFor, Coverage.RowsOf, Coverage.Names;
      if anchorId.None? || anchorId.value !in register.regions {
        return Err(Coverage.AnchorMustBeActiveDistrict);
      }
      var anchor := register.regions[anchorId.value];
      var members := register.LoadMembers(memberIds);
      if |members| != |memberIds| {
        return Err(Coverage.RegionNotFound);
      }
      var canonical := Coverage.Canonicalize(anchor, members);
      if canonical.Err? {
        CanonicalRefusals(anchor, members, canonical);
        return Err(canonical.error);
      }
      Coverage.RowOfTable(register.regions, anchorId.value);
      Coverage.RowsNamed(register.regions, anchor, members);
      var interned := register.Intern(canonical.value, candidateId);
      if interned.Err? {
        return Err(interned.error);
      }
      return Ok(Resolved(Some(canonical.value.anchorRegionId), Some(interned.value), Some(canonical.value.digest)));
    }

    /**
     * A metadata save. It succeeds exactly when it is allowed, its geography resolves, its prices permit
     * it and no other batch holds the identity it makes. On success one row is written, column by column,
     * its version and the recomputed fingerprint with it, and that fingerprint is still the one its stored
     * facts spell; issued prices keep their place and linked ones every fact they were judged by. On
     * refusal nothing is written, coverage sets included.
     */
    method UpdateMetadata(workspaceId: string, batchId: string, dto: Update, account: string,
                          provided: Option<set<string>>, hasPrices: bool, hasLinkedPrices: bool,
                          spelling: string -> string, candidateId: string)
      returns (r: Result<nat, Refusal>)
      requires Valid() && candidateId !in register.sets
      modifies this`batches, register`sets
      ensures Valid()
      ensures r.Ok? <==> CanSave(old(batches), old(register.sets), register.regions, batchId, workspaceId, dto, account,
                                 provided, hasPrices, hasLinkedPrices, spelling, candidateId)
      ensures r.Err? ==> batches == old(batches) && register.sets == old(register.sets)
      ensures r.Ok? ==> OneSaved(old(batches), batches, batchId, workspaceId, dto, account, provided,
                                 register.regions, register.sets)
                        && PricesRespected(old(batches)[batchId], batches[batchId], dto, provided, hasPrices,
                                           hasLinkedPrices, spelling)
                        && Grown(old(register.sets), register.sets)
                        && r.value == batches[batchId].version
      ensures r.Err? && r.error.IdentityAlreadyExists? ==>
                r.error.existing in batches && batchId in batches && r.error.existing != batchId
    {
      hide StoreOk, SaveAllowed, OneSaved, Grown, PricesRespected, IdentityOk, WriteFor, ApplyWrite, Fits, Geography,
           CoverageAllowed, PricesPermit, HeldElsewhere, FinalFacts, Fingerprint, SetKnown, CoverageSent,
           Coverage.RegisterOk, Coverage.RegionsOk;
      if batchId !in batches {
        return Err(BatchNotFound);
      }
      var b, savedSets := batches[batchId], register.sets;
      if b.reading.workspaceId != workspaceId || b.uploadedBy != account {
        NotAllowedElsewhere(b, workspaceId, dto, account, provided);
        return Err(BatchNotFound);
      }
      var refusal := CheckSave(b, dto, provided);
      if refusal.Some? {
        return Err(refusal.value);
      }
      StoredIdentity(batches, savedSets, batchId);
      var resolved := ResolveCoverage(b, dto, provided, candidateId);
      if resolved.Err? {
        return Err(RegionCoverageRefused(resolved.error));
      }
      var c := resolved.value;
      GrownSetsKeepStore(batches, savedSets, register.sets);
      refusal := SaveResolved(batchId, dto, provided, c, hasPrices, hasLinkedPrices, spelling, savedSets);
      if refusal.Some? {
        return Err(refusal.value);
      }
      OneSavedIntro(old(batches), batchId, c, workspaceId, dto, account, provided, register.regions, register.sets);
      return Ok(batches[batchId].version);
    }

    /** The geography is known: the prices decide, then the unique index; a refusal takes the coverage set back. */
    method SaveResolved(batchId: string, dto: Update, provided: Option<set<string>>, c: Resolved, hasPrices: bool,
                        hasLinkedPrices: bool, spelling: string -> string, savedSets: Sets)
      returns (refusal: Option<Refusal>)
      requires Valid() && batchId in batches && Fits(batches[batchId], dto, provided, c, register.regions, register.sets)
      requires Coverage.RegisterOk(register.regions, savedSets) && StoreOk(batches, savedSets)
      modifies this`batches, register`sets
      ensures Valid()
      ensures refusal.None? <==>
                && PricesPermit(old(batches)[batchId], dto, provided, c, hasPrices, hasLinkedPrices, spelling)
                && !HeldElsewhere(old(batches), batchId, old(batches)[batchId].reading.workspaceId,
                                  Fingerprint(FinalFacts(old(batches)[batchId], dto, provided, c)))
      ensures refusal.None? ==>
                && register.sets == old(register.sets) && batchId in batches
                && batches == old(batches)[batchId := ApplyWrite(old(batches)[batchId],
                                                                 WriteFor(old(batches)[batchId], dto, provided, c))]
                && PricesRespected(old(batches)[batchId], batches[batchId], dto, provided, hasPrices, hasLinkedPrices, spelling)
      ensures refusal.Some? ==> batches == old(batches) && register.sets == savedSets
      ensures refusal.Some? && refusal.value.IdentityAlreadyExists? ==>
                refusal.value.existing in batches && refusal.value.existing != batchId
    {
      hide StoreOk, PricesRespected, IdentityOk, WriteFor, ApplyWrite, Fits, PricesPermit, HeldElsewhere, FinalFacts,
           Fingerprint, SetKnown, CoverageSent, Coverage.RegisterOk, Coverage.RegionsOk;
      var b := batches[batchId];
      StoredIdentity(batches, register.sets, batchId);
      if !CoverageSent(dto, provided) {
        SilenceKeepsSet(b, dto, provided, c, register.regions, register.sets);
      }
      refusal := CheckPrices(b, dto, provided, c, hasPrices, hasLinkedPrices, spelling);
      if refusal.None? {
        WriteSpellsItsRow(b, dto, provided, c, register.regions, register.sets);
        WrittenFingerprint(b, dto, provided, c);
        UnchangedByWrite(b, dto, provided, c);
        refusal := TryCommit(batchId, ApplyWrite(b, WriteFor(b, dto, provided, c)));
      }
      if refusal.Some? {
        Rollback(savedSets);
      }
    }

    /** A refused save leaves no coverage set behind. */
    method Rollback(sets: Sets)
      requires Coverage.RegionsOk(register.regions) && Coverage.RegisterOk(register.regions, sets) && StoreOk(batches, sets)
      modifies register`sets
      ensures Valid() && register.sets == sets
    {
      register.sets := sets;
    }

    /** The unique index decides: the new identity is written, or the batch that holds it is named. */
    method TryCommit(batchId: string, updated: Batch) returns (refusal: Option<Refusal>)
      requires Valid() && batchId in batches && IdentityOk(updated, register.sets)
      requires updated.reading.workspaceId == batches[batchId].reading.workspaceId
      requires updated.observationKey == batches[batchId].observationKey
      modifies this`batches
      ensures Valid()
      ensures refusal.None? ==> batches == old(batches)[batchId := updated]
      ensures refusal.None? <==> !HeldElsewhere(old(batches), batchId, updated.reading.workspaceId, updated.fingerprint)
      ensures refusal.Some? ==>
                && batches == old(batches) && refusal.value.IdentityAlreadyExists?
                && refusal.value.existing in batches && refusal.value.existing != batchId
                && batches[refusal.value.existing].fingerprint == updated.fingerprint
    {
      hide Fingerprint;
      var holder := FindByFingerprint(updated.reading.workspaceId, updated.fingerprint, batchId);
      if holder.Some? {
        return Some(IdentityAlreadyExists(holder.value));
      }
      NewBatchKeepsDistinct(batches, batchId, updated);
      batches := batches[batchId := updated];
      return None;
    }
  }

  // ---------------------------------------------------------------- what issued prices hold in place

  /** The publisher a price was judged by: the vendor, else the organisation, as stored. */
  function SourceName(m: Metadata): Option<string> {
    var vendor, organization := Text.Trim(StringText(m.sourceVendorName)), Text.Trim(StringText(m.sourceOrganizationName));
    if vendor != "" then Some(vendor) else if organization != "" then Some(organization) else None
  }

  /** `spelling` removes differences of case, width and white space. */
  function Publisher(m: Metadata, spelling: string -> string): string {
    if SourceName(m).Some? then spelling(SourceName(m).value) else ""
  }

  predicate SamePlace(b: Batch, b': Batch) {
    b'.metadata.regionId == b.metadata.regionId && b'.coverageSetId == b.coverageSetId
  }

  /** Everything but the effective date that a linked price was judged by. */
  predicate SameJudgedFacts(b: Batch, b': Batch, spelling: string -> string) {
    && SamePlace(b, b') && b'.reviewDate == b.reviewDate
    && b'.metadata.sourceType == b.metadata.sourceType && b'.metadata.sourceOrigin == b.metadata.sourceOrigin
    && Publisher(b'.metadata, spelling) == Publisher(b.metadata, spelling)
    && ClaimOf(b'.metadata) == ClaimOf(b.metadata)
  }

  /** A date arrived for another day although the key was not listed as sent. */
  predicate UnlistedDate(b: Batch, dto: Update, provided: Option<set<string>>) {
    !Sent("effectiveDate", provided) && SentDate(dto).Some? && DayOf(SentDate(dto)) != DayOf(b.metadata.effectiveDate)
  }

  /**
   * No committed save moves the place of a batch with issued prices, nor any judged fact of a batch
   * with linked ones; the effective day alone can slip through, exactly when it arrived unlisted.
   */
  predicate PricesRespected(b: Batch, b': Batch, dto: Update, provided: Option<set<string>>, hasPrices: bool,
                            hasLinkedPrices: bool, spelling: string -> string) {
    && (hasPrices ==> SamePlace(b, b'))
    && (hasLinkedPrices ==>
          && SameJudgedFacts(b, b', spelling)
          && (DayOf(b'.metadata.effectiveDate) == DayOf(b.metadata.effectiveDate) <==> !UnlistedDate(b, dto, provided)))
  }

  /** The comparison the writer makes, before it writes, on the merged values. */
  predicate ContextWouldChange(b: Batch, dto: Update, provided: Option<set<string>>, c: Resolved,
                               spelling: string -> string) {
    var final := FinalMetadata(b, dto, provided, c.regionId);
    || DayOf(b.metadata.effectiveDate) != DayOf(ValidatedDate(b, dto, provided))
    || b.reviewDate != Patch(dto.reviewDate, "reviewDate", provided, b.reviewDate)
    || b.metadata.sourceType != final.sourceType || b.metadata.sourceOrigin != final.sourceOrigin
    || Publisher(b.metadata, spelling) != Publisher(final, spelling)
    || ClaimOf(b.metadata) != ClaimOf(final)
  }

  lemma SilenceKeepsSet(b: Batch, dto: Update, provided: Option<set<string>>, c: Resolved, regions: Regions, sets: Sets)
    requires Fits(b, dto, provided, c, regions, sets) && !CoverageSent(dto, provided)
    ensures c.setId == b.coverageSetId
  {
  }

  /** The place may move only without prices, the judged facts only without linked ones. */
  predicate PricesPermit(b: Batch, dto: Update, provided: Option<set<string>>, c: Resolved, hasPrices: bool,
                         hasLinkedPrices: bool, spelling: string -> string) {
    && (b.metadata.regionId != c.regionId || b.coverageSetId != c.setId ==> !hasPrices && !hasLinkedPrices)
    && (ContextWouldChange(b, dto, provided, c, spelling) ==> !hasLinkedPrices)
  }

  method CheckPrices(b: Batch, dto: Update, provided: Option<set<string>>, c: Resolved,
                     hasPrices: bool, hasLinkedPrices: bool, spelling: string -> string)
    returns (refusal: Option<Refusal>)
    requires !CoverageSent(dto, provided) ==> c.setId == b.coverageSetId
    ensures refusal.None? <==> PricesPermit(b, dto, provided, c, hasPrices, hasLinkedPrices, spelling)
    ensures refusal.None? ==>
              PricesRespected(b, ApplyWrite(b, WriteFor(b, dto, provided, c)), dto, provided, hasPrices, hasLinkedPrices,
                              spelling)
    ensures refusal.Some? ==> refusal.value in {RegionScopeHasPrices, LinkContextImmutable} && (hasPrices || hasLinkedPrices)
  {
    hide Fingerprint, Publisher;
    var geographic := b.metadata.regionId != c.regionId || b.coverageSetId != c.setId;
    var changed := geographic || ContextWouldChange(b, dto, provided, c, spelling);
    WriteIsSaved(b, dto, provided, c);
    if !changed {
      return None;
    }
    if geographic && hasPrices {
      return Some(RegionScopeHasPrices);
    }
    return if hasLinkedPrices then Some(LinkContextImmutable) else None;
  }

  lemma WriteIsSaved(b: Batch, dto: Update, provided: Option<set<string>>, c: Resolved)
    ensures Saved(b, dto, provided, ApplyWrite(b, WriteFor(b, dto, provided, c)))
  {
    hide Fingerprint;
  }

  lemma GrownSetsKeepStore(batches: map<string, Batch>, sets: Sets, sets': Sets)
    requires StoreOk(batches, sets) && Grown(sets, sets')
    ensures StoreOk(batches, sets')
  {
    hide Fingerprint;
    forall i | i in batches
      ensures IdentityOk(batches[i], sets')
    {
      assert IdentityOk(batches[i], sets);
    }
  }

  /** Validation refuses for its own reasons, never for a digest. */
  lemma CanonicalRefusals(anchor: Coverage.Region, ms: seq<Coverage.Region>, r: Result<Coverage.Coverage, Coverage.Refusal>)
    requires r.Err?
    requires anchor.isActive && anchor.level.District? && |ms| >= 2 ==>
               exists k | 0 <= k < |ms| :: Coverage.MemberIssue(anchor, ms, k) == Some(r.error)
    requires !(anchor.isActive && anchor.level.District? && |ms| >= 2) ==>
               r.error in {Coverage.AnchorMustBeActiveDistrict, Coverage.RequiresMultipleVillages}
    ensures r.error != Coverage.DigestCollision
  {
  }

  /** The gates between the lock and the coverage, in order. */
  method CheckSave(b: Batch, dto: Update, provided: Option<set<string>>) returns (refusal: Option<Refusal>)
    ensures refusal.None? <==> SaveAllowed(b, b.reading.workspaceId, dto, b.uploadedBy, provided)
    ensures refusal.Some? ==> refusal.value in {VersionStale, NotMutable, DateDecisionRequired} || refusal.value.Incoherent?
  {
    if b.version != dto.version {
      return Some(VersionStale);
    }
    if !b.status.NeedsReview? && !b.status.ReadyForReview? {
      return Some(NotMutable);
    }
    if DateChanged(b, dto, provided) && b.metadata.effectiveDateProvenance.Some?
       && !Sent("effectiveDateProvenance", provided) {
      return Some(DateDecisionRequired);
    }
    var issue := TemporalIssue(MergedClaim(b, dto, provided), DayOf(ValidatedDate(b, dto, provided)));
    return if issue.Some? then Some(Incoherent(issue.value)) else None;
  }

  /** A date was requested and it names another day, or one side names none. */
  predicate DateChanged(b: Batch, dto: Update, provided: Option<set<string>>) {
    Sent("effectiveDate", provided) && DayOf(SentDate(dto)) != DayOf(b.metadata.effectiveDate)
  }

  predicate SaveAllowed(b: Batch, workspaceId: string, dto: Update, account: string, provided: Option<set<string>>) {
    && b.reading.workspaceId == workspaceId && b.uploadedBy == account
    && b.version == dto.version && (b.status.NeedsReview? || b.status.ReadyForReview?)
    && (DateChanged(b, dto, provided) ==>
          b.metadata.effectiveDateProvenance.None? || Sent("effectiveDateProvenance", provided))
    && Coherent(MergedClaim(b, dto, provided), DayOf(ValidatedDate(b, dto, provided)))
  }

  ghost predicate Grown(sets: Sets, sets': Sets) {
    forall i | i in sets :: i in sets' && sets'[i] == sets[i]
  }

  lemma NotAllowedElsewhere(b: Batch, workspaceId: string, dto: Update, account: string, provided: Option<set<string>>)
    requires b.reading.workspaceId != workspaceId || b.uploadedBy != account
    ensures !SaveAllowed(b, workspaceId, dto, account, provided)
  {
  }

  lemma WrittenFingerprint(b: Batch, dto: Update, provided: Option<set<string>>, c: Resolved)
    ensures ApplyWrite(b, WriteFor(b, dto, provided, c)).fingerprint == Fingerprint(FinalFacts(b, dto, provided, c))
  {
    hide Fingerprint, FinalFacts;
  }

  /** The workspace has a batch of this observation. */
  predicate Observed(batches: map<string, Batch>, workspaceId: string, key: Option<string>) {
    key.Some? && exists i | i in batches :: batches[i].reading.workspaceId == workspaceId && batches[i].observationKey == key
  }

  /** The observation is on record for a source of other content. */
  predicate ObservedElsewhere(batches: map<string, Batch>, reading: Reading, key: Option<string>) {
    key.Some? && exists i | i in batches ::
      && batches[i].reading.workspaceId == reading.workspaceId && batches[i].observationKey == key
      && batches[i].reading.sourceSha256 != reading.sourceSha256
  }

  /** Another batch of the workspace holds the fingerprint. */
  predicate HeldElsewhere(batches: map<string, Batch>, id: string, workspaceId: string, fingerprint: string) {
    exists i | i in batches ::
      i != id && batches[i].reading.workspaceId == workspaceId && batches[i].fingerprint == fingerprint
  }

  /** Exactly when a save goes through, read off the state before it. */
  ghost predicate CanSave(batches: map<string, Batch>, sets: Sets, regions: Regions, id: string, workspaceId: string,
                          dto: Update, account: string, provided: Option<set<string>>, hasPrices: bool,
                          hasLinkedPrices: bool, spelling: string -> string, candidateId: string) {
    && id in batches && SetKnown(batches[id], sets)
    && SaveAllowed(batches[id], workspaceId, dto, account, provided)
    && CoverageAllowed(batches[id], dto, provided, regions, sets)
    && var c := Geography(batches[id], dto, provided, regions, sets, candidateId);
    && PricesPermit(batches[id], dto, provided, c, hasPrices, hasLinkedPrices, spelling)
    && !HeldElsewhere(batches, id, workspaceId, Fingerprint(FinalFacts(batches[id], dto, provided, c)))
  }

  /** Exactly one batch changed, by a save it allowed. */
  ghost predicate OneSaved(batches: map<string, Batch>, batches': map<string, Batch>, id: string, workspaceId: string,
                           dto: Update, account: string, provided: Option<set<string>>, regions: Regions, sets: Sets) {
    && id in batches && id in batches' && batches' == batches[id := batches'[id]]
    && SaveAllowed(batches[id], workspaceId, dto, account, provided)
    && Saved(batches[id], dto, provided, batches'[id])
    && Written(batches[id], dto, provided, regions, sets, batches'[id])
  }

  lemma OneSavedIntro(batches: map<string, Batch>, id: string, c: Resolved, workspaceId: string,
                      dto: Update, account: string, provided: Option<set<string>>, regions: Regions, sets: Sets)
    requires id in batches && Fits(batches[id], dto, provided, c, regions, sets)
    requires SaveAllowed(batches[id], workspaceId, dto, account, provided)
    ensures OneSaved(batches, batches[id := ApplyWrite(batches[id], WriteFor(batches[id], dto, provided, c))], id,
                     workspaceId, dto, account, provided, regions, sets)
  {
    hide Fingerprint, SaveAllowed, Fits, ApplyWrite, WriteFor, Saved;
    WriteIsSaved(batches[id], dto, provided, c);
  }

  lemma UnchangedByWrite(b: Batch, dto: Update, provided: Option<set<string>>, c: Resolved)
    ensures var b' := ApplyWrite(b, WriteFor(b, dto, provided, c));
            b'.reading == b.reading && b'.observationKey == b.observationKey
  {
    hide Fingerprint;
  }

  /** What a save may change, and what it changes it to. */
  predicate Saved(b: Batch, dto: Update, provided: Option<set<string>>, b': Batch) {
    && b'.reading == b.reading && b'.uploadedBy == b.uploadedBy && b'.observationKey == b.observationKey
    && b'.status == b.status && b'.version == b.version + 1
    && b'.metadata == FinalMetadata(b, dto, provided, b'.metadata.regionId)
    && b'.reviewDate == Patch(dto.reviewDate, "reviewDate", provided, b.reviewDate)
  }
}

/** What intake and any number of metadata saves keep about one batch. */
module ImportBatchLaws {
  import opened Outcomes
  import opened ImportIdentity
  import opened TemporalProvenance
  import opened ImportBatches
  import Coverage = RegionCoverage

  // ---------------------------------------------------------------- identity over saves

  /** One save as the store ran it: the request and what its geography came to. */
  datatype Save = Save(dto: Update, provided: Option<set<string>>, resolved: Resolved)

  /** The row after one save's update statement. */
  function AfterSave(b: Batch, s: Save): Batch {
    ApplyWrite(b, WriteFor(b, s.dto, s.provided, s.resolved))
  }

  function AfterSaves(b: Batch, saves: seq<Save>): Batch
    decreases |saves|
  {
    if |saves| == 0 then b else AfterSaves(AfterSave(b, saves[0]), saves[1..])
  }

  /** Every save's geography fits the row it found. */
  ghost predicate AllFit(b: Batch, saves: seq<Save>, regions: Regions, sets: Sets)
    decreases |saves|
  {
    |saves| == 0
    || (Fits(b, saves[0].dto, saves[0].provided, saves[0].resolved, regions, sets)
        && AllFit(AfterSave(b, saves[0]), saves[1..], regions, sets))
  }

  /** The batch a read with empty metadata creates. */
  function Minted(r: Reading, actor: string, observationKey: Option<string>, dto: Metadata): Batch {
    Batch(r, actor, observationKey, StoredMetadata(dto), None, None, None, NeedsReview, 0, Fingerprint(Facts(r, dto, None)))
  }

  /** After any saves the fingerprint is the one the stored columns spell, and the reading is untouched. */
  lemma {:induction false} SavesKeepIdentity(b: Batch, saves: seq<Save>, regions: Regions, sets: Sets)
    requires AllFit(b, saves, regions, sets) && IdentityOk(b, sets)
    ensures IdentityOk(AfterSaves(b, saves), sets)
    ensures AfterSaves(b, saves).reading == b.reading
    decreases |saves|
  {
    hide Fingerprint, ApplyWrite, WriteFor, Fits;
    if |saves| > 0 {
      var s := saves[0];
      WriteSpellsItsRow(b, s.dto, s.provided, s.resolved, regions, sets);
      UnchangedByWrite(b, s.dto, s.provided, s.resolved);
      SavesKeepIdentity(AfterSave(b, s), saves[1..], regions, sets);
    }
  }

  /**
   * Reading a file with any metadata and then saving any number of times ends, when no coverage
   * set is stored, with the very fingerprint a fresh read of the same file under the final facts
   * mints, however those facts are spelled.
   */
  lemma SavesMeetFreshRead(r: Reading, actor: string, key: Option<string>, first: Metadata, saves: seq<Save>,
                           regions: Regions, sets: Sets, again: Metadata)
    requires AllFit(Minted(r, actor, key, first), saves, regions, sets)
    requires var b := AfterSaves(Minted(r, actor, key, first), saves);
             b.coverageSetId.None? && SameMetadata(again, b.metadata)
    ensures AfterSaves(Minted(r, actor, key, first), saves).fingerprint == Minted(r, actor, key, again).fingerprint
  {
    hide Fingerprint, AllFit, AfterSaves;
    IntakeSpellsItsRow(r, first);
    var b0 := Minted(r, actor, key, first);
    SavesKeepIdentity(b0, saves, regions, sets);
    var b := AfterSaves(b0, saves);
    SameImportSameFingerprint(StoredFacts(b, sets), Facts(r, again, None));
  }

  /** Without separators in the values, a fresh read finds the batch only if it states the batch's facts. */
  lemma FreshReadFindsOnlyItsFacts(b: Batch, sets: Sets, r: Reading, again: Metadata)
    requires IdentityOk(b, sets)
    requires SeparatorFree(StoredFacts(b, sets)) && SeparatorFree(Facts(r, again, None))
    ensures b.fingerprint == Fingerprint(Facts(r, again, None)) <==> SameIdentity(StoredFacts(b, sets), Facts(r, again, None))
  {
    FingerprintDeterminesFacts(StoredFacts(b, sets), Facts(r, again, None));
  }

  // ---------------------------------------------------------------- coverage sets over saves

  /** The set a save stored still names the villages it asked for, however much the register has grown. */
  lemma NamesStay(regions: Regions, sets: Sets, sets': Sets, setId: Option<string>, anchorId: Option<string>, ids: seq<string>)
    requires SetNames(regions, sets, setId, anchorId, ids) && Grown(sets, sets')
    ensures SetNames(regions, sets', setId, anchorId, ids)
  {
    hide Coverage.Names, Coverage.RowsOf;
  }

  /** A save that lists villages stores a set exactly when it lists several, and then the set that names them. */
  lemma SaveStoresItsVillages(b: Batch, dto: Update, provided: Option<set<string>>, regions: Regions, sets: Sets, b': Batch)
    requires Written(b, dto, provided, regions, sets, b') && CoverageSent(dto, provided)
    ensures b'.coverageSetId.Some? <==> |Asked(dto)| > 1
    ensures |Asked(dto)| > 1 ==> SetNames(regions, sets, b'.coverageSetId, Requested(b, dto), Asked(dto))
    ensures |Asked(dto)| > 1 ==> b'.metadata.regionId == Requested(b, dto)
    ensures |Asked(dto)| == 1 ==> b'.metadata.regionId == Some(Asked(dto)[0])
  {
    hide Fingerprint, Coverage.Names, Coverage.RowsOf;
    var c :| Fits(b, dto, provided, c, regions, sets) && b' == ApplyWrite(b, WriteFor(b, dto, provided, c));
  }

  /**
   * Two saves of any batches, with any number of others between them, store one coverage set exactly
   * when they list the same villages, in whatever order, under the same district.
   */
  lemma SavesShareSetExactly(regions: Regions, sets: Sets, sets': Sets,
                             b: Batch, dto: Update, provided: Option<set<string>>, b': Batch,
                             d: Batch, other: Update, given: Option<set<string>>, d': Batch)
    requires Coverage.RegionsOk(regions) && Coverage.RegisterOk(regions, sets') && Grown(sets, sets')
    requires Written(b, dto, provided, regions, sets, b') && CoverageSent(dto, provided) && |Asked(dto)| > 1
    requires Written(d, other, given, regions, sets', d') && CoverageSent(other, given) && |Asked(other)| > 1
    ensures b'.coverageSetId == d'.coverageSetId <==>
            Requested(b, dto) == Requested(d, other) && forall x :: x in Asked(dto) <==> x in Asked(other)
  {
    hide Written, ApplyWrite, WriteFor, Grown, Coverage.Names, Coverage.RegionsOk, Coverage.RegisterOk, Coverage.RowsOf;
    SaveStoresItsVillages(b, dto, provided, regions, sets, b');
    SaveStoresItsVillages(d, other, given, regions, sets', d');
    NamesStay(regions, sets, sets', b'.coverageSetId, Requested(b, dto), Asked(dto));
    var i, j := b'.coverageSetId.value, d'.coverageSetId.value;
    var x, y := Requested(b, dto).value, Requested(d, other).value;
    var ms, ns := Coverage.RowsOf(regions, Asked(dto)), Coverage.RowsOf(regions, Asked(other));
    Coverage.OneIdPerVillageSet(regions, sets', i, j, regions[x], ms, regions[y], ns);
    Coverage.SameRowsSameIds(regions, Asked(dto), Asked(other));
    Coverage.RowOfTable(regions, x);
    Coverage.RowOfTable(regions, y);
  }

  // ---------------------------------------------------------------- the date that is validated and the date that is written

  /** The client sent the key with nothing in it, over a stored date. */
  predicate ExplicitlyEmptied(b: Batch, dto: Update, provided: Option<set<string>>) {
    Sent("effectiveDate", provided) && SentDate(dto).None? && DayOf(b.metadata.effectiveDate).Some?
  }

  /** Exactly when the save validates one day and writes another. */
  lemma DatesDiffer(b: Batch, dto: Update, provided: Option<set<string>>)
    ensures DayOf(ValidatedDate(b, dto, provided)) != DayOf(WrittenDate(b, dto)) <==>
            ExplicitlyEmptied(b, dto, provided) || UnlistedDate(b, dto, provided)
  {
  }

  /** The merged claim derives the written day, or claims no derivation, or there is no day to explain. */
  predicate ExplainsWritten(b: Batch, dto: Update, provided: Option<set<string>>) {
    var c := MergedClaim(b, dto, provided);
    c.provenance != Some(DERIVED) || DayOf(WrittenDate(b, dto)).None? || DerivedDay(c) == DayOf(WrittenDate(b, dto))
  }

  /**
   * An allowed save leaves the stored provenance coherent with the stored date, unless the date was
   * explicitly emptied (or arrived unlisted) and a derivation claim does not explain the date that stays.
   */
  lemma SaveKeepsCoherence(b: Batch, ws: string, dto: Update, account: string, provided: Option<set<string>>, b': Batch)
    requires SaveAllowed(b, ws, dto, account, provided) && Saved(b, dto, provided, b')
    ensures Coherent(ClaimOf(b'.metadata), DayOf(b'.metadata.effectiveDate)) <==>
            !((ExplicitlyEmptied(b, dto, provided) || UnlistedDate(b, dto, provided)) && !ExplainsWritten(b, dto, provided))
  {
    DatesDiffer(b, dto, provided);
    assert ClaimOf(b'.metadata) == MergedClaim(b, dto, provided);
    assert b'.metadata.effectiveDate == WrittenDate(b, dto);
  }

  /** A save that does not restate the provenance cannot slide an existing claim onto another day. */
  lemma DateChangeNeedsDecision(b: Batch, ws: string, dto: Update, account: string, keys: set<string>, b': Batch)
    requires SaveAllowed(b, ws, dto, account, Some(keys)) && Saved(b, dto, Some(keys), b')
    requires SentDate(dto).Some? ==> "effectiveDate" in keys
    requires b.metadata.effectiveDateProvenance.Some? && "effectiveDateProvenance" !in keys
    ensures DayOf(b'.metadata.effectiveDate) == DayOf(b.metadata.effectiveDate)
    ensures b'.metadata.effectiveDateProvenance == b.metadata.effectiveDateProvenance
  {
  }

  const NOTHING: Metadata :=
    Metadata(None, None, None, None, None, None, None, None, None, None, None, None, None, None, None)

  const SILENT: Update :=
    Update(0, Absent, Absent, Absent, Absent, Absent, Absent, Absent, Absent, Absent, Absent, Absent, Absent,
           Absent, Absent, Absent, Absent, Absent, None)

  const FIRST_DAY_OF_2024: Claim := Claim(Some("2024"), Some("YEAR"), Some(DERIVED), Some("PERIOD_START"))

  lemma ClaimOf2024(day: int)
    ensures Coherent(FIRST_DAY_OF_2024, None)
    ensures Coherent(FIRST_DAY_OF_2024, Some(day)) <==> day == 19723
  {
    var c := FIRST_DAY_OF_2024;
    TrimKeepsNonBlank("2024", 0);
    TrimKeepsNonBlank("PERIOD_START", 0);
    var y := 2024;
    assert YearAt("2024", 0) == y && Years("2024") == {y};
    assert Derives(c, y) && FirstOfJanuary(y) == 19723;
    CoherentDerivationExplains(c, day);
    forall z | Derives(c, z)
      ensures z == y
    {
      assert z in Years("2024");
    }
  }

  /** An emptied date together with the claim that the date is the first day of 2024. */
  const EMPTIED: Update :=
    SILENT.(effectiveDate := Null, effectiveDateProvenance := Value(DERIVED), sourcePeriodLabel := Value("2024"),
            sourcePeriodGranularity := Value("YEAR"), effectiveDateDerivationRule := Value("PERIOD_START"))

  const EMPTIED_KEYS: Option<set<string>> :=
    Some({"effectiveDate", "effectiveDateProvenance", "sourcePeriodLabel", "sourcePeriodGranularity",
          "effectiveDateDerivationRule"})

  /** Over a stored 5 March 2024 such a save is allowed, keeps that date and stores the claim. */
  lemma EmptiedDateExample(b: Batch)
    requires b.status.NeedsReview? && b.version == 0
    requires b.metadata == NOTHING.(effectiveDate := Some(At(19787 * MS_PER_DAY)), priceCoverageDeclared := Some(false))
    ensures var b' := AfterSave(b, Save(EMPTIED, EMPTIED_KEYS, Resolved(None, None, None)));
            && SaveAllowed(b, b.reading.workspaceId, EMPTIED, b.uploadedBy, EMPTIED_KEYS)
            && !Coherent(ClaimOf(b'.metadata), DayOf(b'.metadata.effectiveDate))
  {
    ClaimOf2024(19787);
    assert MergedClaim(b, EMPTIED, EMPTIED_KEYS) == FIRST_DAY_OF_2024;
    assert UtcDay(19787 * MS_PER_DAY) == 19787;
  }

  /** A date, and no list of the keys that were sent. */
  const UNLISTED: Update := SILENT.(effectiveDate := Value(At(19788 * MS_PER_DAY)))

  /** Over a stored 5 March 2024 such a save is allowed, sees no change of context, and moves the day. */
  lemma UnlistedDateExample(b: Batch, spelling: string -> string)
    requires b.status.NeedsReview? && b.version == 0 && b.coverageSetId.None?
    requires b.metadata == NOTHING.(effectiveDate := Some(At(19787 * MS_PER_DAY)), priceCoverageDeclared := Some(false))
    ensures var c := Resolved(None, None, None);
            && SaveAllowed(b, b.reading.workspaceId, UNLISTED, b.uploadedBy, None)
            && Fits(b, UNLISTED, None, c, map[], map[]) && !ContextWouldChange(b, UNLISTED, None, c, spelling)
            && DayOf(AfterSave(b, Save(UNLISTED, None, c)).metadata.effectiveDate) == Some(19788)
  {
    hide Fingerprint;
    assert UtcDay(19787 * MS_PER_DAY) == 19787 && UtcDay(19788 * MS_PER_DAY) == 19788;
    assert FinalMetadata(b, UNLISTED, None, None) == b.metadata.(effectiveDate := Some(At(19788 * MS_PER_DAY)));
  }
}

/** The fingerprint of an import batch: one text over every fact that makes two imports different. */
module ImportIdentity {
  import opened Outcomes
  import opened Text

  const MS_PER_DAY: int := 86400000

  /** A date as a client sends it: nothing but an empty string, or an instant in milliseconds. */
  datatype DateInput = Blank | At(instant: int)

  /** The mutable, identity-bearing facts, from a request or from a stored row. */
  datatype Metadata = Metadata(
    regionId: Option<string>,
    effectiveDate: Option<DateInput>,
    sourceType: Option<string>,
    sourceOrigin: Option<string>,
    sourceOrganizationName: Option<string>,
    sourceVendorName: Option<string>,
    sourcePeriodLabel: Option<string>,
    sourcePeriodGranularity: Option<string>,
    effectiveDateProvenance: Option<string>,
    effectiveDateDerivationRule: Option<string>,
    priceCoverageDeclared: Option<bool>,
    transportIncluded: Option<bool>,
    loadingIncluded: Option<bool>,
    unloadingIncluded: Option<bool>,
    deliveredToProject: Option<bool>)

  /** What the reading of the source left behind; never changed by a metadata save. */
  datatype Reading = Reading(
    workspaceId: string,
    organizationId: string,
    sourceSha256: string,
    sheetName: string,
    parserContractVersion: string,
    regionScopeLabel: Option<string>,
    ingestionChannel: string,
    connectorId: Option<string>,
    externalSourceId: Option<string>,
    externalRecordId: Option<string>,
    externalVersion: Option<string>,
    resourceNameColumn: Option<int>,
    sourceUnitColumn: Option<int>,
    declaredSection: Option<string>,
    kdnColumn: Option<int>)

  datatype Facts = Facts(reading: Reading, metadata: Metadata, coverageDigest: Option<string>)

  const KEYS: seq<string> := [
    "regionId", "effectiveDate", "sourceType", "sourceOrigin", "sourceOrganizationName", "sourceVendorName",
    "sourcePeriodLabel", "sourcePeriodGranularity", "effectiveDateProvenance", "effectiveDateDerivationRule",
    "priceCoverageDeclared", "transportIncluded", "loadingIncluded", "unloadingIncluded", "deliveredToProject"]

  // ---------------------------------------------------------------- the text of one value

  function UtcDay(instant: int): int {
    instant / MS_PER_DAY
  }

  /** The calendar day a date fact names; the spelling of a day is its number. */
  function DayText(d: DateInput): string {
    match d
    case Blank => ""
    case At(t) => Numeral(UtcDay(t))
  }

  function StringText(v: Option<string>): string {
    if v.Some? then v.value else ""
  }

  function DateText(v: Option<DateInput>): string {
    if v.Some? then DayText(v.value) else ""
  }

  function BoolText(v: Option<bool>): string {
    match v
    case None => ""
    case Some(b) => if b then "true" else "false"
  }

  /** A declared coverage at its column default reads as nobody having stated it. */
  function DeclaredText(v: Option<bool>): string {
    if v == Some(true) then "true" else ""
  }

  function MetadataTexts(m: Metadata): (ts: seq<string>)
    ensures |ts| == |KEYS|
  {
    [StringText(m.regionId), DateText(m.effectiveDate), StringText(m.sourceType), StringText(m.sourceOrigin),
     StringText(m.sourceOrganizationName), StringText(m.sourceVendorName), StringText(m.sourcePeriodLabel),
     StringText(m.sourcePeriodGranularity), StringText(m.effectiveDateProvenance),
     StringText(m.effectiveDateDerivationRule), DeclaredText(m.priceCoverageDeclared),
     BoolText(m.transportIncluded), BoolText(m.loadingIncluded), BoolText(m.unloadingIncluded),
     BoolText(m.deliveredToProject)]
  }

  /** `key:value` for every key, in the one declared order. */
  function Labelled(keys: seq<string>, texts: seq<string>): (ps: seq<string>)
    requires |keys| == |texts|
    ensures |ps| == |keys|
    ensures forall i | 0 <= i < |keys| :: ps[i] == keys[i] + [':'] + texts[i]
  {
    seq(|keys|, i requires 0 <= i < |keys| && |keys| == |texts| => keys[i] + [':'] + texts[i])
  }

  function NumberText(n: Option<int>): Option<string> {
    if n.Some? then Some(Numeral(n.value)) else None
  }

  /** Segments appended only when they say something, in their fixed order, the coverage digest last. */
  function LateFields(r: Reading, coverageDigest: Option<string>): seq<Tagged> {
    [Tagged("regionScopeLabel", r.regionScopeLabel),
     Tagged("ingestionChannel", if r.ingestionChannel != "USER_UPLOAD" then Some(r.ingestionChannel) else None),
     Tagged("ingestionConnectorId", r.connectorId),
     Tagged("externalSourceId", r.externalSourceId),
     Tagged("externalRecordId", r.externalRecordId),
     Tagged("externalVersion", r.externalVersion),
     Tagged("resourceNameColumn", NumberText(r.resourceNameColumn)),
     Tagged("sourceUnitColumn", NumberText(r.sourceUnitColumn)),
     Tagged("declaredSection", r.declaredSection),
     Tagged("kdnColumn", NumberText(r.kdnColumn)),
     Tagged("regionCoverageDigest", Stated(coverageDigest))]
  }

  /** A digest that says something. */
  function Stated(v: Option<string>): Option<string> {
    if v.Some? && v.value != "" then v else None
  }

  function Head(r: Reading): seq<string> {
    [r.workspaceId, r.organizationId, r.sourceSha256, r.sheetName, r.parserContractVersion]
  }

  /** The metadata half is itself one joined text. */
  function MetadataPart(m: Metadata): string {
    Join(Labelled(KEYS, MetadataTexts(m)), '|')
  }

  /** The text that is digested. SHA-256 is represented by the text itself, which is injective. */
  function Fingerprint(f: Facts): string {
    Join(Head(f.reading) + [MetadataPart(f.metadata)] + Segments(LateFields(f.reading, f.coverageDigest)), '|')
  }

  // ---------------------------------------------------------------- what the text determines

  function Parts(f: Facts): seq<string> {
    Head(f.reading) + Labelled(KEYS, MetadataTexts(f.metadata)) + Segments(LateFields(f.reading, f.coverageDigest))
  }

  lemma FingerprintOfParts(f: Facts)
    ensures Fingerprint(f) == Join(Parts(f), '|')
  {
    JoinNested(Head(f.reading), Labelled(KEYS, MetadataTexts(f.metadata)),
               Segments(LateFields(f.reading, f.coverageDigest)), '|');
  }

  predicate OptionFree(v: Option<string>) {
    v.Some? ==> Free(v.value, '|')
  }

  /** No stated value contains the separator. */
  predicate SeparatorFree(f: Facts) {
    var r, m := f.reading, f.metadata;
    && AllFree(Head(r), '|')
    && OptionFree(m.regionId) && OptionFree(m.sourceType) && OptionFree(m.sourceOrigin)
    && OptionFree(m.sourceOrganizationName) && OptionFree(m.sourceVendorName) && OptionFree(m.sourcePeriodLabel)
    && OptionFree(m.sourcePeriodGranularity) && OptionFree(m.effectiveDateProvenance)
    && OptionFree(m.effectiveDateDerivationRule)
    && OptionFree(r.regionScopeLabel) && Free(r.ingestionChannel, '|') && OptionFree(r.connectorId)
    && OptionFree(r.externalSourceId) && OptionFree(r.externalRecordId) && OptionFree(r.externalVersion)
    && OptionFree(r.declaredSection) && OptionFree(f.coverageDigest)
  }

  /** Dates that name the same day, or no day. */
  predicate SameDay(v: Option<DateInput>, w: Option<DateInput>) {
    var s, t := v.Some? && v.value.At?, w.Some? && w.value.At?;
    s == t && (s ==> UtcDay(v.value.instant) == UtcDay(w.value.instant))
  }

  /** Absent, null and empty are one; so are an unstated and a false declaration of coverage. */
  predicate SameMetadata(m: Metadata, n: Metadata) {
    && StringText(m.regionId) == StringText(n.regionId)
    && SameDay(m.effectiveDate, n.effectiveDate)
    && StringText(m.sourceType) == StringText(n.sourceType)
    && StringText(m.sourceOrigin) == StringText(n.sourceOrigin)
    && StringText(m.sourceOrganizationName) == StringText(n.sourceOrganizationName)
    && StringText(m.sourceVendorName) == StringText(n.sourceVendorName)
    && StringText(m.sourcePeriodLabel) == StringText(n.sourcePeriodLabel)
    && StringText(m.sourcePeriodGranularity) == StringText(n.sourcePeriodGranularity)
    && StringText(m.effectiveDateProvenance) == StringText(n.effectiveDateProvenance)
    && StringText(m.effectiveDateDerivationRule) == StringText(n.effectiveDateDerivationRule)
    && (m.priceCoverageDeclared == Some(true) <==> n.priceCoverageDeclared == Some(true))
    && m.transportIncluded == n.transportIncluded
    && m.loadingIncluded == n.loadingIncluded
    && m.unloadingIncluded == n.unloadingIncluded
    && m.deliveredToProject == n.deliveredToProject
  }

  predicate SameIdentity(f: Facts, g: Facts) {
    f.reading == g.reading && SameMetadata(f.metadata, g.metadata) && Stated(f.coverageDigest) == Stated(g.coverageDigest)
  }

  lemma DateTextInjective(v: Option<DateInput>, w: Option<DateInput>)
    ensures DateText(v) == DateText(w) <==> SameDay(v, w)
  {
    var s, t := v.Some? && v.value.At?, w.Some? && w.value.At?;
    if s {
      assert |Numeral(UtcDay(v.value.instant))| > 0;
    }
    if t {
      assert |Numeral(UtcDay(w.value.instant))| > 0;
    }
    if s && t && DateText(v) == DateText(w) {
      NumeralInjective(UtcDay(v.value.instant), UtcDay(w.value.instant));
    }
  }

  lemma MetadataTextsInjective(m: Metadata, n: Metadata)
    ensures MetadataTexts(m) == MetadataTexts(n) <==> SameMetadata(m, n)
  {
    DateTextInjective(m.effectiveDate, n.effectiveDate);
    var s, t := MetadataTexts(m), MetadataTexts(n);
    if s == t {
      assert s[0] == t[0] && s[1] == t[1] && s[2] == t[2] && s[3] == t[3] && s[4] == t[4];
      assert s[5] == t[5] && s[6] == t[6] && s[7] == t[7] && s[8] == t[8] && s[9] == t[9];
      assert s[10] == t[10] && s[11] == t[11] && s[12] == t[12] && s[13] == t[13] && s[14] == t[14];
      BoolTextInjective(m.transportIncluded, n.transportIncluded);
      BoolTextInjective(m.loadingIncluded, n.loadingIncluded);
      BoolTextInjective(m.unloadingIncluded, n.unloadingIncluded);
      BoolTextInjective(m.deliveredToProject, n.deliveredToProject);
    }
  }

  lemma BoolTextInjective(v: Option<bool>, w: Option<bool>)
    requires BoolText(v) == BoolText(w)
    ensures v == w
  {
    assert |BoolText(Some(true))| == 4 && |BoolText(Some(false))| == 5 && |BoolText(None)| == 0;
  }

  lemma LabelledInjective(keys: seq<string>, s: seq<string>, t: seq<string>)
    requires |keys| == |s| == |t| && Labelled(keys, s) == Labelled(keys, t)
    ensures s == t
  {
    forall i | 0 <= i < |keys|
      ensures s[i] == t[i]
    {
      var k := |keys[i]| + 1;
      assert s[i] == Labelled(keys, s)[i][k..];
      assert t[i] == Labelled(keys, t)[i][k..];
    }
  }

  /** A tag or key: letters only, so neither the separator nor the colon. */
  predicate IsWord(s: string) {
    forall i | 0 <= i < |s| :: 'A' <= s[i] <= 'z'
  }

  lemma StreamTagsAreWords()
    ensures IsWord("regionScopeLabel") && IsWord("ingestionChannel") && IsWord("ingestionConnectorId")
    ensures IsWord("externalSourceId") && IsWord("externalRecordId") && IsWord("externalVersion")
  {
  }

  lemma ColumnTagsAreWords()
    ensures IsWord("resourceNameColumn") && IsWord("sourceUnitColumn") && IsWord("declaredSection")
    ensures IsWord("kdnColumn") && IsWord("regionCoverageDigest")
  {
  }

  lemma WordsAreFree(s: string)
    requires IsWord(s)
    ensures Free(s, '|') && Free(s, ':')
  {
  }

  lemma LateTagFree(r: Reading, d: Option<string>, i: nat)
    requires i < 11
    ensures Free(LateFields(r, d)[i].tag, '|') && Free(LateFields(r, d)[i].tag, ':')
  {
    StreamTagsAreWords();
    ColumnTagsAreWords();
    WordsAreFree(LateFields(r, d)[i].tag);
  }

  /** Length, first and ninth letter tell the tags apart. */
  function Mark(s: string): (int, char, char)
    requires |s| > 8
  {
    (|s|, s[0], s[8])
  }

  const MARKS: seq<(int, char, char)> := [
    (16, 'r', 'o'), (16, 'i', 'n'), (20, 'i', 'n'), (16, 'e', 'S'), (16, 'e', 'R'), (15, 'e', 'V'),
    (18, 'r', 'N'), (16, 's', 'i'), (15, 'd', 'S'), (9, 'k', 'n'), (20, 'r', 'v')]

  lemma LateTagMarks(r: Reading, d: Option<string>, i: nat)
    requires i < 11
    ensures |LateFields(r, d)[i].tag| > 8 && Mark(LateFields(r, d)[i].tag) == MARKS[i]
  {
  }

  lemma LateTagsDistinct(r: Reading, d: Option<string>, r': Reading, d': Option<string>)
    ensures SameTags(LateFields(r, d), LateFields(r', d'))
  {
    hide Segments, Numeral, NumberText;
    var fs, gs := LateFields(r, d), LateFields(r', d');
    forall i | 0 <= i < |fs|
      ensures fs[i].tag == gs[i].tag && Free(fs[i].tag, ':')
    {
      LateTagFree(r, d, i);
    }
    forall i, j | 0 <= i < j < |fs|
      ensures fs[i].tag != fs[j].tag
    {
      LateTagMarks(r, d, i);
      LateTagMarks(r, d, j);
    }
  }

  lemma NumberTextInjective(m: Option<int>, n: Option<int>)
    requires NumberText(m) == NumberText(n)
    ensures m == n
  {
    if m.Some? {
      NumeralInjective(m.value, n.value);
    }
  }

  lemma LateFieldsInjective(r: Reading, d: Option<string>, r': Reading, d': Option<string>)
    requires LateFields(r, d) == LateFields(r', d') && Head(r) == Head(r')
    ensures r == r' && Stated(d) == Stated(d')
  {
    var f, g := LateFields(r, d), LateFields(r', d');
    assert f[0] == g[0] && f[1] == g[1] && f[2] == g[2] && f[3] == g[3] && f[4] == g[4] && f[5] == g[5];
    assert f[6] == g[6] && f[7] == g[7] && f[8] == g[8] && f[9] == g[9] && f[10] == g[10];
    NumberTextInjective(r.resourceNameColumn, r'.resourceNameColumn);
    NumberTextInjective(r.sourceUnitColumn, r'.sourceUnitColumn);
    NumberTextInjective(r.kdnColumn, r'.kdnColumn);
    var h, k := Head(r), Head(r');
    assert h[0] == k[0] && h[1] == k[1] && h[2] == k[2] && h[3] == k[3] && h[4] == k[4];
  }

  lemma {:induction false} SegmentsFree(fs: seq<Tagged>, c: char)
    requires c != ':' && forall i | 0 <= i < |fs| :: Free(fs[i].tag, c) && (fs[i].value.Some? ==> Free(fs[i].value.value, c))
    ensures AllFree(Segments(fs), c)
  {
    if |fs| > 0 {
      SegmentsFree(fs[1..], c);
    }
  }

  lemma LateFieldsFree(f: Facts)
    requires SeparatorFree(f)
    ensures AllFree(Segments(LateFields(f.reading, f.coverageDigest)), '|')
  {
    var fs := LateFields(f.reading, f.coverageDigest);
    forall i | 0 <= i < |fs|
      ensures Free(fs[i].tag, '|') && (fs[i].value.Some? ==> Free(fs[i].value.value, '|'))
    {
      LateTagFree(f.reading, f.coverageDigest, i);
      assert OptionFree(fs[i].value);
    }
    SegmentsFree(fs, '|');
  }

  lemma SourceKeysAreWords()
    ensures IsWord("regionId") && IsWord("effectiveDate") && IsWord("sourceType") && IsWord("sourceOrigin")
    ensures IsWord("sourceOrganizationName") && IsWord("sourceVendorName")
  {
  }

  lemma PeriodKeysAreWords()
    ensures IsWord("sourcePeriodLabel") && IsWord("sourcePeriodGranularity")
    ensures IsWord("effectiveDateProvenance") && IsWord("effectiveDateDerivationRule")
  {
  }

  lemma CoverageKeysAreWords()
    ensures IsWord("priceCoverageDeclared") && IsWord("transportIncluded")
    ensures IsWord("loadingIncluded") && IsWord("unloadingIncluded") && IsWord("deliveredToProject")
  {
  }

  lemma KeyFree(i: nat)
    requires i < |KEYS|
    ensures Free(KEYS[i], '|')
  {
    SourceKeysAreWords();
    PeriodKeysAreWords();
    CoverageKeysAreWords();
    WordsAreFree(KEYS[i]);
  }

  lemma DateTextFree(v: Option<DateInput>)
    ensures Free(DateText(v), '|')
  {
    if v.Some? && v.value.At? {
      var t := Numeral(UtcDay(v.value.instant));
      assert '|' in t ==> '0' <= '|' <= '9' || '|' == '-';
    }
  }

  lemma FlagTextsFree(v: Option<bool>)
    ensures Free(BoolText(v), '|') && Free(DeclaredText(v), '|')
  {
  }

  lemma MetadataTextFree(f: Facts, i: nat)
    requires SeparatorFree(f) && i < |KEYS|
    ensures Free(MetadataTexts(f.metadata)[i], '|')
  {
    var m := f.metadata;
    if i >= 10 {
      FlagTextsFree([m.priceCoverageDeclared, m.transportIncluded, m.loadingIncluded, m.unloadingIncluded,
                     m.deliveredToProject][i - 10]);
    } else if i == 1 {
      DateTextFree(m.effectiveDate);
    } else {
      StringTextFree(if i == 0 then m.regionId
                     else [m.sourceType, m.sourceOrigin, m.sourceOrganizationName, m.sourceVendorName,
                           m.sourcePeriodLabel, m.sourcePeriodGranularity, m.effectiveDateProvenance,
                           m.effectiveDateDerivationRule][i - 2]);
    }
  }

  lemma StringTextFree(v: Option<string>)
    requires OptionFree(v)
    ensures Free(StringText(v), '|')
  {
  }

  lemma MetadataTextsFree(f: Facts)
    requires SeparatorFree(f)
    ensures AllFree(Labelled(KEYS, MetadataTexts(f.metadata)), '|')
  {
    var ts := MetadataTexts(f.metadata);
    forall i | 0 <= i < |ts|
      ensures Free(Labelled(KEYS, ts)[i], '|')
    {
      KeyFree(i);
      MetadataTextFree(f, i);
    }
  }

  /**
   * When no value holds the separator, two sets of facts have the same fingerprint exactly when
   * they are the same import: absent, null and empty apart, every fact is determined, although the
   * late segments are appended only when they say something.
   */
  lemma FingerprintDeterminesFacts(f: Facts, g: Facts)
    requires SeparatorFree(f) && SeparatorFree(g)
    ensures Fingerprint(f) == Fingerprint(g) <==> SameIdentity(f, g)
  {
    FingerprintOfParts(f);
    FingerprintOfParts(g);
    MetadataTextsInjective(f.metadata, g.metadata);
    if Fingerprint(f) == Fingerprint(g) {
      PartsFree(f);
      PartsFree(g);
      JoinInjective(Parts(f), Parts(g), '|');
      SplitParts(f, g);
    } else {
      assert SameIdentity(f, g) ==> Parts(f) == Parts(g);
    }
  }

  lemma PartsFree(f: Facts)
    requires SeparatorFree(f)
    ensures AllFree(Parts(f), '|')
  {
    MetadataTextsFree(f);
    LateFieldsFree(f);
  }

  lemma SplitParts(f: Facts, g: Facts)
    requires Parts(f) == Parts(g)
    ensures SameIdentity(f, g)
  {
    var p, q := Parts(f), Parts(g);
    assert Head(f.reading) == p[..5] == q[..5] == Head(g.reading);
    assert Labelled(KEYS, MetadataTexts(f.metadata)) == p[5..20] == q[5..20] == Labelled(KEYS, MetadataTexts(g.metadata));
    assert Segments(LateFields(f.reading, f.coverageDigest)) == p[20..];
    assert Segments(LateFields(g.reading, g.coverageDigest)) == q[20..];
    LabelledInjective(KEYS, MetadataTexts(f.metadata), MetadataTexts(g.metadata));
    MetadataTextsInjective(f.metadata, g.metadata);
    LateTagsDistinct(f.reading, f.coverageDigest, g.reading, g.coverageDigest);
    SegmentsInjective(LateFields(f.reading, f.coverageDigest), LateFields(g.reading, g.coverageDigest));
    LateFieldsInjective(f.reading, f.coverageDigest, g.reading, g.coverageDigest);
  }

  /** The same import always has the same fingerprint, separators or not. */
  lemma SameImportSameFingerprint(f: Facts, g: Facts)
    requires SameIdentity(f, g)
    ensures Fingerprint(f) == Fingerprint(g)
  {
    MetadataTextsInjective(f.metadata, g.metadata);
  }

  /** Text moves from the second value into the first when it spells the second key. */
  lemma TakeOverLabel(first: string, second: string, x: string, a: string, b: string)
    ensures Join([first + x, second + (a + ['|'] + second + b)], '|')
            == Join([first + (x + ['|'] + second + a), second + b], '|')
  {
    JoinCons(first + x, [second + (a + ['|'] + second + b)], '|');
    JoinCons(first + (x + ['|'] + second + a), [second + b], '|');
  }

  /** Lists that agree outside a stretch, and within it once joined, are joined alike. */
  lemma SameAfterJoiningMiddle(p: seq<string>, q: seq<string>, i: nat, j: nat)
    requires 0 < i < j <= |p| == |q|
    requires p[..i] == q[..i] && p[j..] == q[j..] && Join(p[i..j], '|') == Join(q[i..j], '|')
    ensures Join(p, '|') == Join(q, '|')
  {
    assert p == p[..i] + p[i..j] + p[j..] && q == q[..i] + q[i..j] + q[j..];
    JoinNested(p[..i], p[i..j], p[j..], '|');
    JoinNested(q[..i], q[i..j], q[j..], '|');
  }

  /**
   * With separators allowed it fails: a vendor name that spells the next key takes over its label.
   * Vendor `x` of period `a|sourcePeriodLabel:b` and vendor `x|sourcePeriodLabel:a` of period `b`
   * are different imports with one fingerprint.
   */
  lemma SeparatorInVendorCollides(f: Facts, x: string, a: string, b: string)
    ensures var m := f.metadata.(sourceVendorName := Some(x),
                                 sourcePeriodLabel := Some(a + ['|'] + KEYS[6] + [':'] + b));
            var n := f.metadata.(sourceVendorName := Some(x + ['|'] + KEYS[6] + [':'] + a),
                                 sourcePeriodLabel := Some(b));
            Fingerprint(f.(metadata := m)) == Fingerprint(f.(metadata := n))
            && !SameIdentity(f.(metadata := m), f.(metadata := n))
  {
    var m := f.metadata.(sourceVendorName := Some(x), sourcePeriodLabel := Some(a + ['|'] + KEYS[6] + [':'] + b));
    var n := f.metadata.(sourceVendorName := Some(x + ['|'] + KEYS[6] + [':'] + a), sourcePeriodLabel := Some(b));
    var p, q := Labelled(KEYS, MetadataTexts(m)), Labelled(KEYS, MetadataTexts(n));
    var first, second := KEYS[5] + [':'], KEYS[6] + [':'];
    TakeOverLabel(first, second, x, a, b);
    assert m.sourcePeriodLabel.value == a + ['|'] + second + b;
    assert n.sourceVendorName.value == x + ['|'] + second + a;
    assert p[5] == first + x && p[6] == second + (a + ['|'] + second + b);
    assert q[5] == first + (x + ['|'] + second + a) && q[6] == second + b;
    assert p[5..7] == [first + x, second + (a + ['|'] + second + b)];
    assert q[5..7] == [first + (x + ['|'] + second + a), second + b];
    SameAfterJoiningMiddle(p, q, 5, 7);
    assert |m.sourceVendorName.value| != |n.sourceVendorName.value|;
  }
}

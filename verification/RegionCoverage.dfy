/** A set of villages named as one value, and the register that gives each value one id. */
module RegionCoverage {
  import opened Delimiters
  import opened Outcomes
  import opened Sorting
  import opened Text

  datatype Level = Country | Province | City | District | Village

  datatype Region = Region(id: string, code: string, isActive: bool, level: Level, parentId: Option<string>)

  datatype Coverage = Coverage(anchorRegionId: string, memberRegionIds: seq<string>, digest: string)

  datatype Refusal =
    | AnchorMustBeActiveDistrict | RequiresMultipleVillages | DuplicateMember
    | MemberMustBeActiveVillage | MemberOutsideAnchor
    | RegionNotFound | ScalarMismatch | ExplicitSelectionRequired | DigestCollision

  predicate ByCodeThenId(l: Region, r: Region) {
    if l.code == r.code then StringLeq(l.id, r.id) else StringLeq(l.code, r.code)
  }

  lemma ByCodeThenIdIsTotal()
    ensures TotalOrder(ByCodeThenId)
  {
    forall x, y
      ensures ByCodeThenId(x, y) || ByCodeThenId(y, x)
    {
      StringLeqTotal(x.code, y.code);
      StringLeqTotal(x.id, y.id);
    }
    forall x, y, z | ByCodeThenId(x, y) && ByCodeThenId(y, z)
      ensures ByCodeThenId(x, z)
    {
      if x.code == y.code && y.code == z.code {
        StringLeqTransitive(x.id, y.id, z.id);
      } else if x.code != y.code && y.code != z.code {
        StringLeqTransitive(x.code, y.code, z.code);
        if x.code == z.code {
          StringLeqAntisymmetric(x.code, y.code);
        }
      }
    }
  }

  const VERSION := "BP_REGION_COVERAGE_V1"

  function Codes(ms: seq<Region>): (cs: seq<string>)
    ensures |cs| == |ms| && forall i | 0 <= i < |ms| :: cs[i] == ms[i].code
  {
    seq(|ms|, i requires 0 <= i < |ms| => ms[i].code)
  }

  function Ids(ms: seq<Region>): (ids: seq<string>)
    ensures |ids| == |ms| && forall i | 0 <= i < |ms| :: ids[i] == ms[i].id
  {
    seq(|ms|, i requires 0 <= i < |ms| => ms[i].id)
  }

  function MemberParts(codes: seq<string>): (ps: seq<string>)
    ensures |ps| == |codes| && forall i | 0 <= i < |codes| :: ps[i] == "member:" + codes[i]
  {
    seq(|codes|, i requires 0 <= i < |codes| => "member:" + codes[i])
  }

  function DigestParts(anchorCode: string, codes: seq<string>): seq<string> {
    [VERSION, "anchor:" + anchorCode] + MemberParts(codes)
  }

  /** The digested text; SHA-256 is represented by the text itself. */
  function Digest(anchorCode: string, codes: seq<string>): string {
    Join(DigestParts(anchorCode, codes), '|')
  }

  /** The first thing wrong with member `k`, given the members before it. */
  function MemberIssue(anchor: Region, ms: seq<Region>, k: nat): Option<Refusal>
    requires k < |ms|
  {
    if exists j | 0 <= j < k :: ms[j].id == ms[k].id then Some(DuplicateMember)
    else if !ms[k].isActive || !ms[k].level.Village? then Some(MemberMustBeActiveVillage)
    else if ms[k].parentId != Some(anchor.id) then Some(MemberOutsideAnchor)
    else None
  }

  /** Two or more different active villages of one active district. */
  predicate Lawful(anchor: Region, ms: seq<Region>) {
    && anchor.isActive && anchor.level.District? && |ms| >= 2
    && (forall i, j | 0 <= i < j < |ms| :: ms[i].id != ms[j].id)
    && (forall i | 0 <= i < |ms| :: ms[i].isActive && ms[i].level.Village? && ms[i].parentId == Some(anchor.id))
  }

  function CoverageOf(anchor: Region, ms: seq<Region>): Coverage {
    var sorted := Sort(ms, ByCodeThenId);
    Coverage(anchor.id, Ids(sorted), Digest(anchor.code, Codes(sorted)))
  }

  /** Validation in one pass over the members, then the value; only the first issue found is reported. */
  method Canonicalize(anchor: Region, members: seq<Region>) returns (r: Result<Coverage, Refusal>)
    ensures r.Ok? <==> Lawful(anchor, members)
    ensures r.Ok? ==> r.value == CoverageOf(anchor, members)
    ensures r.Err? && !(anchor.isActive && anchor.level.District? && |members| >= 2) ==>
              r.error in {AnchorMustBeActiveDistrict, RequiresMultipleVillages}
    ensures r.Err? && anchor.isActive && anchor.level.District? && |members| >= 2 ==>
              exists k | 0 <= k < |members| ::
                MemberIssue(anchor, members, k) == Some(r.error)
                && forall j | 0 <= j < k :: MemberIssue(anchor, members, j).None?
  {
    if !anchor.isActive || !anchor.level.District? {
      return Err(AnchorMustBeActiveDistrict);
    }
    if |members| < 2 {
      return Err(RequiresMultipleVillages);
    }
    var memberIds := {};
    for k := 0 to |members|
      invariant memberIds == set j | 0 <= j < k :: members[j].id
      invariant forall j | 0 <= j < k :: MemberIssue(anchor, members, j).None?
    {
      var member := members[k];
      if member.id in memberIds {
        assert MemberIssue(anchor, members, k) == Some(DuplicateMember);
        return Err(DuplicateMember);
      }
      memberIds := memberIds + {member.id};
      if !member.isActive || !member.level.Village? {
        assert MemberIssue(anchor, members, k) == Some(MemberMustBeActiveVillage);
        return Err(MemberMustBeActiveVillage);
      }
      if member.parentId != Some(anchor.id) {
        assert MemberIssue(anchor, members, k) == Some(MemberOutsideAnchor);
        return Err(MemberOutsideAnchor);
      }
    }
    forall i, j | 0 <= i < j < |members|
      ensures members[i].id != members[j].id
    {
      assert MemberIssue(anchor, members, j).None?;
    }
    forall i | 0 <= i < |members|
      ensures members[i].isActive && members[i].level.Village? && members[i].parentId == Some(anchor.id)
    {
      assert MemberIssue(anchor, members, i).None?;
    }
    return Ok(CoverageOf(anchor, members));
  }

  predicate DistinctIds(ms: seq<Region>) {
    forall i, j | 0 <= i < j < |ms| :: ms[i].id != ms[j].id
  }

  lemma PresentTwice(ns: seq<Region>, i: nat, j: nat)
    requires i < j < |ns| && ns[i] == ns[j]
    ensures multiset(ns)[ns[i]] >= 2
  {
    assert ns == ns[..j] + [ns[j]] + ns[j + 1..];
    assert ns[..j][i] == ns[i];
    assert multiset(ns[..j])[ns[i]] >= 1;
  }

  lemma PresentOnce(ms: seq<Region>, a: nat)
    requires DistinctIds(ms) && a < |ms|
    ensures multiset(ms)[ms[a]] == 1
  {
    assert ms == ms[..a] + [ms[a]] + ms[a + 1..];
    assert ms[a] !in ms[..a] && ms[a] !in ms[a + 1..];
  }

  lemma DistinctIdsPermute(ms: seq<Region>, ns: seq<Region>)
    requires DistinctIds(ms) && multiset(ms) == multiset(ns)
    ensures DistinctIds(ns)
  {
    forall i, j | 0 <= i < j < |ns|
      ensures ns[i].id != ns[j].id
    {
      assert ns[i] in multiset(ms) && ns[j] in multiset(ms);
      var a :| 0 <= a < |ms| && ms[a] == ns[i];
      var b :| 0 <= b < |ms| && ms[b] == ns[j];
      PresentOnce(ms, a);
      if ns[i] == ns[j] {
        PresentTwice(ns, i, j);
      }
    }
  }

  lemma SortedByTable(ms: seq<Region>)
    requires DistinctIds(ms)
    ensures AntisymmetricOn(ms, ByCodeThenId)
  {
    forall x, y | x in ms && y in ms && ByCodeThenId(x, y) && ByCodeThenId(y, x)
      ensures x == y
    {
      if x.code == y.code {
        StringLeqAntisymmetric(x.id, y.id);
      } else {
        StringLeqAntisymmetric(x.code, y.code);
      }
    }
  }

  /** The villages in any order are one value: the same members and the same digest. */
  lemma PermutationGivesSameCoverage(anchor: Region, ms: seq<Region>, ns: seq<Region>)
    requires Lawful(anchor, ms) && multiset(ms) == multiset(ns)
    ensures Lawful(anchor, ns) && CoverageOf(anchor, ms) == CoverageOf(anchor, ns)
  {
    ByCodeThenIdIsTotal();
    SortedByTable(ms);
    SortCanonical(ms, ns, ByCodeThenId);
    DistinctIdsPermute(ms, ns);
    assert |multiset(ms)| == |ms| && |multiset(ns)| == |ns|;
    forall i | 0 <= i < |ns|
      ensures ns[i] in ms
    {
      assert ns[i] in multiset(ns);
    }
  }

  // ---------------------------------------------------------------- what a digest names

  /** What stands between the anchor's code, the first member's and each next one's. */
  const NEXT_MEMBER := "|member:"

  lemma NextMemberIsDelimiter()
    ensures IsDelimiter(NEXT_MEMBER)
  {
    assert NEXT_MEMBER[1..] == "member:";
  }

  lemma {:induction false} MembersJoined(head: string, a: string, cs: seq<string>)
    ensures Join([head + a] + MemberParts(cs), '|') == head + JoinBy([a] + cs, NEXT_MEMBER)
    decreases |cs|
  {
    if |cs| == 0 {
      assert [head + a] + MemberParts(cs) == [head + a] && [a] + cs == [a];
    } else {
      var member := "member:";
      MembersJoined(member, cs[0], cs[1..]);
      assert MemberParts(cs) == [member + cs[0]] + MemberParts(cs[1..]);
      assert cs == [cs[0]] + cs[1..];
      JoinCons(head + a, MemberParts(cs), '|');
      JoinByCons(a, cs, NEXT_MEMBER);
      assert NEXT_MEMBER == ['|'] + member;
    }
  }

  /** The digested text is the codes joined by the label of the next member. */
  lemma DigestJoins(a: string, cs: seq<string>)
    ensures Digest(a, cs) == VERSION + ['|'] + "anchor:" + JoinBy([a] + cs, NEXT_MEMBER)
  {
    hide Join, JoinBy, MemberParts, VERSION, NEXT_MEMBER;
    var anchor, rest := "anchor:", JoinBy([a] + cs, NEXT_MEMBER);
    MembersJoined(anchor, a, cs);
    assert DigestParts(a, cs) == [VERSION] + ([anchor + a] + MemberParts(cs));
    JoinCons(VERSION, [anchor + a] + MemberParts(cs), '|');
    assert VERSION + ['|'] + (anchor + rest) == VERSION + ['|'] + anchor + rest;
  }

  lemma DigestsCompareCodes(a: string, cs: seq<string>, b: string, ds: seq<string>)
    ensures Digest(a, cs) == Digest(b, ds) <==> JoinBy([a] + cs, NEXT_MEMBER) == JoinBy([b] + ds, NEXT_MEMBER)
  {
    DigestJoins(a, cs);
    DigestJoins(b, ds);
    var head := VERSION + ['|'] + "anchor:";
    assert Digest(a, cs)[|head|..] == JoinBy([a] + cs, NEXT_MEMBER);
    assert Digest(b, ds)[|head|..] == JoinBy([b] + ds, NEXT_MEMBER);
  }

  /** Codes that do not spell the next member's label can be read back from the digested text. */
  lemma DigestInjective(a: string, cs: seq<string>, b: string, ds: seq<string>)
    requires NoneContains([a] + cs, NEXT_MEMBER) && NoneContains([b] + ds, NEXT_MEMBER)
    ensures Digest(a, cs) == Digest(b, ds) <==> a == b && cs == ds
  {
    NextMemberIsDelimiter();
    DigestsCompareCodes(a, cs, b, ds);
    JoinByInjective([a] + cs, [b] + ds, NEXT_MEMBER);
    assert ([a] + cs)[0] == a && ([b] + ds)[0] == b && ([a] + cs)[1..] == cs && ([b] + ds)[1..] == ds;
  }

  /** Another district or other codes, two at least, digested alike. */
  ghost predicate Mistakable(a: string, cs: seq<string>, b: string, ds: seq<string>) {
    (b != a || ds != cs) && |ds| > 1 && Digest(b, ds) == Digest(a, cs)
  }

  /**
   * Two or more codes share their digest with a different list of two or more exactly when there are
   * three or more of them, or the district's code or one of them spells the next member's label.
   */
  lemma DigestSharedExactly(a: string, cs: seq<string>)
    requires |cs| > 1
    ensures (exists b, ds :: Mistakable(a, cs, b, ds)) <==>
            |cs| > 2 || Contains(a, NEXT_MEMBER) || exists i | 0 <= i < |cs| :: Contains(cs[i], NEXT_MEMBER)
  {
    NextMemberIsDelimiter();
    if |cs| > 2 {
      FewerCodes(a, cs);
    }
    AllCodesSpell(a, cs);
    if !NoneContains([a] + cs, NEXT_MEMBER) {
      MovedCodes(a, cs);
    } else if b, ds :| Mistakable(a, cs, b, ds) {
      OnlyCoarser(a, cs, b, ds);
    }
  }

  lemma AllCodesSpell(a: string, cs: seq<string>)
    ensures NoneContains([a] + cs, NEXT_MEMBER) <==>
            !Contains(a, NEXT_MEMBER) && forall i | 0 <= i < |cs| :: !Contains(cs[i], NEXT_MEMBER)
  {
    hide Contains;
    var all := [a] + cs;
    assert all[0] == a && forall i | 0 <= i < |cs| :: all[i + 1] == cs[i];
    assert forall i | 0 < i < |all| :: all[i] == cs[i - 1];
  }

  /** Two of three or more codes read as one. */
  lemma FewerCodes(a: string, cs: seq<string>)
    requires |cs| > 2
    ensures Mistakable(a, cs, a, [cs[0] + NEXT_MEMBER + cs[1]] + cs[2..])
  {
    hide Digest, NEXT_MEMBER;
    var ds := [cs[0] + NEXT_MEMBER + cs[1]] + cs[2..];
    MergeFirst(cs, NEXT_MEMBER);
    JoinByCons(a, cs, NEXT_MEMBER);
    JoinByCons(a, ds, NEXT_MEMBER);
    DigestsCompareCodes(a, ds, a, cs);
    assert |ds| != |cs|;
  }

  /** Text moves across a label that a code spells. */
  lemma MovedCodes(a: string, cs: seq<string>)
    requires |cs| > 1 && !NoneContains([a] + cs, NEXT_MEMBER)
    ensures exists b, ds :: Mistakable(a, cs, b, ds)
  {
    hide Digest, Contains;
    NextMemberIsDelimiter();
    var all := [a] + cs;
    MisreadExactly(all, NEXT_MEMBER);
    var other :| Misread(all, other, NEXT_MEMBER);
    var b, ds := other[0], other[1..];
    assert other == [b] + ds;
    DigestsCompareCodes(b, ds, a, cs);
    assert Mistakable(a, cs, b, ds);
  }

  /** A list that spells no label is told apart from every list of two or more that is not shorter. */
  lemma OnlyCoarser(a: string, cs: seq<string>, b: string, ds: seq<string>)
    requires NoneContains([a] + cs, NEXT_MEMBER) && Mistakable(a, cs, b, ds)
    ensures |ds| < |cs|
  {
    hide Digest, Contains;
    NextMemberIsDelimiter();
    DigestsCompareCodes(b, ds, a, cs);
    FinestReading([a] + cs, [b] + ds, NEXT_MEMBER);
    assert ([a] + cs)[0] == a && ([b] + ds)[0] == b && ([a] + cs)[1..] == cs && ([b] + ds)[1..] == ds;
  }

  /** The region table: rows under their own id, official codes unique. */
  ghost predicate RegionsOk(regions: map<string, Region>) {
    && (forall i | i in regions :: regions[i].id == i)
    && (forall i, j | i in regions && j in regions && regions[i].code == regions[j].code :: i == j)
  }

  /** No code spells the next member's label. */
  ghost predicate CodesReadable(regions: map<string, Region>) {
    forall i | i in regions :: !Contains(regions[i].code, NEXT_MEMBER)
  }

  ghost predicate TableOk(regions: map<string, Region>) {
    RegionsOk(regions) && CodesReadable(regions)
  }

  ghost predicate FromTable(regions: map<string, Region>, ms: seq<Region>) {
    forall i | 0 <= i < |ms| :: ms[i].id in regions && regions[ms[i].id] == ms[i]
  }

  /** Two lawful coverages have one digest exactly when they name the same villages of the same district. */
  lemma SameDigestSameVillages(regions: map<string, Region>, a: Region, ms: seq<Region>, b: Region, ns: seq<Region>)
    requires TableOk(regions) && FromTable(regions, [a, b]) && FromTable(regions, ms) && FromTable(regions, ns)
    requires Lawful(a, ms) && Lawful(b, ns)
    ensures CoverageOf(a, ms).digest == CoverageOf(b, ns).digest <==> (a == b && multiset(ms) == multiset(ns))
    ensures CoverageOf(a, ms).digest == CoverageOf(b, ns).digest ==> CoverageOf(a, ms) == CoverageOf(b, ns)
  {
    ByCodeThenIdIsTotal();
    SortSorts(ms, ByCodeThenId);
    SortSorts(ns, ByCodeThenId);
    var s, t := Sort(ms, ByCodeThenId), Sort(ns, ByCodeThenId);
    SortedFromTable(regions, ms, s);
    SortedFromTable(regions, ns, t);
    assert [a, b][0] == a && [a, b][1] == b;
    if CoverageOf(a, ms).digest == CoverageOf(b, ns).digest {
      assert NoneContains([a.code] + Codes(s), NEXT_MEMBER) && NoneContains([b.code] + Codes(t), NEXT_MEMBER);
      DigestInjective(a.code, Codes(s), b.code, Codes(t));
      assert a.id == b.id;
      forall i | 0 <= i < |s|
        ensures s[i] == t[i]
      {
        assert Codes(s)[i] == Codes(t)[i];
      }
      assert s == t;
    } else if a == b && multiset(ms) == multiset(ns) {
      PermutationGivesSameCoverage(a, ms, ns);
    }
  }

  lemma SortedFromTable(regions: map<string, Region>, ms: seq<Region>, s: seq<Region>)
    requires TableOk(regions) && FromTable(regions, ms) && multiset(ms) == multiset(s)
    ensures FromTable(regions, s) && NoneContains(Codes(s), NEXT_MEMBER)
  {
    forall i | 0 <= i < |s|
      ensures s[i] in ms
    {
      assert s[i] in multiset(s);
    }
  }

  // ---------------------------------------------------------------- the register

  datatype CoverageSet = CoverageSet(anchorRegionId: string, digest: string, memberRegionIds: seq<string>)

  function SetOf(c: Coverage): CoverageSet {
    CoverageSet(c.anchorRegionId, c.digest, c.memberRegionIds)
  }

  /** Every stored set is some lawful coverage's own value, and no two share a digest. */
  ghost predicate RegisterOk(regions: map<string, Region>, sets: map<string, CoverageSet>) {
    && (forall i | i in sets :: Stored(regions, sets[i]))
    && (forall i, j | i in sets && j in sets && sets[i].digest == sets[j].digest :: i == j)
  }

  ghost predicate Stored(regions: map<string, Region>, s: CoverageSet) {
    exists a, ms :: FromTable(regions, [a]) && FromTable(regions, ms) && Lawful(a, ms) && s == SetOf(CoverageOf(a, ms))
  }

  /** Who the stored set `i` covers. */
  ghost predicate Names(regions: map<string, Region>, s: CoverageSet, a: Region, ms: seq<Region>) {
    FromTable(regions, [a]) && FromTable(regions, ms) && Lawful(a, ms) && s == SetOf(CoverageOf(a, ms))
  }

  lemma RowsNamed(regions: map<string, Region>, a: Region, ms: seq<Region>)
    requires FromTable(regions, ms) && Lawful(a, ms) && a.id in regions && regions[a.id] == a
    ensures Names(regions, SetOf(CoverageOf(a, ms)), a, ms)
  {
  }

  lemma RowOfTable(regions: map<string, Region>, id: string)
    requires RegionsOk(regions) && id in regions
    ensures regions[id].id == id
  {
  }

  function SortIds(ids: seq<string>): seq<string> {
    Sort(ids, StringLeq)
  }

  lemma StringLeqIsTotal()
    ensures TotalOrder(StringLeq)
  {
    forall x, y
      ensures StringLeq(x, y) || StringLeq(y, x)
    {
      StringLeqTotal(x, y);
    }
    forall x, y, z | StringLeq(x, y) && StringLeq(y, z)
      ensures StringLeq(x, z)
    {
      StringLeqTransitive(x, y, z);
    }
  }

  lemma SortIdsPermutes(ids: seq<string>)
    ensures multiset(SortIds(ids)) == multiset(ids)
  {
    StringLeqIsTotal();
    SortSorts(ids, StringLeq);
  }

  /** The named ids tell which rows of the table are meant. */
  lemma RowOfId(regions: map<string, Region>, s: seq<Region>, x: Region)
    requires RegionsOk(regions) && FromTable(regions, s)
    ensures x in s <==> x.id in regions && regions[x.id] == x && x.id in Ids(s)
  {
    if i :| 0 <= i < |s| && s[i] == x {
      assert Ids(s)[i] == x.id;
    }
    if i :| 0 <= i < |s| && Ids(s)[i] == x.id {
      assert regions[s[i].id] == s[i];
    }
  }

  lemma PermutedFromTable(regions: map<string, Region>, ms: seq<Region>, s: seq<Region>)
    requires FromTable(regions, ms) && multiset(ms) == multiset(s)
    ensures FromTable(regions, s) && forall x :: x in ms <==> x in s
  {
    assert forall x :: x in ms <==> x in multiset(ms);
    assert forall x :: x in s <==> x in multiset(s);
    forall i | 0 <= i < |s|
      ensures s[i] in ms
    {
      assert s[i] in s;
    }
  }

  lemma VillageOfId(regions: map<string, Region>, a: Region, ms: seq<Region>, x: Region)
    requires RegionsOk(regions) && FromTable(regions, ms)
    ensures x in ms <==> x.id in regions && regions[x.id] == x && x.id in multiset(CoverageOf(a, ms).memberRegionIds)
  {
    hide RegionsOk, FromTable, StringLeq, Digest, Codes, Ids, Sort, Sorted, TotalOrder, ByCodeThenId;
    ByCodeThenIdIsTotal();
    SortSorts(ms, ByCodeThenId);
    var s := Sort(ms, ByCodeThenId);
    PermutedFromTable(regions, ms, s);
    RowOfId(regions, s, x);
  }

  /** One anchor and the same ids, in whatever order, are the same villages. */
  lemma SameIdsSameVillages(regions: map<string, Region>, a: Region, ms: seq<Region>, b: Region, ns: seq<Region>)
    requires RegionsOk(regions)
    requires Names(regions, SetOf(CoverageOf(a, ms)), a, ms) && Names(regions, SetOf(CoverageOf(b, ns)), b, ns)
    requires a.id == b.id && multiset(CoverageOf(a, ms).memberRegionIds) == multiset(CoverageOf(b, ns).memberRegionIds)
    ensures a == b && multiset(ms) == multiset(ns) && CoverageOf(a, ms) == CoverageOf(b, ns)
  {
    hide CoverageOf;
    assert [a][0] == a && [b][0] == b;
    forall x
      ensures multiset(ms)[x] == multiset(ns)[x]
    {
      VillageOfId(regions, a, ms, x);
      VillageOfId(regions, b, ns, x);
      CountedOnce(ms, x);
      CountedOnce(ns, x);
    }
    PermutationGivesSameCoverage(a, ms, ns);
  }

  lemma CountedOnce(ms: seq<Region>, x: Region)
    requires DistinctIds(ms)
    ensures multiset(ms)[x] == if x in ms then 1 else 0
  {
    if i :| 0 <= i < |ms| && ms[i] == x {
      PresentOnce(ms, i);
    }
  }

  /** Some stored set has the digest of the coverage and names other villages. */
  predicate DigestTaken(sets: map<string, CoverageSet>, c: Coverage) {
    exists i | i in sets :: sets[i].digest == c.digest && sets[i] != SetOf(c)
  }

  lemma NamedIsStored(regions: map<string, Region>, s: CoverageSet)
    requires exists a, ms :: Names(regions, s, a, ms)
    ensures Stored(regions, s)
  {
    hide CoverageOf, FromTable, Lawful;
  }

  lemma OneSetPerDigest(regions: map<string, Region>, sets: map<string, CoverageSet>, i: string)
    requires RegisterOk(regions, sets) && i in sets
    ensures Stored(regions, sets[i]) && forall j | j in sets && sets[j].digest == sets[i].digest :: j == i
  {
    hide Stored;
  }

  lemma AddedSetIsLawful(regions: map<string, Region>, sets: map<string, CoverageSet>, id: string, s: CoverageSet)
    requires RegisterOk(regions, sets) && Stored(regions, s) && forall i | i in sets :: sets[i].digest != s.digest
    ensures RegisterOk(regions, sets[id := s])
  {
    hide Stored;
  }

  predicate AllKnown(regions: map<string, Region>, ids: seq<string>) {
    forall i | i in ids :: i in regions
  }

  predicate NoRepeats(ids: seq<string>) {
    forall i, j | 0 <= i < j < |ids| :: ids[i] != ids[j]
  }

  /** The rows of the ids, in the order of the ids. */
  function RowsOf(regions: map<string, Region>, ids: seq<string>): (ms: seq<Region>)
    requires AllKnown(regions, ids)
    ensures |ms| == |ids| && forall i | 0 <= i < |ids| :: ms[i] == regions[ids[i]]
  {
    seq(|ids|, i requires 0 <= i < |ids| && AllKnown(regions, ids) => regions[ids[i]])
  }

  lemma RowsOfTable(regions: map<string, Region>, ids: seq<string>)
    requires RegionsOk(regions) && AllKnown(regions, ids)
    ensures FromTable(regions, RowsOf(regions, ids)) && Ids(RowsOf(regions, ids)) == ids
  {
  }

  /** The rows two lists of different ids name are the same villages exactly when the lists hold the same ids. */
  lemma SameRowsSameIds(regions: map<string, Region>, ids: seq<string>, more: seq<string>)
    requires RegionsOk(regions) && AllKnown(regions, ids) && AllKnown(regions, more) && NoRepeats(ids) && NoRepeats(more)
    ensures multiset(RowsOf(regions, ids)) == multiset(RowsOf(regions, more)) <==> (forall x :: x in ids <==> x in more)
  {
    var ms, ns := RowsOf(regions, ids), RowsOf(regions, more);
    RowsOfTable(regions, ids);
    RowsOfTable(regions, more);
    forall x
      ensures x in ids <==> x in regions && regions[x] in ms
      ensures x in more <==> x in regions && regions[x] in ns
    {
      IdOfRow(regions, ids, x);
      IdOfRow(regions, more, x);
    }
    forall r
      ensures multiset(ms)[r] == if r in ms then 1 else 0
      ensures multiset(ns)[r] == if r in ns then 1 else 0
    {
      CountedOnce(ms, r);
      CountedOnce(ns, r);
    }
    hide RowsOf, RegionsOk;
    assert multiset(ms) == multiset(ns) ==> forall r :: r in ms <==> r in ns;
    if forall x :: x in ids <==> x in more {
      SameIdsSameRows(regions, ids, more);
      assert multiset(ms) == multiset(ns);
    }
  }

  lemma IdOfRow(regions: map<string, Region>, ids: seq<string>, x: string)
    requires RegionsOk(regions) && AllKnown(regions, ids)
    ensures x in ids <==> x in regions && regions[x] in RowsOf(regions, ids)
  {
    if i :| 0 <= i < |ids| && ids[i] == x {
      assert RowsOf(regions, ids)[i] == regions[x];
    }
    if x in regions && regions[x] in RowsOf(regions, ids) {
      var i :| 0 <= i < |ids| && RowsOf(regions, ids)[i] == regions[x];
      assert regions[ids[i]].id == ids[i];
    }
  }

  lemma SameIdsSameRows(regions: map<string, Region>, ids: seq<string>, more: seq<string>)
    requires AllKnown(regions, ids) && AllKnown(regions, more) && forall x :: x in ids <==> x in more
    ensures forall r :: r in RowsOf(regions, ids) <==> r in RowsOf(regions, more)
  {
    forall i | 0 <= i < |ids|
      ensures RowsOf(regions, ids)[i] in RowsOf(regions, more)
    {
      assert ids[i] in more;
      var j :| 0 <= j < |more| && more[j] == ids[i];
      assert RowsOf(regions, more)[j] == RowsOf(regions, ids)[i];
    }
    forall i | 0 <= i < |more|
      ensures RowsOf(regions, more)[i] in RowsOf(regions, ids)
    {
      assert more[i] in ids;
      var j :| 0 <= j < |ids| && ids[j] == more[i];
      assert RowsOf(regions, ids)[j] == RowsOf(regions, more)[i];
    }
  }

  /** The id the coverage's value is stored under, or will be. */
  ghost function SetIdFor(sets: map<string, CoverageSet>, c: Coverage, candidateId: string): (id: string)
    ensures id in sets ==> id == candidateId || sets[id].digest == c.digest
  {
    if i :| i in sets && sets[i].digest == c.digest then i else candidateId
  }

  lemma PrefixGrows(regions: map<string, Region>, ids: seq<string>, k: nat)
    requires k < |ids|
    ensures AllKnown(regions, ids[..k + 1]) <==> AllKnown(regions, ids[..k]) && ids[k] in regions
    ensures NoRepeats(ids[..k + 1]) <==> NoRepeats(ids[..k]) && ids[k] !in ids[..k]
  {
    assert ids[..k + 1] == ids[..k] + [ids[k]];
    var more := ids[..k + 1];
    assert forall i | 0 <= i < k :: more[i] == ids[..k][i];
    assert more[k] == ids[k];
  }

  class CoverageRegister {
    const regions: map<string, Region>
    var sets: map<string, CoverageSet>

    ghost predicate Valid()
      reads this
    {
      RegionsOk(regions) && RegisterOk(regions, sets)
    }

    constructor (regions: map<string, Region>)
      requires RegionsOk(regions)
      ensures Valid() && sets == map[] && this.regions == regions
    {
      this.regions := regions;
      sets := map[];
    }

    /** `findMany({ id: { in } })`: the rows of the named ids, each once. */
    method LoadMembers(ids: seq<string>) returns (ms: seq<Region>)
      requires Valid()
      ensures FromTable(regions, ms) && DistinctIds(ms)
      ensures forall i | 0 <= i < |ms| :: ms[i].id in ids
      ensures NoRepeats(ids) ==> (|ms| == |ids| <==> AllKnown(regions, ids))
      ensures NoRepeats(ids) && AllKnown(regions, ids) ==> ms == RowsOf(regions, ids)
    {
      hide RegisterOk;
      ms := [];
      for k := 0 to |ids|
        invariant FromTable(regions, ms) && DistinctIds(ms) && |ms| <= k
        invariant forall i | 0 <= i < |ms| :: ms[i].id in ids[..k]
        invariant NoRepeats(ids[..k]) ==> (|ms| == k <==> AllKnown(regions, ids[..k]))
        invariant NoRepeats(ids[..k]) && AllKnown(regions, ids[..k]) ==> Ids(ms) == ids[..k]
      {
        PrefixGrows(regions, ids, k);
        if ids[k] in regions && forall i | 0 <= i < |ms| :: ms[i].id != ids[k] {
          ms := ms + [regions[ids[k]]];
        }
        assert ids[..k + 1] == ids[..k] + [ids[k]];
      }
      assert ids[..|ids|] == ids;
      if NoRepeats(ids) && AllKnown(regions, ids) {
        assert forall i | 0 <= i < |ms| :: ms[i] == regions[ms[i].id] && ms[i].id == Ids(ms)[i];
      }
    }

    /**
     * INSERT ... ON CONFLICT DO NOTHING, then the winner compared member by member. A collision is
     * reported exactly when the digest belongs to other villages, which no readable code brings about.
     */
    method Intern(c: Coverage, candidateId: string) returns (r: Result<string, Refusal>)
      requires Valid() && candidateId !in sets
      requires exists a, ms :: Names(regions, SetOf(c), a, ms)
      modifies this`sets
      ensures Valid()
      ensures r.Err? <==> DigestTaken(old(sets), c)
      ensures r.Err? ==> r.error == DigestCollision && !CodesReadable(regions) && sets == old(sets)
      ensures r.Ok? ==> r.value == SetIdFor(old(sets), c, candidateId) && sets == old(sets)[r.value := SetOf(c)]
      ensures forall i | i in old(sets) :: i in sets && sets[i] == old(sets)[i]
    {
      hide RegionsOk, RegisterOk, Stored, Names, SortIds;
      NamedIsStored(regions, SetOf(c));
      if i :| i in sets && sets[i].digest == c.digest {
        var winner := sets[i];
        OneSetPerDigest(regions, sets, i);
        WinnerIsSame(regions, winner, SetOf(c));
        if winner.anchorRegionId != c.anchorRegionId || SortIds(winner.memberRegionIds) != SortIds(c.memberRegionIds) {
          return Err(DigestCollision);
        }
        return Ok(i);
      }
      AddedSetIsLawful(regions, sets, candidateId, SetOf(c));
      sets := sets[candidateId := SetOf(c)];
      return Ok(candidateId);
    }
  }

  /** The member comparison decides, and with readable codes it never has to. */
  lemma WinnerIsSame(regions: map<string, Region>, s: CoverageSet, t: CoverageSet)
    requires RegionsOk(regions) && Stored(regions, s) && Stored(regions, t) && s.digest == t.digest
    ensures s == t <==> s.anchorRegionId == t.anchorRegionId && SortIds(s.memberRegionIds) == SortIds(t.memberRegionIds)
    ensures CodesReadable(regions) ==> s == t
  {
    hide CoverageOf, SortIds, RegionsOk, CodesReadable;
    var a, ms :| FromTable(regions, [a]) && FromTable(regions, ms) && Lawful(a, ms) && s == SetOf(CoverageOf(a, ms));
    var b, ns :| FromTable(regions, [b]) && FromTable(regions, ns) && Lawful(b, ns) && t == SetOf(CoverageOf(b, ns));
    assert [a][0] == a && [b][0] == b;
    AnchorNamed(a, ms);
    AnchorNamed(b, ns);
    if CodesReadable(regions) {
      SameDigestSameVillages(regions, a, ms, b, ns);
    }
    if s.anchorRegionId == t.anchorRegionId && SortIds(s.memberRegionIds) == SortIds(t.memberRegionIds) {
      SortIdsPermutes(s.memberRegionIds);
      SortIdsPermutes(t.memberRegionIds);
      SameIdsSameVillages(regions, a, ms, b, ns);
    }
  }

  lemma AnchorNamed(a: Region, ms: seq<Region>)
    ensures CoverageOf(a, ms).anchorRegionId == a.id
  {
  }

  /** Over the life of the register two coverages have one set id exactly when they name the same villages. */
  lemma OneIdPerVillageSet(regions: map<string, Region>, sets: map<string, CoverageSet>, i: string, j: string,
                           a: Region, ms: seq<Region>, b: Region, ns: seq<Region>)
    requires RegionsOk(regions) && RegisterOk(regions, sets)
    requires i in sets && j in sets && Names(regions, sets[i], a, ms) && Names(regions, sets[j], b, ns)
    ensures i == j <==> a == b && multiset(ms) == multiset(ns)
  {
    hide CoverageOf, RegionsOk;
    AnchorNamed(a, ms);
    AnchorNamed(b, ns);
    if i == j {
      SameIdsSameVillages(regions, a, ms, b, ns);
    } else if a == b && multiset(ms) == multiset(ns) {
      PermutationGivesSameCoverage(a, ms, ns);
      assert false;
    }
  }

  lemma PairSorted(x: Region, y: Region)
    requires ByCodeThenId(x, y)
    ensures Sort([x, y], ByCodeThenId) == [x, y]
  {
    assert [x, y][1..] == [y] && [y][1..] == [];
    assert Sort([y], ByCodeThenId) == [y];
  }

  /** Two pairs of villages of one district, in their sorted order, whose codes split one text in two ways. */
  lemma PairsCollide(d: Region, w: Region, x: Region, y: Region, z: Region, middle: string)
    requires Lawful(d, [w, x]) && Lawful(d, [y, z]) && ByCodeThenId(w, x) && ByCodeThenId(y, z)
    requires w.code == y.code + NEXT_MEMBER + middle && z.code == middle + NEXT_MEMBER + x.code
    ensures CoverageOf(d, [w, x]).digest == CoverageOf(d, [y, z]).digest
    ensures multiset([w, x]) != multiset([y, z])
  {
    hide Lawful, ByCodeThenId, Digest, JoinBy;
    PairSorted(w, x);
    PairSorted(y, z);
    assert Codes([w, x]) == [w.code, x.code] && Codes([y, z]) == [y.code, z.code];
    SplitTwoWays(d.code, y.code, middle, x.code);
    PairsDiffer(w, x, y, z, middle);
  }

  lemma SplitTwoWays(a: string, p: string, q: string, r: string)
    ensures Digest(a, [p + NEXT_MEMBER + q, r]) == Digest(a, [p, q + NEXT_MEMBER + r])
  {
    hide Digest, JoinBy;
    var cs, ds := [p + NEXT_MEMBER + q, r], [p, q + NEXT_MEMBER + r];
    MoveFirst(cs, ds, NEXT_MEMBER, p, q, 0);
    JoinByCons(a, cs, NEXT_MEMBER);
    JoinByCons(a, ds, NEXT_MEMBER);
    DigestsCompareCodes(a, cs, a, ds);
  }

  lemma PairsDiffer(w: Region, x: Region, y: Region, z: Region, middle: string)
    requires ByCodeThenId(w, x) && w.code == y.code + NEXT_MEMBER + middle
    ensures multiset([w, x]) != multiset([y, z])
  {
    hide StringLeq;
    var rest := NEXT_MEMBER + middle;
    ExtensionIsLarger(y.code, rest);
    assert w.code == y.code + rest;
    assert |rest| > 0 && w.code != y.code && !StringLeq(w.code, y.code);
    assert multiset([w, x])[y] == 0;
    assert multiset([y, z])[y] > 0;
  }

  lemma {:induction false} ExtensionIsLarger(s: string, t: string)
    requires |t| > 0
    ensures !StringLeq(s + t, s)
  {
    if |s| > 0 {
      ExtensionIsLarger(s[1..], t);
      assert (s + t)[1..] == s[1..] + t;
    }
  }

  const DISTRICT: Region := Region("d", "d", true, District, None)

  function ExampleVillage(id: string, code: string): Region {
    Region(id, code, true, Village, Some("d"))
  }

  lemma ExampleCodes()
    ensures var p, q := "a|member:b", "b|member:c";
            p == "a" + NEXT_MEMBER + "b" && q == "b" + NEXT_MEMBER + "c"
            && StringLeq(p, "c") && StringLeq("a", q) && StringLeq("a", "b") && StringLeq("b", "c") && StringLeq("a", "c")
            && p != "c" && p != "a" && p != "b" && p != q && p != "d" && q != "a" && q != "b" && q != "c" && q != "d"
  {
    var p, q := "a|member:b", "b|member:c";
    assert |p| == 10 && |q| == 10 && p[0] == 'a' && q[0] == 'b';
  }

  predicate IsExampleTable(regions: map<string, Region>) {
    regions == map["d" := DISTRICT,
                   "1" := ExampleVillage("1", "a|member:b"), "2" := ExampleVillage("2", "c"),
                   "3" := ExampleVillage("3", "a"), "4" := ExampleVillage("4", "b|member:c"),
                   "5" := ExampleVillage("5", "b")]
  }

  /** Length and first letter tell the codes of the example apart. */
  lemma ExampleCodesUnique(regions: map<string, Region>, i: string, j: string)
    requires IsExampleTable(regions) && i in regions && j in regions && regions[i].code == regions[j].code
    ensures i == j
  {
    hide NEXT_MEMBER;
    var c := regions[i].code;
    assert |c| > 0;
    assert (|c| > 1 && c[0] == 'a' ==> i == "1") && (|c| > 1 && c[0] == 'b' ==> i == "4");
    assert (|c| > 1 && c[0] == 'a' ==> j == "1") && (|c| > 1 && c[0] == 'b' ==> j == "4");
  }

  lemma ExampleTableIsLawful(regions: map<string, Region>)
    requires IsExampleTable(regions)
    ensures RegionsOk(regions)
  {
    forall i, j | i in regions && j in regions && regions[i].code == regions[j].code
      ensures i == j
    {
      ExampleCodesUnique(regions, i, j);
    }
    hide NEXT_MEMBER;
  }

  lemma ExampleRowsOfTable(regions: map<string, Region>)
    requires IsExampleTable(regions)
    ensures FromTable(regions, [DISTRICT])
    ensures FromTable(regions, [regions["1"], regions["2"]]) && FromTable(regions, [regions["3"], regions["4"]])
    ensures FromTable(regions, [regions["3"], regions["5"], regions["2"]])
  {
    hide NEXT_MEMBER;
  }

  /** A table with unique codes and two lawful coverages in it, of different villages, with one digest. */
  lemma LawfulCollisionExample(regions: map<string, Region>)
    requires IsExampleTable(regions)
    ensures var ms, ns := [regions["1"], regions["2"]], [regions["3"], regions["4"]];
            && RegionsOk(regions) && FromTable(regions, [DISTRICT]) && FromTable(regions, ms) && FromTable(regions, ns)
            && Lawful(DISTRICT, ms) && Lawful(DISTRICT, ns) && multiset(ms) != multiset(ns)
            && CoverageOf(DISTRICT, ms).digest == CoverageOf(DISTRICT, ns).digest
  {
    hide CoverageOf, StringLeq, NEXT_MEMBER, RegionsOk, FromTable, Codes;
    ExampleTableIsLawful(regions);
    ExampleRowsOfTable(regions);
    ExampleCodes();
    PairsCollide(DISTRICT, regions["1"], regions["2"], regions["3"], regions["4"], "b");
  }

  lemma TripleSorted(x: Region, y: Region, z: Region)
    requires ByCodeThenId(x, y) && ByCodeThenId(y, z)
    ensures Sort([x, y, z], ByCodeThenId) == [x, y, z]
  {
    PairSorted(y, z);
    assert [x, y, z][1..] == [y, z];
  }

  lemma LengthsDiffer(ms: seq<Region>, ns: seq<Region>)
    requires |ms| != |ns|
    ensures multiset(ms) != multiset(ns)
  {
    assert |multiset(ms)| == |ms| && |multiset(ns)| == |ns|;
  }

  /** Three villages, and two of which the first spells the codes of two of them. */
  lemma TripleCollides(d: Region, w: Region, x: Region, y: Region, z: Region)
    requires Lawful(d, [x, y, z]) && Lawful(d, [w, z])
    requires ByCodeThenId(x, y) && ByCodeThenId(y, z) && ByCodeThenId(w, z) && w.code == x.code + NEXT_MEMBER + y.code
    ensures CoverageOf(d, [x, y, z]).digest == CoverageOf(d, [w, z]).digest
    ensures multiset([x, y, z]) != multiset([w, z])
  {
    hide Lawful, ByCodeThenId, Digest, NEXT_MEMBER, Sort;
    TripleSorted(x, y, z);
    PairSorted(w, z);
    var cs, ds := [x.code, y.code, z.code], [w.code, z.code];
    assert Codes([x, y, z]) == cs && Codes([w, z]) == ds;
    FewerCodes(d.code, cs);
    assert ds == [cs[0] + NEXT_MEMBER + cs[1]] + cs[2..];
    LengthsDiffer([x, y, z], [w, z]);
  }

  /** In the same table three villages of readable codes are digested like two of which one is not. */
  lemma UnequalCollisionExample(regions: map<string, Region>)
    requires IsExampleTable(regions)
    ensures var ms, ns := [regions["3"], regions["5"], regions["2"]], [regions["1"], regions["2"]];
            && RegionsOk(regions) && FromTable(regions, [DISTRICT]) && FromTable(regions, ms) && FromTable(regions, ns)
            && Lawful(DISTRICT, ms) && Lawful(DISTRICT, ns) && multiset(ms) != multiset(ns)
            && CoverageOf(DISTRICT, ms).digest == CoverageOf(DISTRICT, ns).digest
    ensures forall m | m in [regions["3"], regions["5"], regions["2"]] :: !Contains(m.code, NEXT_MEMBER)
  {
    ShortCodesReadable();
    hide CoverageOf, StringLeq, NEXT_MEMBER, RegionsOk, FromTable, Contains;
    ExampleTableIsLawful(regions);
    ExampleRowsOfTable(regions);
    ExampleCodes();
    TripleCollides(DISTRICT, regions["1"], regions["3"], regions["5"], regions["2"]);
  }

  lemma ShortCodesReadable()
    ensures forall c | |c| < |NEXT_MEMBER| :: !Contains(c, NEXT_MEMBER)
    ensures |NEXT_MEMBER| == 8
  {
  }
}

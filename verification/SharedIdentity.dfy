/** Exactly when a vendor name and a period label make one import look like another. */
module SharedIdentity {
  import opened Delimiters
  import opened ImportIdentity
  import opened Outcomes
  import opened Text

  /** What stands between the vendor's name and the period label in the digested text. */
  const NEXT_LABEL: string := ['|'] + (KEYS[6] + [':'])

  function Vendor(f: Facts): string {
    StringText(f.metadata.sourceVendorName)
  }

  function Period(f: Facts): string {
    StringText(f.metadata.sourcePeriodLabel)
  }

  function WithNames(f: Facts, vendor: string, period: string): Facts {
    f.(metadata := f.metadata.(sourceVendorName := Some(vendor), sourcePeriodLabel := Some(period)))
  }

  /** Every fact but the two is free of the separator. */
  predicate OthersFree(f: Facts) {
    SeparatorFree(WithNames(f, "", ""))
  }

  predicate SameOthers(f: Facts, g: Facts) {
    SameIdentity(WithNames(f, "", ""), WithNames(g, "", ""))
  }

  predicate SameNames(f: Facts, g: Facts) {
    Vendor(f) == Vendor(g) && Period(f) == Period(g)
  }

  // ---------------------------------------------------------------- parts before, parts between, parts behind

  lemma {:induction false} LeadingPartsUnique(xs: seq<string>, s: string, ys: seq<string>, t: string, c: char)
    requires 0 < |xs| == |ys| && AllFree(xs, c) && AllFree(ys, c)
    requires Join(xs, c) + [c] + s == Join(ys, c) + [c] + t
    ensures xs == ys && s == t
  {
    if |xs| == 1 {
      FirstPartUnique(xs[0], ys[0], s, t, c);
      assert xs == [xs[0]] && ys == [ys[0]];
    } else {
      var x, y := Join(xs[1..], c), Join(ys[1..], c);
      assert xs[0] + [c] + (x + [c] + s) == Join(xs, c) + [c] + s;
      assert ys[0] + [c] + (y + [c] + t) == Join(ys, c) + [c] + t;
      FirstPartUnique(xs[0], ys[0], x + [c] + s, y + [c] + t, c);
      LeadingPartsUnique(xs[1..], s, ys[1..], t, c);
      assert xs == [xs[0]] + xs[1..] && ys == [ys[0]] + ys[1..];
    }
  }

  /** Text behind the last separator is determined by the whole. */
  lemma LastPartUnique(s: string, a: string, t: string, b: string, c: char)
    requires Free(a, c) && Free(b, c)
    requires s + [c] + a == t + [c] + b
    ensures s == t && a == b
  {
    var whole := s + [c] + a;
    assert whole[|s|] == c && whole[|t|] == c;
    assert forall i | |s| < i < |whole| :: whole[i] == a[i - |s| - 1];
    assert forall i | |t| < i < |whole| :: whole[i] == b[i - |t| - 1];
    assert |s| == |t|;
    assert s == whole[..|s|] == t;
    assert a == whole[|s| + 1..] == b;
  }

  lemma JoinEnd(front: seq<string>, last: string, c: char)
    requires |front| > 0
    ensures Join(front + [last], c) == Join(front, c) + [c] + last
  {
    JoinAppend(front, [last], c);
  }

  lemma LeftGrouped(s: string, x: string, y: string, c: char)
    ensures s + [c] + (x + [c] + y) == (s + [c] + x) + [c] + y
  {
  }

  lemma JoinLast(s: string, xs: seq<string>, c: char)
    requires |xs| > 1
    ensures s + [c] + Join(xs, c) == (s + [c] + Join(xs[..|xs| - 1], c)) + [c] + xs[|xs| - 1]
  {
    hide Join;
    var front, last := xs[..|xs| - 1], xs[|xs| - 1];
    JoinEnd(front, last, c);
    assert xs == front + [last];
    LeftGrouped(s, Join(front, c), last, c);
  }

  /** Of two readings of one ending the shorter list ends the longer one. */
  lemma {:induction false} TrailingPartsUnique(s: string, xs: seq<string>, t: string, ys: seq<string>, c: char)
    requires 0 < |xs| <= |ys| && AllFree(xs, c) && AllFree(ys, c)
    requires s + [c] + Join(xs, c) == t + [c] + Join(ys, c)
    ensures xs == ys[|ys| - |xs|..]
    ensures |xs| == |ys| ==> s == t
  {
    var m, n := |xs| - 1, |ys| - 1;
    var s', t' := s, t;
    if m > 0 {
      JoinLast(s, xs, c);
      s' := s + [c] + Join(xs[..m], c);
    }
    if n > 0 {
      JoinLast(t, ys, c);
      t' := t + [c] + Join(ys[..n], c);
    }
    LastPartUnique(s', xs[m], t', ys[n], c);
    assert xs == xs[..m] + [xs[m]] && ys == ys[..n] + [ys[n]];
    if m > 0 {
      TrailingPartsUnique(s, xs[..m], t, ys[..n], c);
      assert ys[|ys| - |xs|..] == ys[..n][n - m..] + [ys[n]];
    }
  }

  // ---------------------------------------------------------------- the fingerprint around the two names

  function Before(f: Facts): seq<string> {
    Head(f.reading) + Labelled(KEYS, MetadataTexts(f.metadata))[..5]
  }

  function Behind(f: Facts): seq<string> {
    Labelled(KEYS, MetadataTexts(f.metadata))[7..] + Segments(LateFields(f.reading, f.coverageDigest))
  }

  function NamesPart(f: Facts): string {
    KEYS[5] + [':'] + Vendor(f) + NEXT_LABEL + Period(f)
  }

  lemma LabelledNames(f: Facts)
    ensures Labelled(KEYS, MetadataTexts(f.metadata))[5..7] == [KEYS[5] + [':'] + Vendor(f), KEYS[6] + [':'] + Period(f)]
  {
  }

  lemma NamesJoined(f: Facts)
    ensures Join(Labelled(KEYS, MetadataTexts(f.metadata))[5..7], '|') == NamesPart(f)
  {
    hide Labelled, MetadataTexts, Vendor, Period;
    LabelledNames(f);
    var first, second := KEYS[5] + [':'] + Vendor(f), KEYS[6] + [':'];
    JoinCons(first, [second + Period(f)], '|');
    assert first + ['|'] + (second + Period(f)) == first + (['|'] + second) + Period(f);
  }

  /** What precedes the names, the names, and what follows them. */
  lemma FingerprintAroundNames(f: Facts)
    ensures Fingerprint(f) == Join(Before(f), '|') + ['|'] + (NamesPart(f) + ['|'] + Join(Behind(f), '|'))
  {
    hide Fingerprint, Labelled, MetadataTexts, LateFields, Segments, NamesPart, Head;
    FingerprintOfParts(f);
    NamesJoined(f);
    var ps := Labelled(KEYS, MetadataTexts(f.metadata));
    assert Parts(f) == Before(f) + (ps[5..7] + Behind(f));
    HeadIsFive(f.reading);
    JoinAppend(Before(f), ps[5..7] + Behind(f), '|');
    JoinAppend(ps[5..7], Behind(f), '|');
  }

  lemma HeadIsFive(r: Reading)
    ensures |Head(r)| == 5
  {
  }

  /** The two names occur nowhere else. */
  lemma AroundIgnoresNames(f: Facts)
    ensures Before(WithNames(f, "", "")) == Before(f) && Behind(WithNames(f, "", "")) == Behind(f)
  {
    hide LateFields, Segments, Head;
    var p, q := MetadataTexts(f.metadata), MetadataTexts(WithNames(f, "", "").metadata);
    assert p[..5] == q[..5] && p[7..] == q[7..];
    assert Labelled(KEYS, p)[..5] == Labelled(KEYS, q)[..5];
    assert Labelled(KEYS, p)[7..] == Labelled(KEYS, q)[7..];
  }

  lemma AroundFree(f: Facts)
    requires OthersFree(f)
    ensures AllFree(Before(f), '|') && AllFree(Behind(f), '|')
  {
    hide Labelled, MetadataTexts, LateFields, Segments, SeparatorFree;
    AroundIgnoresNames(f);
    var g := WithNames(f, "", "");
    PartsFree(g);
    HeadIsFive(g.reading);
    var ps, tail := Labelled(KEYS, MetadataTexts(g.metadata)), Segments(LateFields(g.reading, g.coverageDigest));
    forall x | x in Before(g)
      ensures x in Parts(g)
    {
      assert x in Head(g.reading) || x in ps[..5];
    }
    forall x | x in Behind(g)
      ensures x in Parts(g)
    {
      assert x in ps[7..] || x in tail;
    }
  }

  // ---------------------------------------------------------------- where the ending begins

  predicate HasTag(part: string, tag: string) {
    |tag| < |part| && part[..|tag|] == tag && part[|tag|] == ':'
  }

  lemma TagIsOne(part: string, t: string, u: string)
    requires Free(t, ':') && Free(u, ':') && HasTag(part, t) && HasTag(part, u)
    ensures t == u
  {
    assert part == t + [':'] + part[|t| + 1..] && part == u + [':'] + part[|u| + 1..];
    FirstPartUnique(t, u, part[|t| + 1..], part[|u| + 1..], ':');
  }

  lemma {:induction false} SegmentTag(fs: seq<Tagged>, k: nat) returns (i: nat)
    requires k < |Segments(fs)|
    ensures i < |fs| && HasTag(Segments(fs)[k], fs[i].tag)
  {
    if fs[0].value.Some? && k == 0 {
      i := 0;
    } else {
      i := SegmentTag(fs[1..], if fs[0].value.Some? then k - 1 else k);
      i := i + 1;
    }
  }

  lemma GranularityKey()
    ensures |KEYS[7]| == 23 && KEYS[7][0] == 's' && Free(KEYS[7], ':')
  {
    PeriodKeysAreWords();
    WordsAreFree(KEYS[7]);
  }

  lemma LaterKey(j: nat)
    requires 0 < j < 8
    ensures KEYS[7 + j] != KEYS[7] && Free(KEYS[7 + j], ':')
  {
    PeriodKeysAreWords();
    CoverageKeysAreWords();
    WordsAreFree(KEYS[7 + j]);
  }

  lemma LateTagIsNoKey(r: Reading, d: Option<string>, i: nat)
    requires i < |LateFields(r, d)|
    ensures LateFields(r, d)[i].tag != KEYS[7] && Free(LateFields(r, d)[i].tag, ':')
  {
    GranularityKey();
    LateTagFree(r, d, i);
    LateTagMarks(r, d, i);
  }

  lemma BehindStarts(f: Facts)
    ensures |Behind(f)| >= 8 && HasTag(Behind(f)[0], KEYS[7])
  {
    hide MetadataTexts, LateFields, Segments;
    var texts := MetadataTexts(f.metadata);
    assert Behind(f)[0] == KEYS[7] + [':'] + texts[7];
  }

  /** Only its first part carries the label of the first fact behind the names. */
  lemma BehindStartsOnce(f: Facts, j: nat)
    requires 0 < j < |Behind(f)|
    ensures !HasTag(Behind(f)[j], KEYS[7])
  {
    hide MetadataTexts, LateFields, Segments, HasTag;
    GranularityKey();
    var part, fs := Behind(f)[j], LateFields(f.reading, f.coverageDigest);
    if HasTag(part, KEYS[7]) {
      if j < 8 {
        LaterKey(j);
        KeyedPart(f, j);
        TagIsOne(part, KEYS[7], KEYS[7 + j]);
      } else {
        assert part == Segments(fs)[j - 8];
        var i := SegmentTag(fs, j - 8);
        LateTagIsNoKey(f.reading, f.coverageDigest, i);
        TagIsOne(part, KEYS[7], fs[i].tag);
      }
    }
  }

  lemma KeyedPart(f: Facts, j: nat)
    requires j < 8
    ensures |Behind(f)| > j && HasTag(Behind(f)[j], KEYS[7 + j])
  {
    hide MetadataTexts, LateFields, Segments;
    var texts := MetadataTexts(f.metadata);
    assert Behind(f)[j] == KEYS[7 + j] + [':'] + texts[7 + j];
  }

  /** One ending cannot end the other without being all of it. */
  lemma SameEnding(s: string, f: Facts, t: string, g: Facts)
    requires OthersFree(f) && OthersFree(g) && |Behind(f)| <= |Behind(g)|
    requires s + ['|'] + Join(Behind(f), '|') == t + ['|'] + Join(Behind(g), '|')
    ensures Behind(f) == Behind(g) && s == t
  {
    hide Behind, OthersFree, Join, HasTag;
    AroundFree(f);
    AroundFree(g);
    BehindStarts(f);
    BehindStarts(g);
    TrailingPartsUnique(s, Behind(f), t, Behind(g), '|');
    var j := |Behind(g)| - |Behind(f)|;
    assert Behind(f)[0] == Behind(g)[j];
    if j > 0 {
      BehindStartsOnce(g, j);
      assert false;
    }
  }

  // ---------------------------------------------------------------- what two alike imports share

  lemma SameAround(f: Facts, g: Facts)
    ensures SameOthers(f, g) <==> Before(f) == Before(g) && Behind(f) == Behind(g)
  {
    hide SameIdentity;
    var f0, g0 := WithNames(f, "", ""), WithNames(g, "", "");
    AroundIgnoresNames(f);
    AroundIgnoresNames(g);
    PartsOfAround(f0);
    PartsOfAround(g0);
    if Before(f) == Before(g) && Behind(f) == Behind(g) {
      SplitParts(f0, g0);
    }
    if SameOthers(f, g) {
      SameParts(f0, g0);
      BeforeOfParts(f0);
      BeforeOfParts(g0);
    }
  }

  lemma PartsOfAround(f: Facts)
    ensures Parts(f) == Before(f) + [KEYS[5] + [':'] + Vendor(f), KEYS[6] + [':'] + Period(f)] + Behind(f)
  {
    hide MetadataTexts, LateFields, Segments, Vendor, Period, Head;
    LabelledNames(f);
    var ps := Labelled(KEYS, MetadataTexts(f.metadata));
    assert ps == ps[..5] + ps[5..7] + ps[7..];
  }

  lemma BeforeOfParts(f: Facts)
    ensures |Before(f)| == 10 && Before(f) == Parts(f)[..10] && Behind(f) == Parts(f)[12..]
  {
    hide MetadataTexts, LateFields, Segments, Vendor, Period, Head, Parts;
    HeadIsFive(f.reading);
    PartsOfAround(f);
  }

  lemma SameParts(f: Facts, g: Facts)
    requires SameIdentity(f, g)
    ensures Parts(f) == Parts(g)
  {
    MetadataTextsInjective(f.metadata, g.metadata);
    SameLate(f.reading, f.coverageDigest, g.coverageDigest);
  }

  lemma SameLate(r: Reading, d: Option<string>, e: Option<string>)
    requires Stated(d) == Stated(e)
    ensures LateFields(r, d) == LateFields(r, e)
  {
  }

  lemma NamesDecide(f: Facts, g: Facts)
    ensures NamesPart(f) == NamesPart(g) <==>
            JoinBy([Vendor(f), Period(f)], NEXT_LABEL) == JoinBy([Vendor(g), Period(g)], NEXT_LABEL)
    ensures SameOthers(f, g) && SameNames(f, g) <==> SameIdentity(f, g)
  {
    hide UtcDay, StringText;
    var head := KEYS[5] + [':'];
    var v, w := Vendor(f) + NEXT_LABEL + Period(f), Vendor(g) + NEXT_LABEL + Period(g);
    TwoJoined(Vendor(f), Period(f));
    TwoJoined(Vendor(g), Period(g));
    assert NamesPart(f) == head + v && NamesPart(g) == head + w;
    assert NamesPart(f)[|head|..] == v && NamesPart(g)[|head|..] == w;
  }

  lemma TwoJoined(v: string, p: string)
    ensures JoinBy([v, p], NEXT_LABEL) == v + NEXT_LABEL + p
  {
    assert [v, p][1..] == [p];
  }

  /**
   * Whatever the two names hold: two imports whose other facts are free of the separator have one
   * fingerprint exactly when the other facts are the same and the two names, joined by the label
   * between them, read alike.
   */
  lemma OneFingerprintMeans(f: Facts, g: Facts)
    requires OthersFree(f) && OthersFree(g)
    ensures Fingerprint(f) == Fingerprint(g) <==>
            SameOthers(f, g) && JoinBy([Vendor(f), Period(f)], NEXT_LABEL) == JoinBy([Vendor(g), Period(g)], NEXT_LABEL)
  {
    hide Fingerprint, OthersFree, SameOthers, Before, Behind, NamesPart, JoinBy, Join, SameIdentity;
    FingerprintAroundNames(f);
    FingerprintAroundNames(g);
    SameAround(f, g);
    NamesDecide(f, g);
    if Fingerprint(f) == Fingerprint(g) {
      AroundFree(f);
      AroundFree(g);
      BeforeOfParts(f);
      BeforeOfParts(g);
      LeadingPartsUnique(Before(f), NamesPart(f) + ['|'] + Join(Behind(f), '|'),
                         Before(g), NamesPart(g) + ['|'] + Join(Behind(g), '|'), '|');
      if |Behind(f)| <= |Behind(g)| {
        SameEnding(NamesPart(f), f, NamesPart(g), g);
      } else {
        SameEnding(NamesPart(g), g, NamesPart(f), f);
      }
    }
  }

  /** A different import with the same fingerprint, its other facts free of the separator too. */
  ghost predicate LooksLike(f: Facts, g: Facts) {
    OthersFree(g) && Fingerprint(f) == Fingerprint(g) && !SameIdentity(f, g)
  }

  /**
   * An import whose other facts are free of the separator is mistaken for a different one exactly
   * when its vendor name or its period label spells the label between them.
   */
  lemma MistakenExactly(f: Facts)
    requires OthersFree(f)
    ensures (exists g :: LooksLike(f, g)) <==> Contains(Vendor(f), NEXT_LABEL) || Contains(Period(f), NEXT_LABEL)
  {
    hide Fingerprint, SameIdentity, JoinBy, Contains, SeparatorFree;
    var cs := [Vendor(f), Period(f)];
    NextLabelIsDelimiter();
    MisreadExactly(cs, NEXT_LABEL);
    assert (exists i | 0 <= i < |cs| :: Contains(cs[i], NEXT_LABEL)) <==>
           Contains(Vendor(f), NEXT_LABEL) || Contains(Period(f), NEXT_LABEL) by {
      assert cs[0] == Vendor(f) && cs[1] == Period(f);
    }
    if ds :| Misread(cs, ds, NEXT_LABEL) {
      MisreadIsMistaken(f, ds);
    }
    if g :| LooksLike(f, g) {
      OneFingerprintMeans(f, g);
      NamesDecide(f, g);
      var ds := [Vendor(g), Period(g)];
      assert ds[0] == Vendor(g) && ds[1] == Period(g);
      assert Misread(cs, ds, NEXT_LABEL);
    }
  }

  lemma MisreadIsMistaken(f: Facts, ds: seq<string>)
    requires OthersFree(f) && Misread([Vendor(f), Period(f)], ds, NEXT_LABEL)
    ensures LooksLike(f, WithNames(f, ds[0], ds[1]))
  {
    hide Fingerprint, SameIdentity, JoinBy, SeparatorFree;
    var g := WithNames(f, ds[0], ds[1]);
    assert WithNames(g, "", "") == WithNames(f, "", "");
    SameFactsAreSame(WithNames(f, "", ""));
    assert ds == [Vendor(g), Period(g)];
    OneFingerprintMeans(f, g);
    NamesDecide(f, g);
  }

  lemma SameFactsAreSame(f: Facts)
    ensures SameIdentity(f, f)
  {
  }

  lemma LabelIsDelimiter(word: string)
    requires Free(word, '|')
    ensures IsDelimiter(['|'] + (word + [':']))
  {
    assert (['|'] + (word + [':']))[1..] == word + [':'];
  }

  lemma NextLabelIsDelimiter()
    ensures IsDelimiter(NEXT_LABEL)
  {
    hide Free, IsWord;
    PeriodKeysAreWords();
    WordsAreFree(KEYS[6]);
    LabelIsDelimiter(KEYS[6]);
  }
}

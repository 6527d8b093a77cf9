/** Exactly when an import none of whose facts holds the separator is still mistaken for another. */
module ConditionalSegments {
  import opened ImportIdentity
  import opened Outcomes
  import opened SharedIdentity
  import opened Text

  // ---------------------------------------------------------------- a joined text cut at every separator

  function Split(s: string, c: char): (parts: seq<string>)
    ensures |parts| > 0
  {
    if |s| == 0 then [""]
    else
      var rest := Split(s[1..], c);
      if s[0] == c then [""] + rest else [[s[0]] + rest[0]] + rest[1..]
  }

  lemma {:induction false} SplitFree(s: string, c: char)
    ensures AllFree(Split(s, c), c)
  {
    if |s| > 0 {
      var rest := Split(s[1..], c);
      SplitFree(s[1..], c);
      assert rest[0] in rest && forall p | p in rest[1..] :: p in rest;
    }
  }

  lemma {:induction false} SplitJoins(s: string, c: char)
    ensures Join(Split(s, c), c) == s && AllFree(Split(s, c), c)
  {
    SplitFree(s, c);
    if |s| > 0 {
      var rest := Split(s[1..], c);
      SplitJoins(s[1..], c);
      assert s == [s[0]] + s[1..];
      if s[0] == c {
        JoinCons("", rest, c);
      } else {
        LongerFirst(s[0], rest, c);
      }
    }
  }

  lemma LongerFirst(x: char, parts: seq<string>, c: char)
    requires |parts| > 0
    ensures Join([[x] + parts[0]] + parts[1..], c) == [x] + Join(parts, c)
  {
    assert parts == [parts[0]] + parts[1..];
    if |parts| > 1 {
      JoinCons(parts[0], parts[1..], c);
      JoinCons([x] + parts[0], parts[1..], c);
    }
  }

  lemma FreeIsOnePart(s: string, c: char)
    ensures Free(s, c) <==> |Split(s, c)| == 1
    ensures Free(s, c) ==> Split(s, c) == [s]
  {
    hide Split;
    SplitJoins(s, c);
    var parts := Split(s, c);
    if |parts| == 1 {
      assert parts == [s] && s in parts;
    }
    if Free(s, c) {
      JoinInjective(parts, [s], c);
    }
  }

  /** The first of several parts is the text up to the first separator. */
  lemma FirstOfSplit(s: string, c: char)
    requires !Free(s, c)
    ensures |Split(s, c)| > 1 && |Split(s, c)[0]| < |s| && Split(s, c)[0] == s[..|Split(s, c)[0]|]
    ensures s[|Split(s, c)[0]|] == c
  {
    FreeIsOnePart(s, c);
    SplitJoins(s, c);
    var parts := Split(s, c);
    assert s == parts[0] + [c] + Join(parts[1..], c);
  }

  /** Every part of the list, cut. */
  function Cut(qs: seq<string>, c: char): seq<string> {
    if |qs| == 0 then [] else Split(qs[0], c) + Cut(qs[1..], c)
  }

  lemma Regrouped(xs: seq<string>, ys: seq<string>, zs: seq<string>)
    ensures xs + (ys + zs) == (xs + ys) + zs
  {
  }

  lemma {:induction false} CutAppend(xs: seq<string>, ys: seq<string>, c: char)
    ensures Cut(xs + ys, c) == Cut(xs, c) + Cut(ys, c)
  {
    if |xs| == 0 {
      assert xs + ys == ys;
    } else {
      hide Split;
      CutAppend(xs[1..], ys, c);
      assert (xs + ys)[0] == xs[0] && (xs + ys)[1..] == xs[1..] + ys;
      Regrouped(Split(xs[0], c), Cut(xs[1..], c), Cut(ys, c));
    }
  }

  lemma {:induction false} CutJoins(qs: seq<string>, c: char)
    requires |qs| > 0
    ensures |Cut(qs, c)| > 0 && AllFree(Cut(qs, c), c) && Join(Cut(qs, c), c) == Join(qs, c)
  {
    hide Split;
    SplitJoins(qs[0], c);
    if |qs| > 1 {
      CutJoins(qs[1..], c);
      JoinAppend(Split(qs[0], c), Cut(qs[1..], c), c);
      assert forall p | p in Cut(qs, c) :: p in Split(qs[0], c) || p in Cut(qs[1..], c);
    } else {
      assert Cut(qs, c) == Split(qs[0], c);
    }
  }

  /** Cutting never makes a list shorter, and changes nothing when it makes it no longer. */
  lemma {:induction false} CutIsLonger(qs: seq<string>, c: char)
    ensures |Cut(qs, c)| >= |qs|
    ensures |Cut(qs, c)| == |qs| ==> Cut(qs, c) == qs
  {
    if |qs| == 0 {
      assert qs == [];
    } else {
      CutIsLonger(qs[1..], c);
      FreeIsOnePart(qs[0], c);
      assert |Cut(qs, c)| == |Split(qs[0], c)| + |Cut(qs[1..], c)|;
      assert qs == [qs[0]] + qs[1..];
    }
  }

  lemma {:induction false} CutOfFree(qs: seq<string>, c: char)
    requires AllFree(qs, c)
    ensures Cut(qs, c) == qs
  {
    if |qs| > 0 {
      assert qs[0] in qs && forall q | q in qs[1..] :: q in qs;
      CutOfFree(qs[1..], c);
      FreeIsOnePart(qs[0], c);
      assert qs == [qs[0]] + qs[1..];
    }
  }

  // ---------------------------------------------------------------- what the cut of the other import tells

  /** A stated text that another stated fact follows can take over what follows. The channel is one of a few words. */
  predicate IsText(i: nat) {
    (i < 6 && i != 1) || i == 8
  }

  predicate Absorbs(f: Facts) {
    var fs := LateFields(f.reading, f.coverageDigest);
    exists i, j | 0 <= i < j < |fs| :: IsText(i) && fs[i].value.Some? && fs[j].value.Some?
  }

  /** Two stated fields, one behind the other. */
  lemma {:induction false} NextSegment(fs: seq<Tagged>, k: nat) returns (i: nat, j: nat)
    requires k + 1 < |Segments(fs)|
    ensures i < j < |fs| && fs[i].value.Some? && fs[j].value.Some?
    ensures Segments(fs)[k] == fs[i].tag + [':'] + fs[i].value.value
  {
    if fs[0].value.None? {
      i, j := NextSegment(fs[1..], k);
      i, j := i + 1, j + 1;
    } else if k > 0 {
      i, j := NextSegment(fs[1..], k - 1);
      i, j := i + 1, j + 1;
    } else {
      j := FirstSegment(fs[1..]);
      i, j := 0, j + 1;
    }
  }

  /** The field a segment spells. */
  lemma {:induction false} SegmentField(fs: seq<Tagged>, k: nat) returns (i: nat)
    requires k < |Segments(fs)|
    ensures i < |fs| && fs[i].value.Some? && Segments(fs)[k] == fs[i].tag + [':'] + fs[i].value.value
  {
    if fs[0].value.Some? && k == 0 {
      i := 0;
    } else {
      i := SegmentField(fs[1..], if fs[0].value.Some? then k - 1 else k);
      i := i + 1;
    }
  }

  lemma NumberTextFree(n: Option<int>)
    ensures NumberText(n).Some? ==> Free(NumberText(n).value, '|')
  {
    if n.Some? {
      assert '|' in Numeral(n.value) ==> '0' <= '|' <= '9' || '|' == '-';
    }
  }

  /** Only texts and the digest, which is last, can hold a separator. */
  lemma OtherValuesFree(r: Reading, d: Option<string>, i: nat)
    requires i < 10 && !IsText(i) && Free(r.ingestionChannel, '|')
    ensures LateFields(r, d)[i].value.Some? ==> Free(LateFields(r, d)[i].value.value, '|')
  {
    NumberTextFree(r.resourceNameColumn);
    NumberTextFree(r.sourceUnitColumn);
    NumberTextFree(r.kdnColumn);
  }

  lemma LateFieldsAreEleven(f: Facts)
    ensures |LateFields(f.reading, f.coverageDigest)| == 11
  {
  }

  /** A segment of the other import that holds a separator begins where two of this one's stand. */
  lemma AbsorbingSegment(f: Facts, g: Facts, k: nat, s: nat)
    requires Free(g.reading.ingestionChannel, '|')
    requires var bs := Segments(LateFields(g.reading, g.coverageDigest));
             var fs := Segments(LateFields(f.reading, f.coverageDigest));
             k < |bs| && !Free(bs[k], '|') && s + 1 < |fs| && fs[s] == Split(bs[k], '|')[0]
    ensures Absorbs(f)
  {
    hide LateFields, Segments, Split;
    var gs, fs := LateFields(g.reading, g.coverageDigest), LateFields(f.reading, f.coverageDigest);
    var m := SegmentField(gs, k);
    LateTagsDistinct(f.reading, f.coverageDigest, g.reading, g.coverageDigest);
    var i, j := NextSegment(fs, s);
    LateFieldsAreEleven(f);
    LateTagFree(g.reading, g.coverageDigest, m);
    var seg, tag := Segments(gs)[k], gs[m].tag;
    FirstOfSplit(seg, '|');
    TagBeforeSeparator(seg, tag, |Split(seg, '|')[0]|);
    LateTagFree(f.reading, f.coverageDigest, i);
    TagIsOne(Segments(fs)[s], fs[i].tag, tag);
    assert i == m;
    SeparatorInValue(seg, tag, gs[m].value.value);
    if i < 10 && !IsText(i) {
      OtherValuesFree(g.reading, g.coverageDigest, i);
      assert false;
    }
  }

  lemma TagBeforeSeparator(seg: string, tag: string, n: nat)
    requires HasTag(seg, tag) && Free(tag, '|') && n < |seg| && seg[n] == '|'
    ensures HasTag(seg[..n], tag)
  {
    assert forall k | 0 <= k < |tag| :: seg[k] == seg[..|tag|][k] && tag[k] in tag;
    assert n > |tag|;
  }

  lemma SeparatorInValue(seg: string, tag: string, v: string)
    requires seg == tag + [':'] + v && Free(tag, '|') && !Free(seg, '|')
    ensures !Free(v, '|') && HasTag(seg, tag)
  {
  }

  // ---------------------------------------------------------------- the other import has the same parts

  lemma LastKey()
    ensures |KEYS[14]| == 18 && KEYS[14][0] == 'd' && Free(KEYS[14], ':')
  {
    CoverageKeysAreWords();
    WordsAreFree(KEYS[14]);
  }

  /** The last fact that is always spelled. */
  function LastPart(f: Facts): string {
    KEYS[14] + [':'] + BoolText(f.metadata.deliveredToProject)
  }

  function Fixed(f: Facts): seq<string> {
    Head(f.reading) + Labelled(KEYS, MetadataTexts(f.metadata))[..14]
  }

  function Late(f: Facts): seq<string> {
    Segments(LateFields(f.reading, f.coverageDigest))
  }

  lemma PartsInThree(f: Facts)
    ensures |Fixed(f)| == 19 && Parts(f) == Fixed(f) + [LastPart(f)] + Late(f)
  {
    hide LateFields, Segments, Head;
    HeadIsFive(f.reading);
    var ts := MetadataTexts(f.metadata);
    var ps := Labelled(KEYS, ts);
    assert ts[14] == BoolText(f.metadata.deliveredToProject);
    assert ps[14] == LastPart(f);
    assert ps == ps[..14] + [ps[14]];
  }

  lemma LastPartFree(f: Facts)
    ensures Free(LastPart(f), '|') && HasTag(LastPart(f), KEYS[14])
  {
    KeyFree(14);
    FlagTextsFree(f.metadata.deliveredToProject);
    hide BoolText, KEYS;
  }

  /** No conditional segment looks like the last fixed part. */
  lemma LateIsNotLast(f: Facts, k: nat)
    requires k < |Late(f)|
    ensures !HasTag(Late(f)[k], KEYS[14])
  {
    hide LateFields, Segments;
    LateFieldsAreEleven(f);
    LastKey();
    var fs := LateFields(f.reading, f.coverageDigest);
    var i := SegmentField(fs, k);
    LateTagFree(f.reading, f.coverageDigest, i);
    LateTagMarks(f.reading, f.coverageDigest, i);
    if HasTag(Late(f)[k], KEYS[14]) {
      TagIsOne(Late(f)[k], KEYS[14], fs[i].tag);
      assert false;
    }
  }

  /** Cutting the other's parts gives this one's: the fixed parts agree, and the rest is the rest, cut. */
  lemma FixedPartsAgree(f: Facts, g: Facts)
    requires SeparatorFree(f) && Fingerprint(f) == Fingerprint(g)
    ensures Fixed(f) == Fixed(g) && LastPart(f) == LastPart(g) && Cut(Late(g), '|') == Late(f)
  {
    hide Fingerprint, SeparatorFree, Fixed, LastPart, Late, Parts, Join, Cut, Split, HasTag;
    FingerprintOfParts(f);
    FingerprintOfParts(g);
    PartsInThree(f);
    PartsInThree(g);
    PartsFree(f);
    CutJoins(Parts(g), '|');
    JoinInjective(Cut(Parts(g), '|'), Parts(f), '|');
    CutInThree(Fixed(g), LastPart(g), Late(g));
    LastPartFree(g);
    CutIsLonger(Fixed(g), '|');
    CutOfOne(LastPart(g));
    LastPartFree(f);
    var n := |Cut(Fixed(g), '|')|;
    assert Parts(f)[n] == LastPart(g);
    if n > 19 {
      assert Parts(f)[n] == Late(f)[n - 20];
      LateIsNotLast(f, n - 20);
      assert false;
    }
    assert Parts(f)[..19] == Fixed(g) && Parts(f)[20..] == Cut(Late(g), '|');
  }

  lemma CutOfOne(q: string)
    requires Free(q, '|')
    ensures Cut([q], '|') == [q]
  {
    CutOfFree([q], '|');
  }

  lemma CutInThree(xs: seq<string>, q: string, ys: seq<string>)
    ensures Cut(xs + [q] + ys, '|') == Cut(xs, '|') + Cut([q], '|') + Cut(ys, '|')
  {
    CutAppend(xs + [q], ys, '|');
    CutAppend(xs, [q], '|');
  }

  /** Where nothing can absorb what follows, the conditional segments agree too. */
  lemma SegmentsAgree(f: Facts, g: Facts)
    requires Cut(Late(g), '|') == Late(f) && Free(g.reading.ingestionChannel, '|') && !Absorbs(f)
    ensures Late(g) == Late(f)
  {
    hide LateFields, Segments, Split, Absorbs;
    var bs := Late(g);
    forall k | 0 <= k < |bs|
      ensures Free(bs[k], '|')
    {
      if !Free(bs[k], '|') {
        assert bs == bs[..k] + [bs[k]] + bs[k + 1..];
        CutInThree(bs[..k], bs[k], bs[k + 1..]);
        FirstOfSplit(bs[k], '|');
        assert Cut([bs[k]], '|') == Split(bs[k], '|');
        AbsorbingSegment(f, g, k, |Cut(bs[..k], '|')|);
      }
    }
    CutOfFree(bs, '|');
  }

  /** Another import, its channel one of the known words, with the same fingerprint. */
  ghost predicate Alike(f: Facts, g: Facts) {
    Free(g.reading.ingestionChannel, '|') && Fingerprint(f) == Fingerprint(g) && !SameIdentity(f, g)
  }

  lemma AlikeAbsorbs(f: Facts, g: Facts)
    requires SeparatorFree(f) && Alike(f, g)
    ensures Absorbs(f)
  {
    hide Fingerprint, SeparatorFree, SameIdentity, Fixed, LastPart, Late, Absorbs, Cut;
    FixedPartsAgree(f, g);
    if !Absorbs(f) {
      SegmentsAgree(f, g);
      PartsInThree(f);
      PartsInThree(g);
      SplitParts(f, g);
    }
  }

  // ---------------------------------------------------------------- an import that takes over what follows

  /** The facts with one conditional fact changed: a text set, or any of them unstated. */
  function WithLate(f: Facts, i: nat, v: Option<string>): Facts
    requires i < 11 && (v.Some? ==> IsText(i))
  {
    var r := f.reading;
    if i == 0 then f.(reading := r.(regionScopeLabel := v))
    else if i == 1 then f.(reading := r.(ingestionChannel := "USER_UPLOAD"))
    else if i == 2 then f.(reading := r.(connectorId := v))
    else if i == 3 then f.(reading := r.(externalSourceId := v))
    else if i == 4 then f.(reading := r.(externalRecordId := v))
    else if i == 5 then f.(reading := r.(externalVersion := v))
    else if i == 6 then f.(reading := r.(resourceNameColumn := None))
    else if i == 7 then f.(reading := r.(sourceUnitColumn := None))
    else if i == 8 then f.(reading := r.(declaredSection := v))
    else if i == 9 then f.(reading := r.(kdnColumn := None))
    else f.(coverageDigest := None)
  }

  /** What conditional fact `k` states. */
  function ValueAt(r: Reading, d: Option<string>, k: nat): Option<string>
    requires k < 11
  {
    if k == 0 then r.regionScopeLabel
    else if k == 1 then if r.ingestionChannel != "USER_UPLOAD" then Some(r.ingestionChannel) else None
    else if k == 2 then r.connectorId
    else if k == 3 then r.externalSourceId
    else if k == 4 then r.externalRecordId
    else if k == 5 then r.externalVersion
    else if k == 6 then NumberText(r.resourceNameColumn)
    else if k == 7 then NumberText(r.sourceUnitColumn)
    else if k == 8 then r.declaredSection
    else if k == 9 then NumberText(r.kdnColumn)
    else Stated(d)
  }

  lemma LateValue(r: Reading, d: Option<string>, k: nat)
    requires k < 11
    ensures LateFields(r, d)[k].value == ValueAt(r, d, k)
  {
  }

  lemma WithLateValues(f: Facts, i: nat, v: Option<string>, k: nat)
    requires i < 11 && k < 11 && (v.Some? ==> IsText(i))
    ensures var g := WithLate(f, i, v);
            ValueAt(g.reading, g.coverageDigest, k) == if k == i then v else ValueAt(f.reading, f.coverageDigest, k)
  {
  }

  lemma WithLateFields(f: Facts, i: nat, v: Option<string>)
    requires i < 11 && (v.Some? ==> IsText(i))
    ensures var g, fs := WithLate(f, i, v), LateFields(f.reading, f.coverageDigest);
            && LateFields(g.reading, g.coverageDigest) == fs[i := Tagged(fs[i].tag, v)]
  {
    hide LateFields, WithLate, ValueAt;
    LateFieldsAreEleven(f);
    var g, fs := WithLate(f, i, v), LateFields(f.reading, f.coverageDigest);
    var gs := LateFields(g.reading, g.coverageDigest);
    LateTagsDistinct(f.reading, f.coverageDigest, g.reading, g.coverageDigest);
    forall k | 0 <= k < 11
      ensures gs[k] == if k == i then Tagged(fs[i].tag, v) else fs[k]
    {
      LateValue(f.reading, f.coverageDigest, k);
      LateValue(g.reading, g.coverageDigest, k);
      WithLateValues(f, i, v, k);
    }
  }

  lemma WithLateOthers(f: Facts, i: nat, v: Option<string>)
    requires i < 11 && (v.Some? ==> IsText(i))
    ensures var g := WithLate(f, i, v);
            && Head(g.reading) == Head(f.reading) && g.metadata == f.metadata
            && (g.reading.ingestionChannel == f.reading.ingestionChannel || g.reading.ingestionChannel == "USER_UPLOAD")
  {
  }

  function Spelled(t: Tagged): seq<string> {
    if t.value.Some? then [t.tag + [':'] + t.value.value] else []
  }

  lemma {:induction false} SegmentsAppend(xs: seq<Tagged>, ys: seq<Tagged>)
    ensures Segments(xs + ys) == Segments(xs) + Segments(ys)
  {
    if |xs| == 0 {
      assert xs + ys == ys;
    } else {
      SegmentsAppend(xs[1..], ys);
      assert (xs + ys)[0] == xs[0] && (xs + ys)[1..] == xs[1..] + ys;
      Regrouped(Spelled(xs[0]), Segments(xs[1..]), Segments(ys));
    }
  }

  lemma {:induction false} NothingSpelled(xs: seq<Tagged>)
    requires forall t | t in xs :: t.value.None?
    ensures Segments(xs) == []
  {
    if |xs| > 0 {
      assert xs[0] in xs;
      NothingSpelled(xs[1..]);
    }
  }

  lemma InFiveParts(fs: seq<Tagged>, i: nat, j: nat)
    requires i < j < |fs|
    ensures fs == fs[..i] + ([fs[i]] + fs[i + 1..j] + [fs[j]]) + fs[j + 1..]
  {
    assert fs == fs[..i] + fs[i..j + 1] + fs[j + 1..];
    assert fs[i..j + 1] == [fs[i]] + fs[i + 1..j] + [fs[j]];
  }

  /** The segments around one field and the next that says something. */
  lemma SegmentsAround(fs: seq<Tagged>, i: nat, j: nat)
    requires i < j < |fs| && forall k | i < k < j :: fs[k].value.None?
    ensures Segments(fs) == Segments(fs[..i]) + (Spelled(fs[i]) + Spelled(fs[j])) + Segments(fs[j + 1..])
  {
    hide Segments, Spelled;
    var between := fs[i + 1..j];
    PairSpelled(fs[i], between, fs[j]);
    var middle := [fs[i]] + between + [fs[j]];
    InFiveParts(fs, i, j);
    SegmentsAppend(fs[..i] + middle, fs[j + 1..]);
    SegmentsAppend(fs[..i], middle);
  }

  lemma PairSpelled(x: Tagged, between: seq<Tagged>, y: Tagged)
    requires forall t | t in between :: t.value.None?
    ensures Segments([x] + between + [y]) == Spelled(x) + Spelled(y)
  {
    hide Segments, Spelled;
    SegmentsAppend([x] + between, [y]);
    SegmentsAppend([x], between);
    NothingSpelled(between);
    OneSpelled(x);
    OneSpelled(y);
  }

  lemma OneSpelled(t: Tagged)
    ensures Segments([t]) == Spelled(t)
  {
    assert [t][1..] == [];
  }

  /** A text that spells the segment behind it, in the place of both. */
  function TakenOver(fs: seq<Tagged>, i: nat, j: nat): string
    requires i < j < |fs| && fs[i].value.Some? && fs[j].value.Some?
  {
    fs[i].value.value + ['|'] + (fs[j].tag + [':'] + fs[j].value.value)
  }

  lemma TakenOverReadsAlike(pre: seq<string>, fs: seq<Tagged>, i: nat, j: nat)
    requires |pre| > 0 && i < j < |fs| && fs[i].value.Some? && fs[j].value.Some?
    requires forall k | i < k < j :: fs[k].value.None?
    ensures var gs := fs[i := Tagged(fs[i].tag, Some(TakenOver(fs, i, j)))][j := Tagged(fs[j].tag, None)];
            Join(pre + Segments(gs), '|') == Join(pre + Segments(fs), '|')
  {
    hide Segments, Join;
    var gs := fs[i := Tagged(fs[i].tag, Some(TakenOver(fs, i, j)))][j := Tagged(fs[j].tag, None)];
    SegmentsAround(fs, i, j);
    SegmentsAround(gs, i, j);
    assert gs[..i] == fs[..i] && gs[j + 1..] == fs[j + 1..];
    var x, y := fs[i].tag + [':'] + fs[i].value.value, fs[j].tag + [':'] + fs[j].value.value;
    var xs, zs := Segments(fs[..i]), Segments(fs[j + 1..]);
    assert Spelled(fs[i]) + Spelled(fs[j]) == [x, y];
    PairJoined(x, y);
    assert fs[i].tag + [':'] + TakenOver(fs, i, j) == x + ['|'] + y;
    assert Spelled(gs[i]) + Spelled(gs[j]) == [x + ['|'] + y];
    JoinNested(pre + xs, [x, y], zs, '|');
    assert pre + Segments(fs) == pre + xs + [x, y] + zs;
    assert pre + Segments(gs) == pre + xs + [x + ['|'] + y] + zs;
  }

  lemma PairJoined(x: string, y: string)
    ensures Join([x, y], '|') == x + ['|'] + y
  {
    JoinCons(x, [y], '|');
  }

  /** The import in which text `i` takes over the next stated fact `j`. */
  function Absorbed(f: Facts, i: nat, j: nat): Facts
    requires var fs := LateFields(f.reading, f.coverageDigest);
             i < j < 11 && IsText(i) && fs[i].value.Some? && fs[j].value.Some?
  {
    WithLate(WithLate(f, i, Some(TakenOver(LateFields(f.reading, f.coverageDigest), i, j))), j, None)
  }

  /** Whatever the texts, the import that absorbs the next fact is another one with the same fingerprint. */
  lemma AbsorbedIsAlike(f: Facts, i: nat, j: nat)
    requires var fs := LateFields(f.reading, f.coverageDigest);
             && i < j < 11 && IsText(i) && fs[i].value.Some? && fs[j].value.Some?
             && forall k | i < k < j :: fs[k].value.None?
    requires Free(f.reading.ingestionChannel, '|')
    ensures Alike(f, Absorbed(f, i, j))
  {
    hide LateFields, WithLate, Segments, Join, Fingerprint, SameIdentity;
    LateFieldsAreEleven(f);
    var fs, g := LateFields(f.reading, f.coverageDigest), Absorbed(f, i, j);
    var v := TakenOver(fs, i, j);
    var h := WithLate(f, i, Some(v));
    WithLateFields(f, i, Some(v));
    WithLateFields(h, j, None);
    WithLateOthers(f, i, Some(v));
    WithLateOthers(h, j, None);
    var pre := Head(f.reading) + Labelled(KEYS, MetadataTexts(f.metadata));
    HeadIsFive(f.reading);
    TakenOverReadsAlike(pre, fs, i, j);
    FingerprintOfParts(f);
    FingerprintOfParts(g);
    UploadIsWord();
    OtherLateOtherFacts(f, g, i);
  }

  lemma UploadIsWord()
    ensures Free("USER_UPLOAD", '|')
  {
  }

  lemma OtherLateOtherFacts(f: Facts, g: Facts, i: nat)
    requires i < 11
    requires LateFields(f.reading, f.coverageDigest)[i] != LateFields(g.reading, g.coverageDigest)[i]
    ensures !SameIdentity(f, g)
  {
    if SameIdentity(f, g) {
      SameLate(f.reading, f.coverageDigest, g.coverageDigest);
    }
  }

  /**
   * An import none of whose facts holds the separator shares its fingerprint with a different import,
   * whatever that one's facts hold, exactly when some stated conditional text is followed by another
   * stated conditional fact.
   */
  lemma CleanMistakenExactly(f: Facts)
    requires SeparatorFree(f)
    ensures (exists g :: Alike(f, g)) <==> Absorbs(f)
  {
    hide LateFields, Alike, SeparatorFree;
    LateFieldsAreEleven(f);
    if g :| Alike(f, g) {
      AlikeAbsorbs(f, g);
    }
    if Absorbs(f) {
      var fs := LateFields(f.reading, f.coverageDigest);
      var i, j :| 0 <= i < j < |fs| && IsText(i) && fs[i].value.Some? && fs[j].value.Some?;
      j := NextStated(fs, i, j);
      ChannelFree(f);
      AbsorbedIsAlike(f, i, j);
    }
  }

  lemma ChannelFree(f: Facts)
    requires SeparatorFree(f)
    ensures Free(f.reading.ingestionChannel, '|')
  {
  }

  lemma {:induction false} NextStated(fs: seq<Tagged>, i: nat, j: nat) returns (n: nat)
    requires i < j < |fs| && fs[j].value.Some?
    ensures i < n <= j && fs[n].value.Some? && forall k | i < k < n :: fs[k].value.None?
    decreases j
  {
    if k :| i < k < j && fs[k].value.Some? {
      n := NextStated(fs, i, k);
    } else {
      n := j;
    }
  }
}

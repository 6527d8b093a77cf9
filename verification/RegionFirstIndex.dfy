/** Price counts grouped by verified province and city, and the keys that filter them back. */
module RegionFirstIndex {
  import opened Outcomes
  import opened RegionLadder

  /** A region with its nested parents as they were read. */
  datatype Node = Node(id: string, level: Option<Level>, parent: Option<Node>)

  datatype Priced = Priced(regionId: Option<string>, count: int)

  /** Where one price counts. */
  datatype Bucket = General | Unverified | Own(province: string) | In(province: string, city: string)

  datatype CityGroup = CityGroup(count: nat, ids: set<string>)

  datatype ProvinceGroup = ProvinceGroup(count: nat, own: nat, ownIds: set<string>, cities: map<string, CityGroup>,
                                         cityOrder: seq<string>)

  datatype Groups = Groups(
    provinces: map<string, ProvinceGroup>,
    order: seq<string>,
    unknown: map<string, nat>,
    unknownOrder: seq<string>,
    general: nat)

  // ---------------------------------------------------------------- the bucket of a region

  function ParentAt(r: Node, level: Level): Option<Node> {
    if r.parent.Some? && r.parent.value.level == Some(level) then r.parent else None
  }

  /** The city of a region and its province, only where the whole chain is verified. */
  function CityBucket(city: Node): Bucket {
    var province := ParentAt(city, Province);
    if province.Some? then In(province.value.id, city.id) else Unverified
  }

  function GroupOf(r: Node): Bucket {
    match r.level
    case None => Unverified
    case Some(Province) => Own(r.id)
    case Some(RegencyCity) => CityBucket(r)
    case Some(District) =>
      var city := ParentAt(r, RegencyCity);
      if city.Some? then CityBucket(city.value) else Unverified
    case Some(Village) =>
      var district := ParentAt(r, District);
      if district.None? then Unverified
      else
        var city := ParentAt(district.value, RegencyCity);
        if city.Some? then CityBucket(city.value) else Unverified
  }

  function BucketOf(lookup: map<string, Node>, regionId: Option<string>): Bucket {
    if regionId.None? then General
    else if regionId.value in lookup then GroupOf(lookup[regionId.value])
    else Unverified
  }

  predicate InProvince(b: Bucket, p: string) {
    match b
    case Own(q) => q == p
    case In(q, _) => q == p
    case _ => false
  }

  // ---------------------------------------------------------------- plain sums over the rows

  function Total(es: seq<Priced>): int {
    if |es| == 0 then 0 else Total(es[..|es| - 1]) + es[|es| - 1].count
  }

  function SumIn(lookup: map<string, Node>, es: seq<Priced>, b: Bucket): int {
    if |es| == 0 then 0
    else
      var e := es[|es| - 1];
      SumIn(lookup, es[..|es| - 1], b) + (if BucketOf(lookup, e.regionId) == b then e.count else 0)
  }

  function SumInProvince(lookup: map<string, Node>, es: seq<Priced>, p: string): int {
    if |es| == 0 then 0
    else
      var e := es[|es| - 1];
      SumInProvince(lookup, es[..|es| - 1], p) + (if InProvince(BucketOf(lookup, e.regionId), p) then e.count else 0)
  }

  /** Filtering the rows by region id. */
  function SumOfIds(es: seq<Priced>, ids: set<string>): int {
    if |es| == 0 then 0
    else
      var e := es[|es| - 1];
      SumOfIds(es[..|es| - 1], ids) + (if e.regionId.Some? && e.regionId.value in ids then e.count else 0)
  }

  /** The priced regions of a bucket. */
  function IdsIn(lookup: map<string, Node>, es: seq<Priced>, b: Bucket): set<string> {
    if |es| == 0 then {}
    else
      var e := es[|es| - 1];
      IdsIn(lookup, es[..|es| - 1], b)
      + (if e.count > 0 && e.regionId.Some? && BucketOf(lookup, e.regionId) == b then {e.regionId.value} else {})
  }

  lemma {:induction false} IdsAreOfTheBucket(lookup: map<string, Node>, es: seq<Priced>, b: Bucket)
    ensures forall x | x in IdsIn(lookup, es, b) :: BucketOf(lookup, Some(x)) == b
  {
    if |es| > 0 {
      IdsAreOfTheBucket(lookup, es[..|es| - 1], b);
    }
  }

  predicate Counted(es: seq<Priced>) {
    forall i | 0 <= i < |es| :: es[i].count >= 0
  }

  /** Any set of a bucket's regions that holds all its priced ones filters out exactly the bucket. */
  lemma {:induction false} FilterIsBucket(lookup: map<string, Node>, es: seq<Priced>, b: Bucket, ids: set<string>)
    requires Counted(es) && b != General
    requires IdsIn(lookup, es, b) <= ids && forall x | x in ids :: BucketOf(lookup, Some(x)) == b
    ensures SumOfIds(es, ids) == SumIn(lookup, es, b)
  {
    if |es| > 0 {
      FilterIsBucket(lookup, es[..|es| - 1], b, ids);
    }
  }

  lemma {:induction false} FilterIsProvince(lookup: map<string, Node>, es: seq<Priced>, p: string, ids: set<string>)
    requires Counted(es)
    requires forall b | InProvince(b, p) :: IdsIn(lookup, es, b) <= ids
    requires forall x | x in ids :: InProvince(BucketOf(lookup, Some(x)), p)
    ensures SumOfIds(es, ids) == SumInProvince(lookup, es, p)
  {
    if |es| > 0 {
      var e := es[|es| - 1];
      forall b | InProvince(b, p)
        ensures IdsIn(lookup, es[..|es| - 1], b) <= ids
      {
        assert IdsIn(lookup, es, b) <= ids;
      }
      FilterIsProvince(lookup, es[..|es| - 1], p, ids);
      if e.count > 0 && e.regionId.Some? && InProvince(BucketOf(lookup, e.regionId), p) {
        assert e.regionId.value in IdsIn(lookup, es, BucketOf(lookup, e.regionId));
      }
    }
  }

  // ---------------------------------------------------------------- sums over groups

  function SumBy<V>(order: seq<string>, m: map<string, V>, w: V -> nat): nat
    requires forall k | k in order :: k in m
  {
    if |order| == 0 then 0 else SumBy(order[..|order| - 1], m, w) + w(m[order[|order| - 1]])
  }

  predicate DistinctKeys(order: seq<string>) {
    forall i, j | 0 <= i < j < |order| :: order[i] != order[j]
  }

  lemma {:induction false} SumByUpdate<V>(order: seq<string>, m: map<string, V>, w: V -> nat, k: string, v: V)
    requires DistinctKeys(order) && (forall x | x in order :: x in m)
    ensures SumBy(order, m[k := v], w) == SumBy(order, m, w) + (if k in order then w(v) - w(m[k]) else 0)
  {
    if |order| > 0 {
      var rest, last := order[..|order| - 1], order[|order| - 1];
      assert order == rest + [last];
      SumByUpdate(rest, m, w, k, v);
    }
  }

  /** Appending a new key, or updating an old one. */
  function Ordered(order: seq<string>, k: string): seq<string> {
    if k in order then order else order + [k]
  }

  lemma SumByPut<V>(order: seq<string>, m: map<string, V>, w: V -> nat, k: string, v: V)
    requires DistinctKeys(order) && forall x :: x in order <==> x in m
    ensures DistinctKeys(Ordered(order, k)) && forall x :: x in Ordered(order, k) <==> x in m[k := v]
    ensures SumBy(Ordered(order, k), m[k := v], w) == SumBy(order, m, w) + w(v) - (if k in m then w(m[k]) else 0)
  {
    SumByUpdate(order, m, w, k, v);
    if k !in order {
      assert Ordered(order, k)[..|order|] == order;
    }
  }

  function CityCount(c: CityGroup): nat {
    c.count
  }

  function ProvinceCount(p: ProvinceGroup): nat {
    p.count
  }

  function Itself(n: nat): nat {
    n
  }

  // ---------------------------------------------------------------- what the groups say about the rows so far

  ghost predicate CityOk(lookup: map<string, Node>, es: seq<Priced>, p: string, c: string, g: CityGroup) {
    g.count == SumIn(lookup, es, In(p, c)) && g.ids == IdsIn(lookup, es, In(p, c)) && g.ids != {}
  }

  ghost predicate ProvinceOk(lookup: map<string, Node>, es: seq<Priced>, p: string, g: ProvinceGroup) {
    && g.own == SumIn(lookup, es, Own(p)) && g.ownIds == IdsIn(lookup, es, Own(p))
    && g.count == SumInProvince(lookup, es, p)
    && DistinctKeys(g.cityOrder) && (forall c :: c in g.cityOrder <==> c in g.cities)
    && g.count == g.own + SumBy(g.cityOrder, g.cities, CityCount)
    && (forall c | c in g.cities :: CityOk(lookup, es, p, c, g.cities[c]))
    && (forall c | c !in g.cities :: NoneIn(lookup, es, In(p, c)))
  }

  /** The bucket is empty. */
  predicate NoneIn(lookup: map<string, Node>, es: seq<Priced>, b: Bucket) {
    SumIn(lookup, es, b) == 0 && IdsIn(lookup, es, b) == {}
  }

  ghost predicate NoneInProvince(lookup: map<string, Node>, es: seq<Priced>, p: string) {
    SumInProvince(lookup, es, p) == 0 && forall b | InProvince(b, p) :: NoneIn(lookup, es, b)
  }

  ghost predicate ProvincesOk(lookup: map<string, Node>, es: seq<Priced>, provinces: map<string, ProvinceGroup>,
                              order: seq<string>) {
    && DistinctKeys(order) && (forall p :: p in order <==> p in provinces)
    && (forall p | p in provinces :: ProvinceOk(lookup, es, p, provinces[p]))
    && (forall p | p !in provinces :: NoneInProvince(lookup, es, p))
  }

  ghost predicate UnknownOk(lookup: map<string, Node>, es: seq<Priced>, unknown: map<string, nat>, order: seq<string>) {
    && DistinctKeys(order) && (forall x :: x in order <==> x in unknown)
    && SumBy(order, unknown, Itself) == SumIn(lookup, es, Unverified)
    && unknown.Keys == IdsIn(lookup, es, Unverified)
  }

  /** Every group states its bucket, and together they state every row. */
  ghost predicate GroupsOk(lookup: map<string, Node>, es: seq<Priced>, g: Groups) {
    && ProvincesOk(lookup, es, g.provinces, g.order)
    && UnknownOk(lookup, es, g.unknown, g.unknownOrder)
    && g.general == SumIn(lookup, es, General)
    && Total(es) == SumBy(g.order, g.provinces, ProvinceCount) + SumBy(g.unknownOrder, g.unknown, Itself) + g.general
  }

  // ---------------------------------------------------------------- one row

  const EMPTY_PROVINCE := ProvinceGroup(0, 0, {}, map[], [])

  function PlusOwn(g: ProvinceGroup, regionId: string, n: nat): ProvinceGroup {
    g.(count := g.count + n, own := g.own + n, ownIds := g.ownIds + {regionId})
  }

  function PlusCity(g: ProvinceGroup, c: string, regionId: string, n: nat): ProvinceGroup {
    var prior := if c in g.cities then g.cities[c] else CityGroup(0, {});
    g.(count := g.count + n, cities := g.cities[c := CityGroup(prior.count + n, prior.ids + {regionId})],
       cityOrder := Ordered(g.cityOrder, c))
  }

  /** The group of a province before a row of it is added. */
  function ProvinceBefore(g: Groups, p: string): ProvinceGroup {
    if p in g.provinces then g.provinces[p] else EMPTY_PROVINCE
  }

  function PutProvince(g: Groups, p: string, v: ProvinceGroup): Groups {
    g.(provinces := g.provinces[p := v], order := Ordered(g.order, p))
  }

  function PutUnknown(g: Groups, x: string, n: nat): Groups {
    g.(unknown := g.unknown[x := (if x in g.unknown then g.unknown[x] else 0) + n], unknownOrder := Ordered(g.unknownOrder, x))
  }

  lemma OneMore(lookup: map<string, Node>, es: seq<Priced>, e: Priced, b: Bucket, p: string)
    ensures Total(es + [e]) == Total(es) + e.count
    ensures SumIn(lookup, es + [e], b) == SumIn(lookup, es, b) + (if BucketOf(lookup, e.regionId) == b then e.count else 0)
    ensures SumInProvince(lookup, es + [e], p) ==
            SumInProvince(lookup, es, p) + (if InProvince(BucketOf(lookup, e.regionId), p) then e.count else 0)
    ensures IdsIn(lookup, es + [e], b) == IdsIn(lookup, es, b)
              + (if e.count > 0 && e.regionId.Some? && BucketOf(lookup, e.regionId) == b then {e.regionId.value} else {})
  {
    assert (es + [e])[..|es|] == es;
  }

  /** A row of no count, or of another bucket. */
  predicate Misses(lookup: map<string, Node>, e: Priced, b: Bucket) {
    e.count == 0 || BucketOf(lookup, e.regionId) != b
  }

  lemma CityStays(lookup: map<string, Node>, es: seq<Priced>, e: Priced, p: string, c: string, g: ProvinceGroup)
    requires ProvinceOk(lookup, es, p, g) && Misses(lookup, e, In(p, c))
    ensures c in g.cities ==> CityOk(lookup, es + [e], p, c, g.cities[c])
    ensures c !in g.cities ==> NoneIn(lookup, es + [e], In(p, c))
  {
    OneMore(lookup, es, e, In(p, c), p);
    assert c in g.cities ==> CityOk(lookup, es, p, c, g.cities[c]);
    assert c !in g.cities ==> NoneIn(lookup, es, In(p, c));
  }

  lemma OtherProvinceStays(lookup: map<string, Node>, es: seq<Priced>, e: Priced, p: string, g: ProvinceGroup)
    requires ProvinceOk(lookup, es, p, g) && (e.count == 0 || !InProvince(BucketOf(lookup, e.regionId), p))
    ensures ProvinceOk(lookup, es + [e], p, g)
  {
    OneMore(lookup, es, e, Own(p), p);
    forall c
      ensures c in g.cities ==> CityOk(lookup, es + [e], p, c, g.cities[c])
      ensures c !in g.cities ==> NoneIn(lookup, es + [e], In(p, c))
    {
      CityStays(lookup, es, e, p, c, g);
    }
  }

  lemma EmptyProvinceStays(lookup: map<string, Node>, es: seq<Priced>, e: Priced, p: string)
    requires NoneInProvince(lookup, es, p) && (e.count == 0 || !InProvince(BucketOf(lookup, e.regionId), p))
    ensures NoneInProvince(lookup, es + [e], p)
  {
    OneMore(lookup, es, e, Own(p), p);
    forall b | InProvince(b, p)
      ensures NoneIn(lookup, es + [e], b)
    {
      OneMore(lookup, es, e, b, p);
      assert NoneIn(lookup, es, b);
    }
  }

  lemma EmptyProvinceIsOk(lookup: map<string, Node>, es: seq<Priced>, p: string)
    requires NoneInProvince(lookup, es, p)
    ensures ProvinceOk(lookup, es, p, EMPTY_PROVINCE)
  {
    assert forall c :: InProvince(In(p, c), p);
    assert InProvince(Own(p), p);
  }

  lemma OwnRow(lookup: map<string, Node>, es: seq<Priced>, e: Priced, p: string, g: ProvinceGroup)
    requires ProvinceOk(lookup, es, p, g) && e.count > 0 && e.regionId.Some? && BucketOf(lookup, e.regionId) == Own(p)
    ensures ProvinceOk(lookup, es + [e], p, PlusOwn(g, e.regionId.value, e.count))
  {
    OneMore(lookup, es, e, Own(p), p);
    forall c
      ensures c in g.cities ==> CityOk(lookup, es + [e], p, c, g.cities[c])
      ensures c !in g.cities ==> NoneIn(lookup, es + [e], In(p, c))
    {
      CityStays(lookup, es, e, p, c, g);
    }
  }

  /** The city the row belongs to, known before or not. */
  lemma CityGrows(lookup: map<string, Node>, es: seq<Priced>, e: Priced, p: string, c: string, g: ProvinceGroup)
    requires ProvinceOk(lookup, es, p, g) && e.count > 0 && e.regionId.Some? && BucketOf(lookup, e.regionId) == In(p, c)
    ensures CityOk(lookup, es + [e], p, c, PlusCity(g, c, e.regionId.value, e.count).cities[c])
  {
    hide SumBy;
    OneMore(lookup, es, e, In(p, c), p);
    assert c !in g.cities ==> NoneIn(lookup, es, In(p, c));
    assert c in g.cities ==> CityOk(lookup, es, p, c, g.cities[c]);
    assert e.regionId.value in PlusCity(g, c, e.regionId.value, e.count).cities[c].ids;
  }

  lemma CityRow(lookup: map<string, Node>, es: seq<Priced>, e: Priced, p: string, c: string, g: ProvinceGroup)
    requires ProvinceOk(lookup, es, p, g) && e.count > 0 && e.regionId.Some? && BucketOf(lookup, e.regionId) == In(p, c)
    ensures ProvinceOk(lookup, es + [e], p, PlusCity(g, c, e.regionId.value, e.count))
  {
    hide SumBy, SumIn, SumInProvince, IdsIn, CityOk, NoneIn;
    var g' := PlusCity(g, c, e.regionId.value, e.count);
    OneMore(lookup, es, e, Own(p), p);
    CityGrows(lookup, es, e, p, c, g);
    SumByPut(g.cityOrder, g.cities, CityCount, c, g'.cities[c]);
    forall d | d != c
      ensures d in g.cities ==> CityOk(lookup, es + [e], p, d, g.cities[d])
      ensures d !in g.cities ==> NoneIn(lookup, es + [e], In(p, d))
    {
      CityStays(lookup, es, e, p, d, g);
    }
  }

  lemma ProvincesStay(lookup: map<string, Node>, es: seq<Priced>, e: Priced, provinces: map<string, ProvinceGroup>,
                      order: seq<string>)
    requires ProvincesOk(lookup, es, provinces, order)
    requires forall q :: e.count == 0 || !InProvince(BucketOf(lookup, e.regionId), q)
    ensures ProvincesOk(lookup, es + [e], provinces, order)
  {
    hide ProvinceOk, NoneInProvince;
    forall q
      ensures q in provinces ==> ProvinceOk(lookup, es + [e], q, provinces[q])
      ensures q !in provinces ==> NoneInProvince(lookup, es + [e], q)
    {
      if q in provinces {
        OtherProvinceStays(lookup, es, e, q, provinces[q]);
      } else {
        EmptyProvinceStays(lookup, es, e, q);
      }
    }
  }

  lemma ProvincesPut(lookup: map<string, Node>, es: seq<Priced>, e: Priced, provinces: map<string, ProvinceGroup>,
                     order: seq<string>, p: string, v: ProvinceGroup)
    requires ProvincesOk(lookup, es, provinces, order) && InProvince(BucketOf(lookup, e.regionId), p)
    requires ProvinceOk(lookup, es + [e], p, v)
    ensures ProvincesOk(lookup, es + [e], provinces[p := v], Ordered(order, p))
    ensures SumBy(Ordered(order, p), provinces[p := v], ProvinceCount)
            == SumBy(order, provinces, ProvinceCount) + v.count - (if p in provinces then provinces[p].count else 0)
  {
    hide ProvinceOk, NoneInProvince, SumBy;
    SumByPut(order, provinces, ProvinceCount, p, v);
    forall q | q != p
      ensures q in provinces ==> ProvinceOk(lookup, es + [e], q, provinces[q])
      ensures q !in provinces ==> NoneInProvince(lookup, es + [e], q)
    {
      if q in provinces {
        OtherProvinceStays(lookup, es, e, q, provinces[q]);
      } else {
        EmptyProvinceStays(lookup, es, e, q);
      }
    }
  }

  lemma UnknownStays(lookup: map<string, Node>, es: seq<Priced>, e: Priced, unknown: map<string, nat>, order: seq<string>)
    requires UnknownOk(lookup, es, unknown, order) && Misses(lookup, e, Unverified)
    ensures UnknownOk(lookup, es + [e], unknown, order)
  {
    OneMore(lookup, es, e, Unverified, "");
  }

  lemma UnknownPut(lookup: map<string, Node>, es: seq<Priced>, e: Priced, unknown: map<string, nat>, order: seq<string>,
                   n: nat)
    requires UnknownOk(lookup, es, unknown, order)
    requires e.count > 0 && e.regionId.Some? && BucketOf(lookup, e.regionId) == Unverified
    requires n == (if e.regionId.value in unknown then unknown[e.regionId.value] else 0) + e.count
    ensures UnknownOk(lookup, es + [e], unknown[e.regionId.value := n], Ordered(order, e.regionId.value))
  {
    hide SumBy;
    OneMore(lookup, es, e, Unverified, "");
    SumByPut(order, unknown, Itself, e.regionId.value, n);
  }

  lemma ProvinceRow(lookup: map<string, Node>, es: seq<Priced>, e: Priced, g: Groups, p: string, v: ProvinceGroup)
    requires GroupsOk(lookup, es, g) && e.count > 0 && InProvince(BucketOf(lookup, e.regionId), p)
    requires ProvinceOk(lookup, es + [e], p, v) && v.count == ProvinceBefore(g, p).count + e.count
    ensures GroupsOk(lookup, es + [e], PutProvince(g, p, v))
  {
    hide ProvinceOk, ProvincesOk, SumBy, UnknownOk;
    OneMore(lookup, es, e, General, p);
    ProvincesPut(lookup, es, e, g.provinces, g.order, p, v);
    UnknownStays(lookup, es, e, g.unknown, g.unknownOrder);
  }

  lemma UnknownRow(lookup: map<string, Node>, es: seq<Priced>, e: Priced, g: Groups)
    requires GroupsOk(lookup, es, g) && e.count > 0 && e.regionId.Some? && BucketOf(lookup, e.regionId) == Unverified
    ensures GroupsOk(lookup, es + [e], PutUnknown(g, e.regionId.value, e.count))
  {
    hide ProvincesOk, SumBy, IdsIn;
    OneMore(lookup, es, e, Unverified, "");
    OneMore(lookup, es, e, General, "");
    ProvincesStay(lookup, es, e, g.provinces, g.order);
    UnknownPut(lookup, es, e, g.unknown, g.unknownOrder, PutUnknown(g, e.regionId.value, e.count).unknown[e.regionId.value]);
  }

  lemma GeneralRow(lookup: map<string, Node>, es: seq<Priced>, e: Priced, g: Groups)
    requires GroupsOk(lookup, es, g) && e.count >= 0 && (e.count == 0 || e.regionId.None?)
    ensures GroupsOk(lookup, es + [e], if e.count == 0 then g else g.(general := g.general + e.count))
  {
    hide ProvincesOk, UnknownOk, SumBy;
    OneMore(lookup, es, e, General, "");
    ProvincesStay(lookup, es, e, g.provinces, g.order);
    UnknownStays(lookup, es, e, g.unknown, g.unknownOrder);
  }

  // ---------------------------------------------------------------- the index

  method BuildIndex(priced: seq<Priced>, regions: seq<Node>) returns (r: Option<Groups>)
    ensures r.Some? <==> Counted(priced)
    ensures r.Some? ==> GroupsOk(Lookup(regions), priced, r.value)
  {
    var lookup := IndexNodes(regions);
    var g := Groups(map[], [], map[], [], 0);
    EmptyGroups(lookup);
    for k := 0 to |priced|
      invariant Counted(priced[..k]) && GroupsOk(lookup, priced[..k], g)
    {
      var e := priced[k];
      ghost var es := priced[..k];
      assert priced[..k + 1] == es + [e];
      if e.count < 0 {
        return None;
      }
      var bucket := BucketOf(lookup, e.regionId);
      if e.count == 0 || e.regionId.None? {
        GeneralRow(lookup, es, e, g);
        g := if e.count == 0 then g else g.(general := g.general + e.count);
      } else if bucket == Unverified {
        UnknownRow(lookup, es, e, g);
        g := PutUnknown(g, e.regionId.value, e.count);
      } else {
        g := AddToProvince(lookup, es, e, bucket, g);
      }
    }
    assert priced[..|priced|] == priced;
    return Some(g);
  }

  /** A row of a verified region joins its province's own prices or one of its cities. */
  method AddToProvince(ghost lookup: map<string, Node>, ghost es: seq<Priced>, e: Priced, bucket: Bucket, g: Groups)
    returns (g': Groups)
    requires GroupsOk(lookup, es, g) && e.count > 0 && e.regionId.Some?
    requires bucket == BucketOf(lookup, e.regionId) && (bucket.Own? || bucket.In?)
    ensures GroupsOk(lookup, es + [e], g')
  {
    hide UnknownOk, ProvinceOk, SumBy;
    var p := bucket.province;
    var before := ProvinceBefore(g, p);
    if p !in g.provinces {
      EmptyProvinceIsOk(lookup, es, p);
    }
    var regionId := e.regionId.value;
    var after;
    if bucket.Own? {
      OwnRow(lookup, es, e, p, before);
      after := PlusOwn(before, regionId, e.count);
    } else {
      CityRow(lookup, es, e, p, bucket.city, before);
      after := PlusCity(before, bucket.city, regionId, e.count);
    }
    ProvinceRow(lookup, es, e, g, p, after);
    g' := PutProvince(g, p, after);
  }

  function Lookup(regions: seq<Node>): map<string, Node> {
    if |regions| == 0 then map[] else Lookup(regions[..|regions| - 1])[regions[|regions| - 1].id := regions[|regions| - 1]]
  }

  method IndexNodes(regions: seq<Node>) returns (m: map<string, Node>)
    ensures m == Lookup(regions)
  {
    m := map[];
    for k := 0 to |regions|
      invariant m == Lookup(regions[..k])
    {
      m := m[regions[k].id := regions[k]];
      assert regions[..k + 1][..k] == regions[..k];
    }
    assert regions[..|regions|] == regions;
  }

  lemma EmptyGroups(lookup: map<string, Node>)
    ensures GroupsOk(lookup, [], Groups(map[], [], map[], [], 0))
  {
  }

  // ---------------------------------------------------------------- conservation and agreement

  /** The total is the provinces, the unverified and the general prices; each province is its own and its cities'. */
  lemma IndexConserves(lookup: map<string, Node>, priced: seq<Priced>, g: Groups)
    requires GroupsOk(lookup, priced, g)
    ensures Total(priced) == SumBy(g.order, g.provinces, ProvinceCount) + SumIn(lookup, priced, Unverified)
                             + SumIn(lookup, priced, General)
    ensures forall p | p in g.provinces ::
              var v := g.provinces[p];
              && (forall c :: c in v.cityOrder <==> c in v.cities)
              && v.count == v.own + SumBy(v.cityOrder, v.cities, CityCount)
  {
    assert forall p | p in g.provinces :: ProvinceOk(lookup, priced, p, g.provinces[p]);
  }

  /** The regions one group of the index counts. */
  function IdsOf(g: Groups, b: Bucket): set<string> {
    match b
    case General => {}
    case Unverified => g.unknown.Keys
    case Own(p) => if p in g.provinces then g.provinces[p].ownIds else {}
    case In(p, c) => if p in g.provinces && c in g.provinces[p].cities then g.provinces[p].cities[c].ids else {}
  }

  /** Each group holds exactly the priced regions of its bucket, so a priced region lies in one group only. */
  lemma GroupsAreDisjoint(lookup: map<string, Node>, priced: seq<Priced>, g: Groups, b: Bucket)
    requires GroupsOk(lookup, priced, g) && b != General
    ensures IdsOf(g, b) == IdsIn(lookup, priced, b)
    ensures forall d | d != b && d != General :: IdsOf(g, d) !! IdsOf(g, b)
  {
    forall d | d != General
      ensures IdsOf(g, d) == IdsIn(lookup, priced, d)
      ensures forall x | x in IdsIn(lookup, priced, d) :: BucketOf(lookup, Some(x)) == d
    {
      GroupHoldsBucket(lookup, priced, g, d);
      IdsAreOfTheBucket(lookup, priced, d);
    }
  }

  lemma GroupHoldsBucket(lookup: map<string, Node>, priced: seq<Priced>, g: Groups, b: Bucket)
    requires GroupsOk(lookup, priced, g) && b != General
    ensures IdsOf(g, b) == IdsIn(lookup, priced, b)
  {
    hide SumBy;
    if b.Own? || b.In? {
      var p := b.province;
      if p in g.provinces {
        assert ProvinceOk(lookup, priced, p, g.provinces[p]);
        assert b.In? && b.city in g.provinces[p].cities ==> CityOk(lookup, priced, p, b.city, g.provinces[p].cities[b.city]);
        assert b.In? && b.city !in g.provinces[p].cities ==> NoneIn(lookup, priced, b);
      } else {
        assert NoneInProvince(lookup, priced, p) && InProvince(b, p);
      }
    }
  }

  /** A published key of the index. */
  datatype Key = KGeneral | KUnverified | KAll(province: string) | KOwn(province: string) | KCity(city: string)

  /** The rows a key selects: those without a region, or those of the given regions. */
  datatype Selection = WithoutRegion | OfRegions(ids: set<string>)

  function AllIds(v: ProvinceGroup): set<string> {
    v.ownIds + set c, x | c in v.cities && x in v.cities[c].ids :: x
  }

  /** What the key selects within one province. */
  function InGroup(p: string, v: ProvinceGroup, key: Key): Option<set<string>> {
    match key
    case KAll(q) => if q == p then Some(AllIds(v)) else None
    case KOwn(q) => if q == p && v.own > 0 then Some(v.ownIds) else None
    case KCity(c) => if c in v.cities then Some(v.cities[c].ids) else None
    case _ => None
  }

  /** The provinces are asked in order; the first that knows the key answers. */
  function Ask(provinces: map<string, ProvinceGroup>, order: seq<string>, key: Key): Option<set<string>>
    requires forall p | p in order :: p in provinces
  {
    if |order| == 0 then None
    else
      var here := InGroup(order[0], provinces[order[0]], key);
      if here.Some? then here else Ask(provinces, order[1..], key)
  }

  function UnverifiedCount(g: Groups): nat
    requires forall x | x in g.unknownOrder :: x in g.unknown
  {
    SumBy(g.unknownOrder, g.unknown, Itself)
  }

  function Select(g: Groups, key: Key): Option<Selection>
    requires (forall p | p in g.order :: p in g.provinces) && (forall x | x in g.unknownOrder :: x in g.unknown)
  {
    match key
    case KGeneral => if g.general > 0 then Some(WithoutRegion) else None
    case KUnverified => if UnverifiedCount(g) > 0 then Some(OfRegions(g.unknown.Keys)) else None
    case _ =>
      var ids := Ask(g.provinces, g.order, key);
      if ids.Some? then Some(OfRegions(ids.value)) else None
  }

  function SumSelected(lookup: map<string, Node>, es: seq<Priced>, s: Selection): int {
    match s
    case WithoutRegion => SumIn(lookup, es, General)
    case OfRegions(ids) => SumOfIds(es, ids)
  }

  /** Filtering the rows by what a province's own selections name sums to that selection's count. */
  lemma GroupFilters(lookup: map<string, Node>, priced: seq<Priced>, g: Groups, p: string)
    requires Counted(priced) && GroupsOk(lookup, priced, g) && p in g.provinces
    ensures var v := g.provinces[p];
            && SumOfIds(priced, v.ownIds) == v.own
            && (forall c | c in v.cities :: SumOfIds(priced, v.cities[c].ids) == v.cities[c].count)
            && SumOfIds(priced, AllIds(v)) == v.count
  {
    var v := g.provinces[p];
    assert ProvinceOk(lookup, priced, p, v);
    IdsAreOfTheBucket(lookup, priced, Own(p));
    FilterIsBucket(lookup, priced, Own(p), v.ownIds);
    forall c | c in v.cities
      ensures SumOfIds(priced, v.cities[c].ids) == v.cities[c].count
      ensures forall x | x in v.cities[c].ids :: BucketOf(lookup, Some(x)) == In(p, c)
    {
      assert CityOk(lookup, priced, p, c, v.cities[c]);
      IdsAreOfTheBucket(lookup, priced, In(p, c));
      FilterIsBucket(lookup, priced, In(p, c), v.cities[c].ids);
    }
    forall b | InProvince(b, p)
      ensures IdsIn(lookup, priced, b) <= AllIds(v)
    {
      if b.In? && b.city in v.cities {
        assert CityOk(lookup, priced, p, b.city, v.cities[b.city]);
      } else if b.In? {
        assert NoneIn(lookup, priced, In(p, b.city));
      }
    }
    FilterIsProvince(lookup, priced, p, AllIds(v));
  }

  /** The first province in the order that answers. */
  lemma {:induction false} AskFinds(provinces: map<string, ProvinceGroup>, order: seq<string>, key: Key) returns (i: nat)
    requires (forall p | p in order :: p in provinces) && Ask(provinces, order, key).Some?
    ensures i < |order| && Ask(provinces, order, key) == InGroup(order[i], provinces[order[i]], key)
  {
    if InGroup(order[0], provinces[order[0]], key).Some? {
      i := 0;
    } else {
      i := AskFinds(provinces, order[1..], key);
      i := i + 1;
    }
  }

  /** A key that one province alone knows is answered by that province. */
  lemma {:induction false} AskUnique(provinces: map<string, ProvinceGroup>, order: seq<string>, key: Key, p: string)
    requires (forall q | q in order :: q in provinces) && p in order
    requires InGroup(p, provinces[p], key).Some?
    requires forall q | q in order && q != p :: InGroup(q, provinces[q], key).None?
    ensures Ask(provinces, order, key) == InGroup(p, provinces[p], key)
  {
    if order[0] != p {
      assert order == [order[0]] + order[1..];
      assert order[0] in order;
      AskUnique(provinces, order[1..], key, p);
    }
  }

  /**
   * Whatever a key of the index selects, filtering the input rows by it sums to the count of one
   * group: general, unverified, a province with all its cities, a province's own, or a city.
   */
  lemma SelectionAgrees(lookup: map<string, Node>, priced: seq<Priced>, g: Groups, key: Key)
    requires Counted(priced) && GroupsOk(lookup, priced, g) && Select(g, key).Some?
    ensures var n := SumSelected(lookup, priced, Select(g, key).value);
            match key
            case KGeneral => n == g.general
            case KUnverified => n == UnverifiedCount(g)
            case KAll(p) => p in g.provinces && n == g.provinces[p].count
            case KOwn(p) => p in g.provinces && n == g.provinces[p].own
            case KCity(c) => exists p :: p in g.provinces && c in g.provinces[p].cities && n == g.provinces[p].cities[c].count
  {
    hide ProvinceOk, SumBy, IdsIn;
    match key
    case KGeneral =>
    case KUnverified =>
      IdsAreOfTheBucket(lookup, priced, Unverified);
      FilterIsBucket(lookup, priced, Unverified, g.unknown.Keys);
    case _ =>
      var i := AskFinds(g.provinces, g.order, key);
      GroupFilters(lookup, priced, g, g.order[i]);
  }

  // ---------------------------------------------------------------- the published keys

  function CityKeys(order: seq<string>): (ks: seq<Key>)
    ensures |ks| == |order| && forall i | 0 <= i < |order| :: ks[i] == KCity(order[i])
  {
    seq(|order|, i requires 0 <= i < |order| => KCity(order[i]))
  }

  function ProvinceKeys(p: string, v: ProvinceGroup): seq<Key> {
    (if v.own > 0 then [KOwn(p)] else []) + CityKeys(v.cityOrder)
  }

  function AllProvinceKeys(provinces: map<string, ProvinceGroup>, order: seq<string>): seq<Key>
    requires forall p | p in order :: p in provinces
  {
    if |order| == 0 then []
    else ProvinceKeys(order[0], provinces[order[0]]) + AllProvinceKeys(provinces, order[1..])
  }

  /** The keys offered for filtering; a province with all its cities is asked for by a key of its own. */
  function GroupKeys(g: Groups): seq<Key>
    requires (forall p | p in g.order :: p in g.provinces) && (forall x | x in g.unknownOrder :: x in g.unknown)
  {
    AllProvinceKeys(g.provinces, g.order) + (if UnverifiedCount(g) > 0 then [KUnverified] else [])
    + (if g.general > 0 then [KGeneral] else [])
  }

  lemma ProvinceKeysAnswer(p: string, v: ProvinceGroup, key: Key)
    requires forall c :: c in v.cityOrder <==> c in v.cities
    ensures key in ProvinceKeys(p, v) <==> !key.KAll? && InGroup(p, v, key).Some?
  {
    if key.KCity? && key.city in v.cities {
      var i :| 0 <= i < |v.cityOrder| && v.cityOrder[i] == key.city;
      assert CityKeys(v.cityOrder)[i] == key;
    }
  }

  lemma {:induction false} AllProvinceKeysAnswer(provinces: map<string, ProvinceGroup>, order: seq<string>, key: Key)
    requires forall p | p in order :: p in provinces
    requires forall p | p in provinces :: forall c :: c in provinces[p].cityOrder <==> c in provinces[p].cities
    ensures key in AllProvinceKeys(provinces, order) <==> !key.KAll? && Ask(provinces, order, key).Some?
  {
    if |order| > 0 {
      ProvinceKeysAnswer(order[0], provinces[order[0]], key);
      AllProvinceKeysAnswer(provinces, order[1..], key);
    }
  }

  /** Every published key answers, and whatever else answers is a province with all its cities. */
  lemma PublishedKeysAnswer(lookup: map<string, Node>, priced: seq<Priced>, g: Groups, key: Key)
    requires GroupsOk(lookup, priced, g)
    ensures key in GroupKeys(g) <==> !key.KAll? && Select(g, key).Some?
  {
    hide SumBy, InGroup, ProvinceKeys;
    forall p | p in g.provinces
      ensures forall c :: c in g.provinces[p].cityOrder <==> c in g.provinces[p].cities
    {
      assert ProvinceOk(lookup, priced, p, g.provinces[p]);
    }
    AllProvinceKeysAnswer(g.provinces, g.order, key);
    NotOfProvinces(g.provinces, g.order);
  }

  lemma {:induction false} NotOfProvinces(provinces: map<string, ProvinceGroup>, order: seq<string>)
    requires forall p | p in order :: p in provinces
    ensures Ask(provinces, order, KGeneral).None? && Ask(provinces, order, KUnverified).None?
  {
    if |order| > 0 {
      NotOfProvinces(provinces, order[1..]);
    }
  }

  /** No city id of the index lies under two provinces. */
  ghost predicate CitiesApart(g: Groups) {
    forall p, q, c | p in g.provinces && q in g.provinces && c in g.provinces[p].cities && c in g.provinces[q].cities :: p == q
  }

  /** Every city key answers with its own group. */
  ghost predicate CityKeysOwn(g: Groups)
    requires (forall p | p in g.order :: p in g.provinces) && (forall x | x in g.unknownOrder :: x in g.unknown)
  {
    forall p, c | p in g.provinces && c in g.provinces[p].cities ::
      Select(g, KCity(c)) == Some(OfRegions(g.provinces[p].cities[c].ids))
  }

  /** Exactly when no city id lies under two provinces does every city key select its own city's prices. */
  lemma CityKeysExact(lookup: map<string, Node>, priced: seq<Priced>, g: Groups)
    requires GroupsOk(lookup, priced, g)
    ensures CityKeysOwn(g) <==> CitiesApart(g)
  {
    hide ProvinceOk, SumBy, IdsIn;
    if CitiesApart(g) {
      forall p, c | p in g.provinces && c in g.provinces[p].cities
        ensures Select(g, KCity(c)) == Some(OfRegions(g.provinces[p].cities[c].ids))
      {
        AskUnique(g.provinces, g.order, KCity(c), p);
      }
    }
    if CityKeysOwn(g) {
      forall p, q, c | p in g.provinces && q in g.provinces && c in g.provinces[p].cities && c in g.provinces[q].cities
        ensures p == q
      {
        assert Select(g, KCity(c)) == Some(OfRegions(g.provinces[p].cities[c].ids));
        assert Select(g, KCity(c)) == Some(OfRegions(g.provinces[q].cities[c].ids));
        SameCityIds(lookup, priced, g, p, q, c);
      }
    }
  }

  lemma SameCityIds(lookup: map<string, Node>, priced: seq<Priced>, g: Groups, p: string, q: string, c: string)
    requires GroupsOk(lookup, priced, g) && p in g.provinces && q in g.provinces
    ensures (c in g.provinces[p].cities && c in g.provinces[q].cities
             && g.provinces[p].cities[c].ids == g.provinces[q].cities[c].ids) ==> p == q
  {
    hide SumBy;
    if c in g.provinces[p].cities && c in g.provinces[q].cities
       && g.provinces[p].cities[c].ids == g.provinces[q].cities[c].ids {
      assert ProvinceOk(lookup, priced, p, g.provinces[p]) && ProvinceOk(lookup, priced, q, g.provinces[q]);
      assert CityOk(lookup, priced, p, c, g.provinces[p].cities[c]) && CityOk(lookup, priced, q, c, g.provinces[q].cities[c]);
      IdsAreOfTheBucket(lookup, priced, In(p, c));
      IdsAreOfTheBucket(lookup, priced, In(q, c));
      var x :| x in g.provinces[p].cities[c].ids;
      assert BucketOf(lookup, Some(x)) == In(p, c) && BucketOf(lookup, Some(x)) == In(q, c);
    }
  }

  /** Two readings of a region never place one city under two provinces. */
  ghost predicate ConsistentParents(lookup: map<string, Node>) {
    forall x, y, p, q, c | BucketOf(lookup, Some(x)) == In(p, c) && BucketOf(lookup, Some(y)) == In(q, c) :: p == q
  }

  /** Consistent nested parents keep the cities of the index apart. */
  lemma ConsistentParentsKeepCitiesApart(lookup: map<string, Node>, priced: seq<Priced>, g: Groups)
    requires GroupsOk(lookup, priced, g) && ConsistentParents(lookup)
    ensures CitiesApart(g)
  {
    forall p, q, c | p in g.provinces && q in g.provinces && c in g.provinces[p].cities && c in g.provinces[q].cities
      ensures p == q
    {
      assert ProvinceOk(lookup, priced, p, g.provinces[p]) && ProvinceOk(lookup, priced, q, g.provinces[q]);
      assert CityOk(lookup, priced, p, c, g.provinces[p].cities[c]) && CityOk(lookup, priced, q, c, g.provinces[q].cities[c]);
      IdsAreOfTheBucket(lookup, priced, In(p, c));
      IdsAreOfTheBucket(lookup, priced, In(q, c));
      var x :| x in g.provinces[p].cities[c].ids;
      var y :| y in g.provinces[q].cities[c].ids;
      assert BucketOf(lookup, Some(x)) == In(p, c) && BucketOf(lookup, Some(y)) == In(q, c);
    }
  }

  // ---------------------------------------------------------------- one city id under two provinces

  function DistrictOf(id: string, province: string): Node {
    Node(id, Some(District), Some(Node("c", Some(RegencyCity), Some(Node(province, Some(Province), None)))))
  }

  const TORN: seq<Node> := [DistrictOf("d", "p"), DistrictOf("e", "q")]
  const TORN_PRICES: seq<Priced> := [Priced(Some("d"), 1), Priced(Some("e"), 2)]

  lemma TornLookup()
    ensures Lookup(TORN) == map["d" := TORN[0], "e" := TORN[1]]
  {
    assert TORN[..1][..0] == [];
    assert Lookup(TORN[..1]) == map["d" := TORN[0]];
  }

  lemma TornSums()
    ensures SumIn(Lookup(TORN), TORN_PRICES, In("p", "c")) == 1 && SumIn(Lookup(TORN), TORN_PRICES, In("q", "c")) == 2
    ensures SumInProvince(Lookup(TORN), TORN_PRICES, "p") == 1 && SumInProvince(Lookup(TORN), TORN_PRICES, "q") == 2
  {
    TornLookup();
    var es := TORN_PRICES;
    assert es[..1] == [es[0]] && es[..1][..0] == [];
    OneMore(Lookup(TORN), [], es[0], In("p", "c"), "p");
    OneMore(Lookup(TORN), [], es[0], In("q", "c"), "q");
    assert [] + [es[0]] == es[..1] && es[..1] + [es[1]] == es;
    OneMore(Lookup(TORN), es[..1], es[1], In("p", "c"), "p");
    OneMore(Lookup(TORN), es[..1], es[1], In("q", "c"), "q");
  }

  /** Two districts that name one city of two provinces: the index is built, and its city key misses one of the groups. */
  method TornCityExample() returns (g: Groups)
    ensures GroupsOk(Lookup(TORN), TORN_PRICES, g) && !CitiesApart(g) && !CityKeysOwn(g)
    ensures "p" in g.provinces && "q" in g.provinces && "c" in g.provinces["p"].cities && "c" in g.provinces["q"].cities
    ensures g.provinces["p"].cities["c"].count == 1 && g.provinces["q"].cities["c"].count == 2
  {
    hide SumBy, SumIn, SumInProvince, BucketOf;
    var built := BuildIndex(TORN_PRICES, TORN);
    g := built.value;
    TornSums();
    TornGroups(g, "p");
    TornGroups(g, "q");
    CityKeysExact(Lookup(TORN), TORN_PRICES, g);
  }

  lemma TornGroups(g: Groups, p: string)
    requires GroupsOk(Lookup(TORN), TORN_PRICES, g)
    requires SumInProvince(Lookup(TORN), TORN_PRICES, p) > 0 && SumIn(Lookup(TORN), TORN_PRICES, In(p, "c")) > 0
    ensures p in g.provinces && "c" in g.provinces[p].cities
    ensures g.provinces[p].cities["c"].count == SumIn(Lookup(TORN), TORN_PRICES, In(p, "c"))
  {
    hide SumBy, SumIn, SumInProvince, IdsIn, BucketOf, UnknownOk;
    AbsentProvince(Lookup(TORN), TORN_PRICES, g, p);
    assert ProvinceOk(Lookup(TORN), TORN_PRICES, p, g.provinces[p]);
    AbsentCity(Lookup(TORN), TORN_PRICES, p, g.provinces[p], "c");
    assert CityOk(Lookup(TORN), TORN_PRICES, p, "c", g.provinces[p].cities["c"]);
  }

  lemma AbsentProvince(lookup: map<string, Node>, priced: seq<Priced>, g: Groups, p: string)
    requires GroupsOk(lookup, priced, g)
    ensures p !in g.provinces ==> SumInProvince(lookup, priced, p) == 0
  {
    if p !in g.provinces {
      assert NoneInProvince(lookup, priced, p);
    }
  }

  lemma AbsentCity(lookup: map<string, Node>, priced: seq<Priced>, p: string, v: ProvinceGroup, c: string)
    requires ProvinceOk(lookup, priced, p, v)
    ensures c !in v.cities ==> SumIn(lookup, priced, In(p, c)) == 0
  {
    if c !in v.cities {
      assert NoneIn(lookup, priced, In(p, c));
    }
  }
}

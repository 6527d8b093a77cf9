/** The ladder of a location and its ancestors, and the nearest tier with an offer. */
module RegionLadder {
  import opened Outcomes

  datatype Level = Village | District | RegencyCity | Province

  /** `level` is absent where the row carries no supported level. */
  datatype Fact = Fact(id: string, parentId: Option<string>, level: Option<Level>, isActive: bool)

  datatype Tier = Tier(regionId: string, level: Level, priority: nat)

  datatype Reason =
    | OriginNotFound | OriginNotSupported | RegionInactive | ParentNotProven | HierarchyLevelMismatch | HierarchyCycle

  /** Complete when no reason is given. */
  datatype Ladder = Ladder(tiers: seq<Tier>, reason: Option<Reason>)

  function Rank(l: Level): nat {
    match l
    case Village => 0
    case District => 1
    case RegencyCity => 2
    case Province => 3
  }

  function NextLevel(l: Level): Option<Level> {
    match l
    case Village => Some(District)
    case District => Some(RegencyCity)
    case RegencyCity => Some(Province)
    case Province => None
  }

  function Prepend(t: Tier, rest: Ladder): Ladder {
    Ladder([t] + rest.tiers, rest.reason)
  }

  /** The climb from a row of a supported level; it needs no memory of the rows it has passed. */
  function Climb(nodes: map<string, Fact>, current: Fact, priority: nat): Ladder
    requires current.level.Some?
    decreases 3 - Rank(current.level.value)
  {
    var level := current.level.value;
    var tier := Tier(current.id, level, priority);
    var next := NextLevel(level);
    if !current.isActive then Ladder([], Some(RegionInactive))
    else if next.None? then Ladder([tier], None)
    else if current.parentId.None? || current.parentId.value !in nodes then Ladder([tier], Some(ParentNotProven))
    else
      var parent := nodes[current.parentId.value];
      if parent.level != next then Ladder([tier], Some(HierarchyLevelMismatch))
      else Prepend(tier, Climb(nodes, parent, priority + 1))
  }

  function Project(origin: string, nodes: map<string, Fact>): Ladder {
    if origin !in nodes then Ladder([], Some(OriginNotFound))
    else if nodes[origin].level.None? then Ladder([], Some(OriginNotSupported))
    else Climb(nodes, nodes[origin], 0)
  }

  ghost predicate IndexOk(nodes: map<string, Fact>) {
    forall x | x in nodes :: nodes[x].id == x
  }

  function After(tiers: seq<Tier>, rest: Ladder): Ladder {
    Ladder(tiers + rest.tiers, rest.reason)
  }

  /** One turn of the climb: the row's tier joins those behind, or the climb ends here. */
  lemma ClimbStep(nodes: map<string, Fact>, current: Fact, tiers: seq<Tier>)
    requires current.level.Some? && current.isActive
    ensures var level := current.level.value;
            var tiers' := tiers + [Tier(current.id, level, |tiers|)];
            var next := NextLevel(level);
            After(tiers, Climb(nodes, current, |tiers|)) ==
            if next.None? then Ladder(tiers', None)
            else if current.parentId.None? || current.parentId.value !in nodes then Ladder(tiers', Some(ParentNotProven))
            else if nodes[current.parentId.value].level != next then Ladder(tiers', Some(HierarchyLevelMismatch))
            else After(tiers', Climb(nodes, nodes[current.parentId.value], |tiers'|))
  {
    var tier := Tier(current.id, current.level.value, |tiers|);
    var next := NextLevel(current.level.value);
    if next.Some? && current.parentId.Some? && current.parentId.value in nodes
       && nodes[current.parentId.value].level == next {
      var rest := Climb(nodes, nodes[current.parentId.value], |tiers| + 1);
      assert tiers + ([tier] + rest.tiers) == (tiers + [tier]) + rest.tiers;
    }
  }

  /** The loop with its cycle guard; the guard never fires, because the level rises at every step. */
  method ProjectLoop(origin: string, nodes: map<string, Fact>) returns (ladder: Ladder)
    requires IndexOk(nodes)
    ensures ladder == Project(origin, nodes)
    ensures ladder.reason != Some(HierarchyCycle)
  {
    if origin !in nodes {
      return Ladder([], Some(OriginNotFound));
    }
    if nodes[origin].level.None? {
      return Ladder([], Some(OriginNotSupported));
    }
    ghost var all := Climb(nodes, nodes[origin], 0);
    ClimbHasNoCycle(nodes, nodes[origin], 0);
    var tiers: seq<Tier> := [];
    var visited: set<string> := {};
    var current := nodes[origin];
    while true
      invariant current.id in nodes && nodes[current.id] == current && current.level.Some?
      invariant forall x | x in visited ::
                  x in nodes && nodes[x].level.Some? && Rank(nodes[x].level.value) < Rank(current.level.value)
      invariant all == After(tiers, Climb(nodes, current, |tiers|))
      decreases 3 - Rank(current.level.value)
    {
      if current.id in visited {
        assert false;
      }
      if current.isActive {
        ClimbStep(nodes, current, tiers);
      }
      visited := visited + {current.id};
      if !current.isActive {
        return Ladder(tiers, Some(RegionInactive));
      }
      var level := current.level.value;
      tiers := tiers + [Tier(current.id, level, |tiers|)];
      var parentLevel := NextLevel(level);
      if parentLevel.None? {
        return Ladder(tiers, None);
      }
      if current.parentId.None? || current.parentId.value !in nodes {
        return Ladder(tiers, Some(ParentNotProven));
      }
      var parent := nodes[current.parentId.value];
      if parent.level != parentLevel {
        return Ladder(tiers, Some(HierarchyLevelMismatch));
      }
      current := parent;
    }
  }

  lemma {:induction false} ClimbHasNoCycle(nodes: map<string, Fact>, current: Fact, priority: nat)
    requires current.level.Some?
    ensures Climb(nodes, current, priority).reason !in {Some(HierarchyCycle), Some(OriginNotFound), Some(OriginNotSupported)}
    ensures |Climb(nodes, current, priority).tiers| <= 4 - Rank(current.level.value)
    decreases 3 - Rank(current.level.value)
  {
    var next := NextLevel(current.level.value);
    if current.isActive && next.Some? && current.parentId.Some? && current.parentId.value in nodes
       && nodes[current.parentId.value].level == next {
      ClimbHasNoCycle(nodes, nodes[current.parentId.value], priority + 1);
    }
  }

  // ---------------------------------------------------------------- loading by parent pointer

  /** The rows met by following parent pointers, at most `steps` of them. */
  function Ancestry(table: map<string, Fact>, cursor: Option<string>, steps: nat): seq<Fact>
    decreases steps
  {
    if steps == 0 || cursor.None? || cursor.value !in table then []
    else [table[cursor.value]] + Ancestry(table, table[cursor.value].parentId, steps - 1)
  }

  function Index(facts: seq<Fact>): map<string, Fact> {
    if |facts| == 0 then map[] else Index(facts[..|facts| - 1])[facts[|facts| - 1].id := facts[|facts| - 1]]
  }

  method LoadContext(table: map<string, Fact>, origin: string) returns (ladder: Ladder, facts: seq<Fact>)
    requires IndexOk(table)
    ensures facts == Ancestry(table, Some(origin), 4)
    ensures ladder == Project(origin, table)
  {
    facts := [];
    var cursor := Some(origin);
    var depth := 0;
    while depth < 4 && cursor.Some?
      invariant 0 <= depth <= 4
      invariant facts + Ancestry(table, cursor, 4 - depth) == Ancestry(table, Some(origin), 4)
    {
      if cursor.value !in table {
        break;
      }
      var region := table[cursor.value];
      ghost var rest := Ancestry(table, region.parentId, 3 - depth);
      assert facts + ([region] + rest) == (facts + [region]) + rest;
      facts := facts + [region];
      cursor := region.parentId;
      depth := depth + 1;
    }
    assert facts == Ancestry(table, Some(origin), 4);
    var nodes := IndexFacts(facts);
    LoadedIsEnough(table, origin);
    ladder := ProjectLoop(origin, nodes);
  }

  method IndexFacts(facts: seq<Fact>) returns (nodes: map<string, Fact>)
    ensures nodes == Index(facts) && IndexOk(nodes)
  {
    nodes := map[];
    for k := 0 to |facts|
      invariant nodes == Index(facts[..k]) && IndexOk(nodes)
    {
      nodes := nodes[facts[k].id := facts[k]];
      assert facts[..k + 1][..k] == facts[..k];
    }
    assert facts[..|facts|] == facts;
  }

  /** Rows taken from a table index to the table's own rows, whatever repeats among them. */
  lemma {:induction false} IndexOfTableRows(table: map<string, Fact>, facts: seq<Fact>)
    requires IndexOk(table) && forall i | 0 <= i < |facts| :: facts[i].id in table && table[facts[i].id] == facts[i]
    ensures forall x | x in Index(facts) :: x in table && Index(facts)[x] == table[x]
    ensures forall i | 0 <= i < |facts| :: facts[i].id in Index(facts)
  {
    if |facts| > 0 {
      IndexOfTableRows(table, facts[..|facts| - 1]);
    }
  }

  lemma {:induction false} AncestryFollows(table: map<string, Fact>, cursor: Option<string>, steps: nat)
    requires IndexOk(table)
    ensures var f := Ancestry(table, cursor, steps);
            && |f| <= steps
            && (forall i | 0 <= i < |f| :: f[i].id in table && table[f[i].id] == f[i])
            && (|f| > 0 ==> cursor == Some(f[0].id))
            && (forall i | 0 <= i < |f| :: FollowsAt(table, f, i, steps))
            && (steps > 0 && cursor.Some? && cursor.value in table ==> |f| > 0)
    decreases steps
  {
    if steps > 0 && cursor.Some? && cursor.value in table {
      var row := table[cursor.value];
      var rest := Ancestry(table, row.parentId, steps - 1);
      AncestryFollows(table, row.parentId, steps - 1);
      var f := [row] + rest;
      forall i | 0 <= i < |f|
        ensures FollowsAt(table, f, i, steps)
      {
        if i > 0 {
          assert FollowsAt(table, rest, i - 1, steps - 1);
        }
      }
    }
  }

  /** After row `i` comes the row its parent pointer names, unless the list is full or there is none. */
  predicate FollowsAt(table: map<string, Fact>, f: seq<Fact>, i: nat, steps: nat)
    requires i < |f|
  {
    var p := f[i].parentId;
    if i + 1 < |f| then p == Some(f[i + 1].id) else i + 1 >= steps || p.None? || p.value !in table
  }

  /** A climb that stands at row `d` of the loaded list at level rank `d` or above never leaves the list. */
  lemma {:induction false} ClimbInLoaded(table: map<string, Fact>, f: seq<Fact>, d: nat, priority: nat)
    requires IndexOk(table) && d < |f| <= 4
    requires forall i | 0 <= i < |f| :: f[i].id in table && table[f[i].id] == f[i]
    requires forall i | 0 <= i < |f| :: FollowsAt(table, f, i, 4)
    requires f[d].level.Some? && Rank(f[d].level.value) >= d
    ensures Climb(Index(f), f[d], priority) == Climb(table, f[d], priority)
    decreases |f| - d
  {
    IndexOfTableRows(table, f);
    assert FollowsAt(table, f, d, 4);
    var next := NextLevel(f[d].level.value);
    if next.Some? && d + 1 < |f| {
      assert Index(f)[f[d + 1].id] == f[d + 1];
      if f[d + 1].level == next {
        ClimbInLoaded(table, f, d + 1, priority + 1);
      }
    }
  }

  /**
   * Projecting from the at most four rows met by parent pointer is projecting from the whole region
   * table, for every parent graph, cycles included.
   */
  lemma LoadedIsEnough(table: map<string, Fact>, origin: string)
    requires IndexOk(table)
    ensures Project(origin, Index(Ancestry(table, Some(origin), 4))) == Project(origin, table)
  {
    var f := Ancestry(table, Some(origin), 4);
    AncestryFollows(table, Some(origin), 4);
    IndexOfTableRows(table, f);
    if origin in table && table[origin].level.Some? {
      assert f[0] == table[origin];
      ClimbInLoaded(table, f, 0, 0);
    } else if origin in table {
      assert f[0].id in Index(f);
    }
  }

  // ---------------------------------------------------------------- the nearest tier with an offer

  datatype Offer = Offer(id: string, regionId: string)

  datatype Choice = Found(tier: Tier, candidates: seq<Offer>) | NotFound | HierarchyIncomplete(reason: Reason)

  /** The offers that apply at exactly this tier, in order. */
  function Matching(offers: seq<Offer>, applies: (Offer, string) -> bool, regionId: string): seq<Offer> {
    if |offers| == 0 then []
    else (if applies(offers[0], regionId) then [offers[0]] else []) + Matching(offers[1..], applies, regionId)
  }

  lemma {:induction false} MatchingHolds(offers: seq<Offer>, applies: (Offer, string) -> bool, regionId: string)
    ensures forall o :: o in Matching(offers, applies, regionId) <==> o in offers && applies(o, regionId)
  {
    if |offers| > 0 {
      MatchingHolds(offers[1..], applies, regionId);
      assert offers == [offers[0]] + offers[1..];
    }
  }

  predicate AppliesSomewhere(offers: seq<Offer>, applies: (Offer, string) -> bool, regionId: string) {
    exists i | 0 <= i < |offers| :: applies(offers[i], regionId)
  }

  lemma MatchingIsEmpty(offers: seq<Offer>, applies: (Offer, string) -> bool, regionId: string)
    ensures |Matching(offers, applies, regionId)| > 0 <==> AppliesSomewhere(offers, applies, regionId)
  {
    MatchingHolds(offers, applies, regionId);
    var m := Matching(offers, applies, regionId);
    if |m| > 0 {
      assert m[0] in m && m[0] in offers;
    }
    if AppliesSomewhere(offers, applies, regionId) {
      var i :| 0 <= i < |offers| && applies(offers[i], regionId);
      assert offers[i] in m;
    }
  }

  /** The tier found is the nearest at which any offer applies, with exactly the offers that apply there. */
  method FirstEligibleTier(ladder: Ladder, offers: seq<Offer>, applies: (Offer, string) -> bool) returns (c: Choice)
    ensures c.Found? ==>
              exists i | 0 <= i < |ladder.tiers| ::
                && c.tier == ladder.tiers[i]
                && c.candidates == Matching(offers, applies, c.tier.regionId) && |c.candidates| > 0
                && forall j | 0 <= j < i :: !AppliesSomewhere(offers, applies, ladder.tiers[j].regionId)
    ensures !c.Found? <==> forall j | 0 <= j < |ladder.tiers| :: !AppliesSomewhere(offers, applies, ladder.tiers[j].regionId)
    ensures !c.Found? ==> c == if ladder.reason.None? then NotFound else HierarchyIncomplete(ladder.reason.value)
  {
    for i := 0 to |ladder.tiers|
      invariant forall j | 0 <= j < i :: !AppliesSomewhere(offers, applies, ladder.tiers[j].regionId)
    {
      var tier := ladder.tiers[i];
      MatchingIsEmpty(offers, applies, tier.regionId);
      var matching := Matching(offers, applies, tier.regionId);
      if |matching| > 0 {
        return Found(tier, matching);
      }
    }
    return if ladder.reason.None? then NotFound else HierarchyIncomplete(ladder.reason.value);
  }
}

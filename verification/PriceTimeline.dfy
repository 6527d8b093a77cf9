/** Every reachable price table meets what the correction timeline relies on. */
module PriceTimeline {
  import opened Outcomes
  import opened PriceCurrentness
  import opened PriceLifecycle
  import opened PriceOffers
  import T = SupersessionTimeline

  /** Rows read from the book, any part of them, in any order. */
  ghost predicate Lists(b: Book, rows: seq<T.Row>) {
    forall r | r in rows :: r.id in b.rows && b.rows[r.id].supersedes == r.supersedes
  }

  lemma ListedRowsAreATable(b: Book, rows: seq<T.Row>)
    requires WellFormed(b) && Lists(b, rows)
    ensures T.TableOk(rows)
  {
    forall r, r' | r in rows && r' in rows && r.supersedes.Some? && r.supersedes == r'.supersedes
      ensures r == r'
    {
      assert Replaces(b, r.id, r.supersedes.value) && Replaces(b, r'.id, r.supersedes.value);
    }
  }

  /** Row `i` is the recorded predecessor of the row before it, and ranks below it. */
  predicate FallsAt(rank: map<Id, nat>, c: seq<T.Row>, i: nat)
    requires 0 < i < |c|
  {
    && c[i - 1].supersedes == Some(c[i].id)
    && c[i].id in rank && c[i - 1].id in rank && rank[c[i].id] < rank[c[i - 1].id]
  }

  lemma Prepend(rank: map<Id, nat>, r: T.Row, c: seq<T.Row>)
    requires |c| > 0 && FallsAt(rank, [r, c[0]], 1) && forall i | 0 < i < |c| :: FallsAt(rank, c, i)
    ensures forall i | 0 < i < |c| + 1 :: FallsAt(rank, [r] + c, i)
  {
    forall i | 0 < i < |c| + 1
      ensures FallsAt(rank, [r] + c, i)
    {
      assert i > 1 ==> FallsAt(rank, c, i - 1);
    }
  }

  lemma Append(rank: map<Id, nat>, c: seq<T.Row>, r: T.Row)
    requires |c| > 0 && FallsAt(rank, [c[|c| - 1], r], 1) && forall i | 0 < i < |c| :: FallsAt(rank, c, i)
    ensures forall i | 0 < i < |c| + 1 :: FallsAt(rank, c + [r], i)
  {
    forall i | 0 < i < |c| + 1
      ensures FallsAt(rank, c + [r], i)
    {
      assert i < |c| ==> FallsAt(rank, c, i);
    }
  }

  /** A stretch down to `r` and one down from it make one stretch. */
  lemma Glue(rank: map<Id, nat>, up: seq<T.Row>, down: seq<T.Row>)
    requires |up| > 0 && |down| > 0 && up[|up| - 1] == down[0]
    requires (forall i | 0 < i < |up| :: FallsAt(rank, up, i)) && (forall i | 0 < i < |down| :: FallsAt(rank, down, i))
    ensures forall i | 0 < i < |up + down[1..]| :: FallsAt(rank, up + down[1..], i)
  {
    var c := up + down[1..];
    forall i | 0 < i < |c|
      ensures FallsAt(rank, c, i)
    {
      if i < |up| {
        assert FallsAt(rank, up, i);
      } else {
        assert FallsAt(rank, down, i - |up| + 1);
        assert c[i] == down[i - |up| + 1] && c[i - 1] == down[i - |up|];
      }
    }
  }

  /** Predecessors first: the part of the chain below a row. */
  lemma {:induction false} ChainDown(b: Book, rank: map<Id, nat>, rows: seq<T.Row>, r: T.Row) returns (c: seq<T.Row>)
    requires WellFormed(b) && Ranks(b, rank) && Lists(b, rows) && r in rows
    ensures |c| > 0 && c[0] == r && forall i | 0 <= i < |c| :: c[i] in rows
    ensures forall i | 0 < i < |c| :: FallsAt(rank, c, i)
    ensures forall q | q in rows :: c[|c| - 1].supersedes != Some(q.id)
    decreases rank[r.id]
  {
    if q :| q in rows && r.supersedes == Some(q.id) {
      assert Replaces(b, r.id, q.id);
      c := ChainDown(b, rank, rows, q);
      Prepend(rank, r, c);
      c := [r] + c;
    } else {
      c := [r];
    }
  }

  /** The part above it, up to `bound`. */
  lemma {:induction false} ChainUp(b: Book, rank: map<Id, nat>, rows: seq<T.Row>, r: T.Row, bound: nat) returns (c: seq<T.Row>)
    requires WellFormed(b) && Ranks(b, rank) && Lists(b, rows) && r in rows
    requires forall q | q in rows :: rank[q.id] <= bound
    ensures |c| > 0 && c[|c| - 1] == r && forall i | 0 <= i < |c| :: c[i] in rows
    ensures forall i | 0 < i < |c| :: FallsAt(rank, c, i)
    ensures forall q | q in rows :: q.supersedes != Some(c[0].id)
    decreases bound - rank[r.id]
  {
    if q :| q in rows && q.supersedes == Some(r.id) {
      assert Replaces(b, q.id, r.id);
      c := ChainUp(b, rank, rows, q, bound);
      Append(rank, c, r);
      c := c + [r];
    } else {
      c := [r];
    }
  }

  function Bound(rank: map<Id, nat>, rows: seq<T.Row>): (m: nat)
    requires forall r | r in rows :: r.id in rank
    ensures forall r | r in rows :: rank[r.id] <= m
  {
    if |rows| == 0 then 0
    else
      var rest := Bound(rank, rows[1..]);
      assert rows == [rows[0]] + rows[1..];
      if rank[rows[0].id] > rest then rank[rows[0].id] else rest
  }

  lemma {:induction false} RanksFall(rank: map<Id, nat>, c: seq<T.Row>, i: nat, j: nat)
    requires i < j < |c| && forall k | 0 < k < |c| :: FallsAt(rank, c, k)
    ensures c[i].id in rank && c[j].id in rank && rank[c[j].id] < rank[c[i].id]
  {
    assert FallsAt(rank, c, j);
    if i + 1 < j {
      RanksFall(rank, c, i, j - 1);
    }
  }

  lemma FallingIsLinked(rank: map<Id, nat>, c: seq<T.Row>)
    requires forall k | 0 < k < |c| :: FallsAt(rank, c, k)
    ensures T.Linked(c)
  {
    forall i | 0 < i < |c|
      ensures T.LinkedAt(c, i)
    {
      assert FallsAt(rank, c, i);
    }
    forall i, j | 0 <= i < j < |c|
      ensures c[i].id != c[j].id
    {
      RanksFall(rank, c, i, j);
    }
  }

  /** Every row read from the table lies on one maximal chain. */
  lemma ChainThrough(b: Book, rows: seq<T.Row>, r: T.Row) returns (c: seq<T.Row>, p: nat)
    requires WellFormed(b) && Lists(b, rows) && r in rows
    ensures T.IsChain(rows, c) && p < |c| && c[p] == r
  {
    var rank: map<Id, nat> :| Ranks(b, rank);
    var up := ChainUp(b, rank, rows, r, Bound(rank, rows));
    var down := ChainDown(b, rank, rows, r);
    Glue(rank, up, down);
    p := |up| - 1;
    c := up + down[1..];
    FallingIsLinked(rank, c);
    assert c[|c| - 1] == down[|down| - 1] && c[0] == up[0];
  }

  /**
   * In every reachable state the timeline opened at a row is a stretch of that row's chain, newest
   * first: the whole chain where it has at most 200 rows.
   */
  lemma TimelineOfReachableBook(b: Book, rows: seq<T.Row>, r: T.Row) returns (c: seq<T.Row>, p: nat)
    requires Reachable(b) && Lists(b, rows) && r in rows
    ensures T.TableOk(rows) && T.IsChain(rows, c) && p < |c| && c[p] == r
    ensures var s := if p < T.MAX_GENERATIONS then 0 else p - T.MAX_GENERATIONS;
            T.Walk(r.id, rows) == c[s..if s + T.MAX_GENERATIONS < |c| then s + T.MAX_GENERATIONS else |c|]
  {
    ReachableIsWellFormed(b);
    ListedRowsAreATable(b, rows);
    c, p := ChainThrough(b, rows, r);
    T.WalkOnChain(rows, c, p);
  }
}

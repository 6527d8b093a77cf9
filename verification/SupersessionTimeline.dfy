/** The correction timeline of one price: a bounded climb to the newest row, a bounded descent from it. */
module SupersessionTimeline {
  import opened Outcomes

  datatype Row = Row(id: string, supersedes: Option<string>)

  datatype State = Current | Superseded

  datatype Entry = Entry(row: Row, state: State)

  const MAX_GENERATIONS: nat := 200

  // ---------------------------------------------------------------- the two lookups

  /** Rows by id; a later row of the same id replaces an earlier one. */
  function ById(rows: seq<Row>): map<string, Row> {
    if |rows| == 0 then map[] else ById(rows[..|rows| - 1])[rows[|rows| - 1].id := rows[|rows| - 1]]
  }

  /** The row that replaced each predecessor. */
  function SuccessorOf(rows: seq<Row>): map<string, Row> {
    if |rows| == 0 then map[]
    else
      var last, m := rows[|rows| - 1], SuccessorOf(rows[..|rows| - 1]);
      if last.supersedes.Some? then m[last.supersedes.value := last] else m
  }

  // ---------------------------------------------------------------- the walk as functions

  /** At most `steps` steps towards newer rows, never onto one already climbed. */
  function Climb(succ: map<string, Row>, r: Row, climbed: set<string>, steps: nat): Row
    decreases steps
  {
    if steps == 0 || r.id !in succ || succ[r.id].id in climbed then r
    else Climb(succ, succ[r.id], climbed + {succ[r.id].id}, steps - 1)
  }

  /** At most `steps` rows towards older ones, never one already emitted. */
  function Descend(byId: map<string, Row>, cursor: Option<Row>, emitted: set<string>, steps: nat): seq<Row>
    decreases steps
  {
    if steps == 0 || cursor.None? || cursor.value.id in emitted then []
    else [cursor.value] + Descend(byId, Predecessor(byId, cursor.value), emitted + {cursor.value.id}, steps - 1)
  }

  function Predecessor(byId: map<string, Row>, r: Row): Option<Row> {
    if r.supersedes.Some? && r.supersedes.value in byId then Some(byId[r.supersedes.value]) else None
  }

  function Marked(succ: map<string, Row>, rs: seq<Row>): (es: seq<Entry>)
    ensures |es| == |rs|
    ensures forall i | 0 <= i < |rs| :: es[i] == Entry(rs[i], if rs[i].id in succ then Superseded else Current)
  {
    seq(|rs|, i requires 0 <= i < |rs| => Entry(rs[i], if rs[i].id in succ then Superseded else Current))
  }

  function Walk(anchorId: string, rows: seq<Row>): seq<Row> {
    var byId, succ := ById(rows), SuccessorOf(rows);
    if anchorId !in byId then []
    else Descend(byId, Some(Climb(succ, byId[anchorId], {byId[anchorId].id}, MAX_GENERATIONS)), {}, MAX_GENERATIONS)
  }

  /** The oldest entry names a predecessor. */
  predicate IsTruncated(es: seq<Entry>) {
    |es| > 0 && es[|es| - 1].row.supersedes.Some?
  }

  /** The timeline as the service builds it, loop by loop. */
  method BuildTimeline(anchorId: string, rows: seq<Row>) returns (entries: seq<Entry>, truncated: bool)
    ensures entries == Marked(SuccessorOf(rows), Walk(anchorId, rows))
    ensures truncated <==> IsTruncated(entries)
  {
    var byId: map<string, Row> := map[];
    for k := 0 to |rows|
      invariant byId == ById(rows[..k])
    {
      byId := byId[rows[k].id := rows[k]];
      assert rows[..k + 1][..k] == rows[..k];
    }
    assert rows[..|rows|] == rows;
    if anchorId !in byId {
      return [], false;
    }
    var successorOf: map<string, Row> := map[];
    for k := 0 to |rows|
      invariant successorOf == SuccessorOf(rows[..k])
    {
      if rows[k].supersedes.Some? {
        successorOf := successorOf[rows[k].supersedes.value := rows[k]];
      }
      assert rows[..k + 1][..k] == rows[..k];
    }
    var newest := ClimbLoop(successorOf, byId[anchorId], MAX_GENERATIONS);
    entries := DescendLoop(byId, successorOf, newest, MAX_GENERATIONS);
    truncated := |entries| > 0 && entries[|entries| - 1].row.supersedes.Some?;
  }

  method ClimbLoop(successorOf: map<string, Row>, anchor: Row, limit: nat) returns (newest: Row)
    ensures newest == Climb(successorOf, anchor, {anchor.id}, limit)
  {
    newest := anchor;
    var climbed := {anchor.id};
    var step := 0;
    while step < limit
      invariant 0 <= step <= limit
      invariant Climb(successorOf, newest, climbed, limit - step) == Climb(successorOf, anchor, {anchor.id}, limit)
    {
      if newest.id !in successorOf || successorOf[newest.id].id in climbed {
        break;
      }
      newest := successorOf[newest.id];
      climbed := climbed + {newest.id};
      step := step + 1;
    }
  }

  method DescendLoop(byId: map<string, Row>, successorOf: map<string, Row>, newest: Row, limit: nat)
    returns (entries: seq<Entry>)
    ensures entries == Marked(successorOf, Descend(byId, Some(newest), {}, limit))
  {
    entries := [];
    ghost var rs: seq<Row> := [];
    ghost var all := Descend(byId, Some(newest), {}, limit);
    var emitted: set<string> := {};
    var cursor := Some(newest);
    var step := 0;
    while step < limit && cursor.Some?
      invariant 0 <= step <= limit
      invariant entries == Marked(successorOf, rs)
      invariant all == rs + Descend(byId, cursor, emitted, limit - step)
    {
      var row := cursor.value;
      if row.id in emitted {
        break;
      }
      ghost var rest := Descend(byId, Predecessor(byId, row), emitted + {row.id}, limit - step - 1);
      assert all == (rs + [row]) + rest;
      emitted := emitted + {row.id};
      entries := entries + [Entry(row, if row.id in successorOf then Superseded else Current)];
      rs := rs + [row];
      cursor := Predecessor(byId, row);
      step := step + 1;
    }
    assert all == rs;
  }

  // ---------------------------------------------------------------- on any input

  lemma {:induction false} ByIdHolds(rows: seq<Row>)
    ensures forall x | x in ById(rows) :: ById(rows)[x].id == x && ById(rows)[x] in rows
    ensures forall r | r in rows :: r.id in ById(rows)
  {
    if |rows| > 0 {
      ByIdHolds(rows[..|rows| - 1]);
      assert rows == rows[..|rows| - 1] + [rows[|rows| - 1]];
    }
  }

  lemma {:induction false} SuccessorOfHolds(rows: seq<Row>)
    ensures forall x | x in SuccessorOf(rows) :: SuccessorOf(rows)[x].supersedes == Some(x) && SuccessorOf(rows)[x] in rows
    ensures forall r | r in rows && r.supersedes.Some? :: r.supersedes.value in SuccessorOf(rows)
  {
    if |rows| > 0 {
      SuccessorOfHolds(rows[..|rows| - 1]);
      assert rows == rows[..|rows| - 1] + [rows[|rows| - 1]];
    }
  }

  predicate LinkedAt(rs: seq<Row>, i: nat)
    requires 0 < i < |rs|
  {
    rs[i - 1].supersedes == Some(rs[i].id)
  }

  /** Consecutive entries are linked by the older one's id, and no id repeats. */
  predicate Linked(rs: seq<Row>) {
    && (forall i | 0 < i < |rs| :: LinkedAt(rs, i))
    && (forall i, j | 0 <= i < j < |rs| :: rs[i].id != rs[j].id)
  }

  lemma {:induction false} DescentIsLinked(byId: map<string, Row>, cursor: Option<Row>, emitted: set<string>, steps: nat)
    requires forall x | x in byId :: byId[x].id == x
    ensures var rs := Descend(byId, cursor, emitted, steps);
            && |rs| <= steps && Linked(rs)
            && (forall i | 0 <= i < |rs| :: rs[i].id !in emitted && (Some(rs[i]) == cursor || rs[i] in byId.Values))
            && (|rs| > 0 ==> cursor == Some(rs[0]))
            && (|rs| == 0 ==> steps == 0 || cursor.None? || cursor.value.id in emitted)
    decreases steps
  {
    if steps > 0 && cursor.Some? && cursor.value.id !in emitted {
      DescentIsLinked(byId, Predecessor(byId, cursor.value), emitted + {cursor.value.id}, steps - 1);
      var rest := Descend(byId, Predecessor(byId, cursor.value), emitted + {cursor.value.id}, steps - 1);
      var rs := [cursor.value] + rest;
      forall i | 0 < i < |rs|
        ensures LinkedAt(rs, i)
      {
        assert i > 1 ==> LinkedAt(rest, i - 1);
      }
    }
  }

  lemma {:induction false} ClimbStays(rows: seq<Row>, r: Row, climbed: set<string>, steps: nat)
    requires r in rows
    ensures Climb(SuccessorOf(rows), r, climbed, steps) in rows
    decreases steps
  {
    SuccessorOfHolds(rows);
    var succ := SuccessorOf(rows);
    if steps > 0 && r.id in succ && succ[r.id].id !in climbed {
      ClimbStays(rows, succ[r.id], climbed + {succ[r.id].id}, steps - 1);
    }
  }

  /**
   * On any input, cyclic or otherwise corrupt: at most 200 rows, all from the input, no id twice,
   * each the recorded predecessor of the one before it, and none only when the anchor is unknown.
   */
  lemma WalkOnAnyInput(anchorId: string, rows: seq<Row>)
    ensures var rs := Walk(anchorId, rows);
            && |rs| <= MAX_GENERATIONS && Linked(rs)
            && (forall i | 0 <= i < |rs| :: rs[i] in rows)
            && (|rs| == 0 <==> forall r | r in rows :: r.id != anchorId)
  {
    ByIdHolds(rows);
    var byId, succ := ById(rows), SuccessorOf(rows);
    if anchorId in byId {
      var top := Climb(succ, byId[anchorId], {byId[anchorId].id}, MAX_GENERATIONS);
      ClimbStays(rows, byId[anchorId], {byId[anchorId].id}, MAX_GENERATIONS);
      DescentIsLinked(byId, Some(top), {}, MAX_GENERATIONS);
      var rs := Walk(anchorId, rows);
      forall i | 0 <= i < |rs|
        ensures rs[i] in rows
      {
        if rs[i] != top {
          var x :| x in byId && byId[x] == rs[i];
        }
      }
    }
  }

  // ---------------------------------------------------------------- on a well-formed table

  /** Ids are unique and a row is replaced at most once. */
  ghost predicate TableOk(rows: seq<Row>) {
    && (forall r, r' | r in rows && r' in rows && r.id == r'.id :: r == r')
    && (forall r, r' | r in rows && r' in rows && r.supersedes.Some? && r.supersedes == r'.supersedes :: r == r')
  }

  /** A maximal chain, newest first: nothing readable before its first or after its last row. */
  ghost predicate IsChain(rows: seq<Row>, c: seq<Row>) {
    && |c| > 0 && Linked(c)
    && (forall i | 0 <= i < |c| :: c[i] in rows)
    && (forall r | r in rows :: r.supersedes != Some(c[0].id))
    && (forall r | r in rows :: c[|c| - 1].supersedes != Some(r.id))
  }

  lemma Neighbours(rows: seq<Row>, c: seq<Row>, i: nat)
    requires TableOk(rows) && IsChain(rows, c) && i < |c|
    ensures c[i].id in ById(rows) && ById(rows)[c[i].id] == c[i]
    ensures c[i].id in SuccessorOf(rows) <==> i > 0
    ensures i > 0 ==> SuccessorOf(rows)[c[i].id] == c[i - 1]
    ensures Predecessor(ById(rows), c[i]) == if i + 1 < |c| then Some(c[i + 1]) else None
  {
    ByIdHolds(rows);
    SuccessorOfHolds(rows);
    if i > 0 {
      assert LinkedAt(c, i);
    }
    if i + 1 < |c| {
      assert LinkedAt(c, i + 1);
      assert c[i + 1] in rows;
    }
  }

  /** From position `p` of a chain the climb ends `steps` positions higher, or at the top. */
  lemma {:induction false} ClimbOnChain(rows: seq<Row>, c: seq<Row>, p: nat, climbed: set<string>, steps: nat)
    requires TableOk(rows) && IsChain(rows, c) && p < |c|
    requires forall i | 0 <= i < p :: c[i].id !in climbed
    ensures Climb(SuccessorOf(rows), c[p], climbed, steps) == c[if p < steps then 0 else p - steps]
    decreases steps
  {
    hide TableOk;
    Neighbours(rows, c, p);
    if steps > 0 && p > 0 {
      ClimbOnChain(rows, c, p - 1, climbed + {c[p - 1].id}, steps - 1);
    }
  }

  lemma {:induction false} DescendOnChain(rows: seq<Row>, c: seq<Row>, s: nat, emitted: set<string>, steps: nat)
    requires TableOk(rows) && IsChain(rows, c) && s <= |c|
    requires forall i | s <= i < |c| :: c[i].id !in emitted
    ensures Descend(ById(rows), if s < |c| then Some(c[s]) else None, emitted, steps)
            == c[s..if s + steps < |c| then s + steps else |c|]
    decreases steps
  {
    hide TableOk;
    if s < |c| && steps > 0 {
      Neighbours(rows, c, s);
      DescendOnChain(rows, c, s + 1, emitted + {c[s].id}, steps - 1);
      var e := if s + steps < |c| then s + steps else |c|;
      assert c[s..e] == [c[s]] + c[s + 1..e];
    }
  }

  /**
   * Opened at position `p` of a chain of any length, the walk is exactly the 200 rows that start
   * 200 above the anchor, or the whole chain from its top when the anchor lies within 200 of it.
   */
  lemma WalkOnChain(rows: seq<Row>, c: seq<Row>, p: nat)
    requires TableOk(rows) && IsChain(rows, c) && p < |c|
    ensures var s := if p < MAX_GENERATIONS then 0 else p - MAX_GENERATIONS;
            Walk(c[p].id, rows) == c[s..if s + MAX_GENERATIONS < |c| then s + MAX_GENERATIONS else |c|]
  {
    Neighbours(rows, c, p);
    ClimbOnChain(rows, c, p, {c[p].id}, MAX_GENERATIONS);
    var s := if p < MAX_GENERATIONS then 0 else p - MAX_GENERATIONS;
    DescendOnChain(rows, c, s, {}, MAX_GENERATIONS);
  }

  /** No row of the input has the id the row names as its predecessor. */
  predicate NamesAbsentRow(rows: seq<Row>, r: Row) {
    r.supersedes.Some? && forall q | q in rows :: q.id != r.supersedes.value
  }

  /**
   * A chain of at most 200 rows is shown whole and newest first, the same list from every member,
   * with only its newest row CURRENT; it is truncated exactly when its oldest row names a
   * predecessor the input does not hold.
   */
  lemma ShortChainIsShownWhole(rows: seq<Row>, c: seq<Row>, p: nat)
    requires TableOk(rows) && IsChain(rows, c) && p < |c| <= MAX_GENERATIONS
    ensures Walk(c[p].id, rows) == c
    ensures var es := Marked(SuccessorOf(rows), c);
            && (forall i | 0 <= i < |c| :: es[i].row == c[i] && (es[i].state == Current <==> i == 0))
            && (IsTruncated(es) <==> NamesAbsentRow(rows, c[|c| - 1]))
  {
    hide TableOk, Walk;
    WalkOnChain(rows, c, p);
    forall i | 0 <= i < |c|
      ensures c[i].id in SuccessorOf(rows) <==> i > 0
    {
      Neighbours(rows, c, i);
    }
  }

  /** An anchor 200 or more corrections below the top of its chain does not appear in its own timeline. */
  lemma AnchorIsShown(rows: seq<Row>, c: seq<Row>, p: nat)
    requires TableOk(rows) && IsChain(rows, c) && p < |c|
    ensures c[p] in Walk(c[p].id, rows) <==> p < MAX_GENERATIONS
    ensures p < MAX_GENERATIONS ==> c[0] in Walk(c[p].id, rows)
  {
    hide TableOk, Walk, IsChain, Linked;
    WalkOnChain(rows, c, p);
    var s := if p < MAX_GENERATIONS then 0 else p - MAX_GENERATIONS;
    var e := if s + MAX_GENERATIONS < |c| then s + MAX_GENERATIONS else |c|;
    if p < MAX_GENERATIONS {
      assert c[s..e][p] == c[p] && c[s..e][0] == c[0];
    } else {
      NotInHigherStretch(rows, c, s, e, p);
    }
  }

  lemma NotInHigherStretch(rows: seq<Row>, c: seq<Row>, s: nat, e: nat, p: nat)
    requires IsChain(rows, c) && s <= e <= p < |c|
    ensures c[p] !in c[s..e]
  {
    forall i | s <= i < e
      ensures c[i] != c[p]
    {
      assert c[i].id != c[p].id;
    }
  }

  // ---------------------------------------------------------------- a chain too long for its oldest row

  function Name(i: nat): string {
    seq(i, _ => '+')
  }

  /** `n` rows, each the correction of the next. */
  function LongChain(n: nat): (c: seq<Row>)
    ensures |c| == n
    ensures forall i | 0 <= i < n :: c[i] == Row(Name(i), if i + 1 < n then Some(Name(i + 1)) else None)
  {
    seq(n, i requires 0 <= i < n => Row(Name(i), if i + 1 < n then Some(Name(i + 1)) else None))
  }

  lemma LongChainIsTable(n: nat)
    ensures TableOk(LongChain(n))
  {
    var c := LongChain(n);
    assert forall i | 0 <= i < |c| :: |c[i].id| == i;
    forall r | r in c && r.supersedes.Some?
      ensures |r.supersedes.value| == |r.id| + 1
    {
    }
  }

  lemma LongChainIsChain(n: nat)
    requires n > 0
    ensures IsChain(LongChain(n), LongChain(n))
  {
    var c := LongChain(n);
    assert forall i | 0 <= i < |c| :: |c[i].id| == i;
    assert |c[0].id| == 0;
    forall r | r in c && r.supersedes.Some?
      ensures |r.supersedes.value| > 0
    {
    }
  }

  /** The 201st row of a lawful chain opens a timeline that does not show it. */
  lemma DeepAnchorExample()
    ensures var c := LongChain(201);
            && TableOk(c) && IsChain(c, c)
            && |Walk(c[200].id, c)| == MAX_GENERATIONS && c[200] !in Walk(c[200].id, c)
  {
    hide TableOk, IsChain, Walk;
    var c := LongChain(201);
    LongChainIsTable(201);
    LongChainIsChain(201);
    AnchorIsShown(c, c, 200);
    WalkOnChain(c, c, 200);
  }
}

/** Price history along recorded edges only, skipping rows that changed nothing but the KDN percentage. */
module ProvenHistory {
  import opened Outcomes

  datatype Row = Row(
    id: string,
    workspaceId: Option<string>,
    isPrivate: bool,
    recordsNewObservation: bool,
    sourceOrigin: string,
    sourceType: string,
    resourceId: string,
    regionId: Option<string>,
    coverageSetId: Option<string>,
    supersedes: Option<string>,
    observedAfter: Option<string>,
    price: string,
    kdnPercent: Option<string>,
    kdnEstablishment: Option<string>,
    sourceName: Option<string>,
    createdAt: int,
    publicationAt: Option<int>)

  datatype Action = Corrected | Updated | Initial

  datatype Label = Latest | Changed(action: Action)

  datatype Entry = Entry(
    price: string,
    shownAs: Label,
    action: Action,
    recordedAt: Option<int>,
    sourceName: Option<string>,
    isCurrent: bool)

  const MAX_CANDIDATES: nat := 500

  // ---------------------------------------------------------------- edges

  /** A correction names its predecessor itself; an observation through its birth audit. */
  function ParentId(r: Row): Option<string> {
    if r.supersedes.Some? then r.supersedes else r.observedAfter
  }

  predicate LawfulObservation(d: Row, p: Row) {
    && d.isPrivate && d.recordsNewObservation && p.isPrivate
    && d.workspaceId.Some? && d.workspaceId == p.workspaceId && d.resourceId == p.resourceId
    && d.regionId == p.regionId && d.coverageSetId == p.coverageSetId
  }

  predicate LawfulCorrection(d: Row, p: Row) {
    d.resourceId == p.resourceId && d.regionId == p.regionId && d.isPrivate == p.isPrivate && d.workspaceId == p.workspaceId
  }

  /** The recorded parent, where it is readable and of the same context. */
  function Permitted(byId: map<string, Row>, r: Row): Option<Row> {
    var parent := ParentId(r);
    if parent.None? || parent.value !in byId then None
    else
      var p := byId[parent.value];
      if (if r.supersedes.Some? then LawfulCorrection(r, p) else LawfulObservation(r, p)) then Some(p) else None
  }

  /** The row restates its parent's money and changes only the KDN percentage. */
  predicate KdnOnly(byId: map<string, Row>, r: Row) {
    var parent := Permitted(byId, r);
    && parent.Some? && r.price == parent.value.price
    && r.kdnPercent.Some? && r.kdnPercent != parent.value.kdnPercent
    && r.kdnEstablishment == Some(if r.supersedes.Some? then "MANUAL_CORRECTION" else "MANUAL_NEW_OBSERVATION")
  }

  function ActionOf(r: Row): Action {
    if r.supersedes.Some? then Corrected else if r.observedAfter.Some? then Updated else Initial
  }

  function Truthy(name: Option<string>): bool {
    name.Some? && name.value != ""
  }

  predicate SourceProven(byId: map<string, Row>, r: Row) {
    var parent := Permitted(byId, r);
    && parent.Some? && r.isPrivate && parent.value.isPrivate && r.workspaceId == parent.value.workspaceId
    && (r.supersedes.Some? ==> r.sourceOrigin == parent.value.sourceOrigin && r.sourceType == parent.value.sourceType)
  }

  function NameOf(byId: map<string, Row>, r: Row): Option<string> {
    if Truthy(r.sourceName) then r.sourceName
    else if SourceProven(byId, r) then Permitted(byId, r).value.sourceName
    else None
  }

  function EntryOf(byId: map<string, Row>, r: Row, first: bool, anchorCurrent: bool): Entry {
    Entry(r.price, if first && anchorCurrent then Latest else Changed(ActionOf(r)), ActionOf(r),
          if r.supersedes.Some? && !r.isPrivate then r.publicationAt else Some(r.createdAt),
          NameOf(byId, r), first && anchorCurrent)
  }

  // ---------------------------------------------------------------- the trail

  /** The rows shown and whether the trail was cut before an initial price. */
  datatype Trail = Trail(rows: seq<Row>, cut: bool)

  function Follow(byId: map<string, Row>, cursor: Row, visited: set<string>, room: nat): Trail
    requires cursor.id in byId && forall x | x in byId :: byId[x].id == x
    decreases byId.Keys - visited
  {
    if room == 0 || cursor.id in visited then Trail([], true)
    else
      var parent := Permitted(byId, cursor);
      if parent.None? then Trail([cursor], ParentId(cursor).Some?)
      else if KdnOnly(byId, cursor) then Follow(byId, parent.value, visited + {cursor.id}, room)
      else
        var rest := Follow(byId, parent.value, visited + {cursor.id}, room - 1);
        Trail([cursor] + rest.rows, rest.cut)
  }

  function Entries(byId: map<string, Row>, rs: seq<Row>, anchorCurrent: bool): (es: seq<Entry>)
    ensures |es| == |rs|
    ensures forall i | 0 <= i < |rs| :: es[i] == EntryOf(byId, rs[i], i == 0, anchorCurrent)
  {
    seq(|rs|, i requires 0 <= i < |rs| => EntryOf(byId, rs[i], i == 0, anchorCurrent))
  }

  function Proofs(byId: map<string, Row>, rs: seq<Row>): (ps: seq<bool>)
    ensures |ps| == |rs|
    ensures forall i | 0 <= i < |rs| :: ps[i] == SourceProven(byId, rs[i])
  {
    seq(|rs|, i requires 0 <= i < |rs| => SourceProven(byId, rs[i]))
  }

  ghost predicate IndexOk(byId: map<string, Row>) {
    forall x | x in byId :: byId[x].id == x
  }

  /** The walk: a cursor over recorded parents, KDN-only rows passed over without an entry. */
  method WalkEdges(byId: map<string, Row>, anchorId: string, capped: bool, anchorCurrent: bool, max: nat)
    returns (entries: seq<Entry>, proved: seq<bool>, truncated: bool)
    requires IndexOk(byId)
    ensures anchorId !in byId ==> entries == [] && proved == [] && truncated
    ensures anchorId in byId ==>
              var t := Follow(byId, byId[anchorId], {}, max);
              && entries == Entries(byId, t.rows, anchorCurrent)
              && proved == Proofs(byId, t.rows)
              && truncated == (capped || t.cut)
  {
    hide Follow, After, Permitted, KdnOnly, EntryOf, SourceProven;
    entries, proved := [], [];
    if anchorId !in byId {
      return [], [], true;
    }
    truncated := capped;
    ghost var rs: seq<Row> := [];
    ghost var all := Follow(byId, byId[anchorId], {}, max);
    var visited: set<string> := {};
    var cursor := byId[anchorId];
    var stopped := false;
    AfterNothing(all);
    while !stopped && |entries| < max
      invariant cursor.id in byId && |rs| == |entries| <= max
      invariant entries == Entries(byId, rs, anchorCurrent) && proved == Proofs(byId, rs)
      invariant if stopped then all.rows == rs && truncated == (capped || all.cut)
                else all == After(rs, Follow(byId, cursor, visited, max - |rs|)) && truncated == capped
      decreases !stopped, byId.Keys - visited
    {
      if cursor.id in visited {
        FollowStops(byId, rs, cursor, visited, max - |rs|);
        truncated, stopped := true, true;
        break;
      }
      var parent := Permitted(byId, cursor);
      if ParentId(cursor).Some? && parent.None? {
        truncated := true;
      }
      ParentIsRow(byId, cursor);
      FollowStep(byId, rs, cursor, visited, max - |rs|);
      assert byId.Keys - (visited + {cursor.id}) < byId.Keys - visited;
      visited := visited + {cursor.id};
      if KdnOnly(byId, cursor) {
        cursor := parent.value;
      } else {
        Appended(byId, rs, cursor, anchorCurrent);
        proved := proved + [SourceProven(byId, cursor)];
        entries := entries + [EntryOf(byId, cursor, |entries| == 0, anchorCurrent)];
        rs := rs + [cursor];
        if parent.None? {
          stopped := true;
        } else {
          cursor := parent.value;
        }
      }
    }
    if !stopped {
      FollowStops(byId, rs, cursor, visited, max - |rs|);
      truncated := true;
    }
  }

  function After(rs: seq<Row>, t: Trail): Trail {
    Trail(rs + t.rows, t.cut)
  }

  lemma Appended(byId: map<string, Row>, rs: seq<Row>, r: Row, anchorCurrent: bool)
    ensures Entries(byId, rs + [r], anchorCurrent) ==
            Entries(byId, rs, anchorCurrent) + [EntryOf(byId, r, |rs| == 0, anchorCurrent)]
    ensures Proofs(byId, rs + [r]) == Proofs(byId, rs) + [SourceProven(byId, r)]
  {
  }

  /** A shown row moves from the trail ahead to the rows behind; a KDN-only row just drops out. */
  lemma FollowStops(byId: map<string, Row>, rs: seq<Row>, r: Row, visited: set<string>, room: nat)
    requires IndexOk(byId) && r.id in byId && (r.id in visited || room == 0)
    ensures After(rs, Follow(byId, r, visited, room)) == Trail(rs, true)
  {
  }

  lemma AfterNothing(t: Trail)
    ensures After([], t) == t
  {
  }

  /** A permitted parent is a row of the index; only a row with one merely restates its money. */
  lemma ParentIsRow(byId: map<string, Row>, r: Row)
    requires IndexOk(byId)
    ensures var parent := Permitted(byId, r);
            (parent.Some? ==> parent.value.id in byId) && (KdnOnly(byId, r) ==> parent.Some?)
  {
  }

  lemma FollowStep(byId: map<string, Row>, rs: seq<Row>, r: Row, visited: set<string>, room: nat)
    requires IndexOk(byId) && r.id in byId && r.id !in visited && room > 0
    ensures var parent := Permitted(byId, r);
            After(rs, Follow(byId, r, visited, room)) ==
            if parent.None? then Trail(rs + [r], ParentId(r).Some?)
            else if KdnOnly(byId, r) then After(rs, Follow(byId, parent.value, visited + {r.id}, room))
            else After(rs + [r], Follow(byId, parent.value, visited + {r.id}, room - 1))
  {
    var parent := Permitted(byId, r);
    if parent.Some? && !KdnOnly(byId, r) {
      var rest := Follow(byId, parent.value, visited + {r.id}, room - 1);
      assert rs + ([r] + rest.rows) == (rs + [r]) + rest.rows;
    }
  }

  // ---------------------------------------------------------------- what the trail shows

  /** `to` is reached from `from` by passing over KDN-only rows alone. */
  predicate PassesTo(byId: map<string, Row>, from: Row, to: Row, visited: set<string>)
    requires from.id in byId && forall x | x in byId :: byId[x].id == x
    decreases byId.Keys - visited
  {
    || from == to
    || (from.id !in visited && KdnOnly(byId, from)
          && PassesTo(byId, Permitted(byId, from).value, to, visited + {from.id}))
  }

  /** The next shown row lies beyond this row's permitted parent, with only KDN-only rows between. */
  ghost predicate EdgeAt(byId: map<string, Row>, rs: seq<Row>, i: nat)
    requires 0 < i < |rs| && IndexOk(byId)
  {
    var parent := Permitted(byId, rs[i - 1]);
    parent.Some? && exists visited :: PassesTo(byId, parent.value, rs[i], visited)
  }

  /** What one trail promises. */
  ghost predicate TrailOk(byId: map<string, Row>, cursor: Row, visited: set<string>, room: nat, t: Trail)
    requires IndexOk(byId) && cursor.id in byId
  {
    var rs := t.rows;
    && |rs| <= room
    && (forall i | 0 <= i < |rs| :: rs[i].id !in visited && rs[i].id in byId && (rs[i] == cursor || rs[i] in byId.Values))
    && (forall i, j | 0 <= i < j < |rs| :: rs[i].id != rs[j].id)
    && (forall i | 0 <= i < |rs| :: !KdnOnly(byId, rs[i]))
    && (forall i | 0 < i < |rs| :: EdgeAt(byId, rs, i))
    && (forall i | 0 <= i < |rs| - 1 :: ActionOf(rs[i]) != Initial)
    && (|rs| > 0 ==> PassesTo(byId, cursor, rs[0], visited))
    && (!t.cut <==> |rs| > 0 && ActionOf(rs[|rs| - 1]) == Initial)
  }

  lemma {:induction false} FollowKeepsPromises(byId: map<string, Row>, cursor: Row, visited: set<string>, room: nat)
    requires IndexOk(byId) && cursor.id in byId && byId[cursor.id] == cursor
    ensures TrailOk(byId, cursor, visited, room, Follow(byId, cursor, visited, room))
    decreases byId.Keys - visited
  {
    if room > 0 && cursor.id !in visited {
      var parent := Permitted(byId, cursor);
      if parent.Some? {
        var seen := visited + {cursor.id};
        if KdnOnly(byId, cursor) {
          FollowKeepsPromises(byId, parent.value, seen, room);
          SkipKeepsPromises(byId, cursor, visited, room, Follow(byId, parent.value, seen, room));
        } else {
          FollowKeepsPromises(byId, parent.value, seen, room - 1);
          StepKeepsPromises(byId, cursor, visited, room, Follow(byId, parent.value, seen, room - 1));
        }
      }
    }
  }

  lemma SkipKeepsPromises(byId: map<string, Row>, cursor: Row, visited: set<string>, room: nat, rest: Trail)
    requires IndexOk(byId) && cursor.id in byId && byId[cursor.id] == cursor && cursor.id !in visited
    requires KdnOnly(byId, cursor)
    requires TrailOk(byId, Permitted(byId, cursor).value, visited + {cursor.id}, room, rest)
    ensures TrailOk(byId, cursor, visited, room, rest)
  {
  }

  lemma EdgeInFront(byId: map<string, Row>, cursor: Row, visited: set<string>, rows: seq<Row>, i: nat)
    requires IndexOk(byId) && 0 < i <= |rows| && Permitted(byId, cursor).Some?
    requires PassesTo(byId, Permitted(byId, cursor).value, rows[0], visited + {cursor.id})
    requires i > 1 ==> EdgeAt(byId, rows, i - 1)
    ensures EdgeAt(byId, [cursor] + rows, i)
  {
    hide Permitted, PassesTo;
    var rs := [cursor] + rows;
    assert rs[i] == rows[i - 1] && (i > 1 ==> rs[i - 1] == rows[i - 2]);
  }

  lemma StepKeepsPromises(byId: map<string, Row>, cursor: Row, visited: set<string>, room: nat, rest: Trail)
    requires IndexOk(byId) && cursor.id in byId && byId[cursor.id] == cursor && room > 0 && cursor.id !in visited
    requires Permitted(byId, cursor).Some? && !KdnOnly(byId, cursor)
    requires TrailOk(byId, Permitted(byId, cursor).value, visited + {cursor.id}, room - 1, rest)
    ensures TrailOk(byId, cursor, visited, room, Trail([cursor] + rest.rows, rest.cut))
  {
    hide KdnOnly, IndexOk;
    var rs := [cursor] + rest.rows;
    forall i | 0 < i < |rs|
      ensures EdgeAt(byId, rs, i)
    {
      EdgeInFront(byId, cursor, visited, rest.rows, i);
    }
    hide EdgeAt;
  }

  /**
   * The history of any set of rows, cyclic or not: each row once and at most 500, none of them a
   * KDN-only change, each next one beyond the permitted parent of the one before, the initial price
   * only last; and the history is not cut exactly when it ends in an initial price.
   */
  lemma HistoryIsProven(byId: map<string, Row>, anchorId: string, max: nat)
    requires IndexOk(byId) && anchorId in byId
    ensures var t := Follow(byId, byId[anchorId], {}, max);
            && TrailOk(byId, byId[anchorId], {}, max, t)
            && (!t.cut <==> |t.rows| > 0 && ActionOf(t.rows[|t.rows| - 1]) == Initial)
  {
    FollowKeepsPromises(byId, byId[anchorId], {}, max);
  }

  // ---------------------------------------------------------------- names inherited backwards

  /** Entry `i` keeps its own name; without one it inherits across a proved edge. */
  function FilledName(names: seq<Option<string>>, proved: seq<bool>, i: nat): Option<string>
    requires i < |names| == |proved|
    decreases |names| - i
  {
    if proved[i] && !Truthy(names[i]) && i + 1 < |names| then FilledName(names, proved, i + 1) else names[i]
  }

  method FillNames(names: array<Option<string>>, proved: seq<bool>)
    requires names.Length == |proved|
    modifies names
    ensures forall i | 0 <= i < names.Length :: names[i] == FilledName(old(names[..]), proved, i)
  {
    ghost var before := names[..];
    var i := names.Length - 2;
    while i >= 0
      invariant -2 <= i <= names.Length - 2 && (names.Length > 0 ==> -1 <= i)
      invariant forall k | 0 <= k < names.Length && i < k :: names[k] == FilledName(before, proved, k)
      invariant forall k | 0 <= k <= i :: names[k] == before[k]
    {
      if proved[i] && !Truthy(names[i]) {
        names[i] := names[i + 1];
      }
      i := i - 1;
    }
  }

  /** A stated name is never overwritten, and an inherited one comes from later in the list over proved edges only. */
  lemma {:induction false} NamesAreInherited(names: seq<Option<string>>, proved: seq<bool>, i: nat) returns (j: nat)
    requires i < |names| == |proved|
    ensures Truthy(names[i]) ==> FilledName(names, proved, i) == names[i]
    ensures i <= j < |names| && FilledName(names, proved, i) == names[j]
    ensures forall k | i <= k < j :: proved[k] && !Truthy(names[k])
    decreases |names| - i
  {
    if proved[i] && !Truthy(names[i]) && i + 1 < |names| {
      j := NamesAreInherited(names, proved, i + 1);
    } else {
      j := i;
    }
  }

  // ---------------------------------------------------------------- the whole history

  function IndexRows(rows: seq<Row>): (m: map<string, Row>)
    ensures IndexOk(m)
  {
    if |rows| == 0 then map[] else IndexRows(rows[..|rows| - 1])[rows[|rows| - 1].id := rows[|rows| - 1]]
  }

  /** The entries are those of the rows, each under its own name if it has one. */
  predicate Shows(byId: map<string, Row>, rs: seq<Row>, anchorCurrent: bool, entries: seq<Entry>) {
    && |entries| == |rs|
    && forall i | 0 <= i < |rs| ::
         var e := EntryOf(byId, rs[i], i == 0, anchorCurrent);
         entries[i] == e.(sourceName := entries[i].sourceName)
         && (Truthy(e.sourceName) ==> entries[i].sourceName == e.sourceName)
  }

  lemma ShownEntries(byId: map<string, Row>, anchorId: string, anchorCurrent: bool, max: nat, entries: seq<Entry>)
    requires IndexOk(byId) && anchorId in byId
    requires Shows(byId, Follow(byId, byId[anchorId], {}, max).rows, anchorCurrent, entries)
    ensures |entries| <= max
    ensures Follow(byId, byId[anchorId], {}, max).cut <==> !(|entries| > 0 && entries[|entries| - 1].action == Initial)
    ensures forall i | 0 <= i < |entries| - 1 :: entries[i].action != Initial
    ensures forall i | 0 <= i < |entries| :: entries[i].isCurrent <==> i == 0 && anchorCurrent
  {
    HistoryIsProven(byId, anchorId, max);
  }

  /**
   * The whole history: its entries are the proven trail's, the initial price can only be the last,
   * and it is not truncated exactly when nothing was left out of the search and it ends in one.
   */
  method BuildHistory(anchorId: string, rows: seq<Row>, capped: bool, anchorCurrent: bool)
    returns (entries: seq<Entry>, truncated: bool)
    ensures !truncated <==> !capped && |entries| > 0 && entries[|entries| - 1].action == Initial
    ensures |entries| <= MAX_CANDIDATES
    ensures forall i | 0 <= i < |entries| - 1 :: entries[i].action != Initial
    ensures forall i | 0 <= i < |entries| :: entries[i].isCurrent <==> i == 0 && anchorCurrent
    ensures anchorId in IndexRows(rows) ==>
              Shows(IndexRows(rows), Follow(IndexRows(rows), IndexRows(rows)[anchorId], {}, MAX_CANDIDATES).rows,
                    anchorCurrent, entries)
  {
    entries, truncated := HistoryUpTo(anchorId, IndexRows(rows), capped, anchorCurrent, MAX_CANDIDATES);
  }

  method HistoryUpTo(anchorId: string, byId: map<string, Row>, capped: bool, anchorCurrent: bool, max: nat)
    returns (entries: seq<Entry>, truncated: bool)
    requires IndexOk(byId)
    ensures !truncated <==> !capped && |entries| > 0 && entries[|entries| - 1].action == Initial
    ensures |entries| <= max
    ensures forall i | 0 <= i < |entries| - 1 :: entries[i].action != Initial
    ensures forall i | 0 <= i < |entries| :: entries[i].isCurrent <==> i == 0 && anchorCurrent
    ensures anchorId in byId ==> Shows(byId, Follow(byId, byId[anchorId], {}, max).rows, anchorCurrent, entries)
  {
    var emitted, proved;
    emitted, proved, truncated := WalkEdges(byId, anchorId, capped, anchorCurrent, max);
    entries := InheritNames(emitted, proved);
    if anchorId in byId {
      ShownEntries(byId, anchorId, anchorCurrent, max, entries);
    }
  }

  method InheritNames(emitted: seq<Entry>, proved: seq<bool>) returns (entries: seq<Entry>)
    requires |emitted| == |proved|
    ensures |entries| == |emitted|
    ensures forall i | 0 <= i < |emitted| ::
              entries[i] == emitted[i].(sourceName := entries[i].sourceName)
              && (Truthy(emitted[i].sourceName) ==> entries[i].sourceName == emitted[i].sourceName)
  {
    var names := new Option<string>[|emitted|](i requires 0 <= i < |emitted| => emitted[i].sourceName);
    ghost var before := names[..];
    FillNames(names, proved);
    NamesAreKept(before, proved);
    entries := WithNames(emitted, names[..]);
  }

  lemma NamesAreKept(names: seq<Option<string>>, proved: seq<bool>)
    requires |names| == |proved|
    ensures forall i | 0 <= i < |names| && Truthy(names[i]) :: FilledName(names, proved, i) == names[i]
  {
  }

  function WithNames(es: seq<Entry>, names: seq<Option<string>>): (r: seq<Entry>)
    requires |es| == |names|
    ensures |r| == |es| && forall i | 0 <= i < |es| :: r[i] == es[i].(sourceName := names[i])
  {
    seq(|es|, i requires 0 <= i < |es| && |es| == |names| => es[i].(sourceName := names[i]))
  }
}

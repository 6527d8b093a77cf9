/** Private correction chains: one current member at every instant. */
module PriceChains {
  import opened Outcomes
  import opened PriceCurrentness
  import opened PriceLifecycle

  /** A whole private chain, origin first: each row replaced by the next, nothing before or after. */
  ghost predicate IsChain(b: Book, c: seq<Id>) {
    && |c| > 0
    && (forall i | 0 <= i < |c| :: IsPrivate(b, c[i]))
    && b.rows[c[0]].supersedes.None?
    && (forall i | 0 < i < |c| :: Replaces(b, c[i], c[i - 1]))
    && !HasSuccessor(b, c[|c| - 1])
  }

  /** Position of the newest member recorded by `asOf`; the origin when none is. */
  function Newest(b: Book, c: seq<Id>, asOf: int): (n: nat)
    requires |c| > 0 && forall i | 0 <= i < |c| :: c[i] in b.rows
    ensures n < |c|
    ensures n > 0 ==> b.rows[c[n]].createdAt <= asOf
    ensures forall i | n < i < |c| :: asOf < b.rows[c[i]].createdAt
  {
    var last := |c| - 1;
    if last == 0 || b.rows[c[last]].createdAt <= asOf then last else Newest(b, c[..last], asOf)
  }

  /** Recording instants never decrease along a chain. */
  lemma {:induction false} ChainInOrder(b: Book, c: seq<Id>, i: nat, j: nat)
    requires WellFormed(b) && IsChain(b, c) && i <= j < |c|
    ensures b.rows[c[i]].createdAt <= b.rows[c[j]].createdAt
  {
    if i < j {
      ChainInOrder(b, c, i, j - 1);
      assert Replaces(b, c[j], c[j - 1]);
    }
  }

  lemma OnlySuccessor(b: Book, c: seq<Id>, i: nat, asOf: int)
    requires WellFormed(b) && IsChain(b, c) && i < |c|
    ensures ReplacedBySuccessor(b, c[i], asOf) <==> i + 1 < |c| && b.rows[c[i + 1]].createdAt <= asOf
  {
    if i + 1 < |c| {
      assert Replaces(b, c[i + 1], c[i]);
      assert forall r :: Replaces(b, r, c[i]) ==> r == c[i + 1];
    }
  }

  /**
   * In any well-formed state and at every instant, the one member of a private chain that can be
   * current is the newest recorded by then, and it is unless it had been withdrawn.
   */
  lemma OneCurrentPerChain(b: Book, c: seq<Id>, i: nat, asOf: int)
    requires WellFormed(b) && IsChain(b, c) && i < |c|
    ensures Current(b, c[i], asOf) <==> i == Newest(b, c, asOf) && !WithdrawnBy(b, c[i], asOf)
  {
    var n := Newest(b, c, asOf);
    assert IsPrivate(b, c[i]);
    OnlySuccessor(b, c, i, asOf);
    if i > 0 {
      assert Replaces(b, c[i], c[i - 1]);
    }
    if i < n {
      ChainInOrder(b, c, i + 1, n);
    }
    NeverRecordedOnPrivate(b, c[i], asOf);
  }

  /** SUPERSEDED audits belong to catalog rows. */
  lemma NeverRecordedOnPrivate(b: Book, x: Id, asOf: int)
    requires WellFormed(b) && IsPrivate(b, x)
    ensures !SupersededBy(b, x, asOf)
  {
    assert SupersededBy(b, x, asOf) ==> SupersessionRecorded(b, x);
  }

  /** Every private row is corrected money of some origin: its predecessors form a chain that starts at one. */
  lemma {:induction false} ChainBelow(b: Book, x: Id, rank: map<Id, nat>) returns (c: seq<Id>)
    requires WellFormed(b) && Ranks(b, rank) && IsPrivate(b, x)
    ensures |c| > 0 && c[|c| - 1] == x
    ensures forall i | 0 <= i < |c| :: IsPrivate(b, c[i])
    ensures IsPrivate(b, c[0]) && b.rows[c[0]].supersedes.None?
    ensures forall i | 0 < i < |c| :: Replaces(b, c[i], c[i - 1])
    decreases rank[x]
  {
    if b.rows[x].supersedes.None? {
      c := [x];
    } else {
      var p := b.rows[x].supersedes.value;
      assert Replaces(b, x, p) && SuccessorOk(b, x, p);
      c := ChainBelow(b, p, rank);
      c := c + [x];
    }
  }
}

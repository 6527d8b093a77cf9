/** Texts joined by a word: exactly when the parts can be read back. */
module Delimiters {
  import opened Text

  function JoinBy(parts: seq<string>, d: string): string {
    if |parts| == 0 then ""
    else if |parts| == 1 then parts[0]
    else parts[0] + d + JoinBy(parts[1..], d)
  }

  predicate OccursAt(s: string, d: string, i: nat) {
    i + |d| <= |s| && s[i..i + |d|] == d
  }

  predicate Contains(s: string, d: string) {
    exists i | 0 <= i <= |s| :: OccursAt(s, d, i)
  }

  predicate NoneContains(parts: seq<string>, d: string) {
    forall i | 0 <= i < |parts| :: !Contains(parts[i], d)
  }

  /** No part of the delimiter's start is found again within it, so two occurrences never overlap. */
  predicate IsDelimiter(d: string) {
    |d| > 0 && Free(d[1..], d[0])
  }

  lemma JoinByCons(first: string, rest: seq<string>, d: string)
    requires |rest| > 0
    ensures JoinBy([first] + rest, d) == first + d + JoinBy(rest, d)
  {
    assert ([first] + rest)[1..] == rest;
  }

  lemma JoinByFirst(parts: seq<string>, d: string)
    requires |parts| > 1
    ensures JoinBy(parts, d) == parts[0] + d + JoinBy(parts[1..], d)
  {
  }

  /** Two readings of one text: the second first part starts with the first one, a delimiter behind it, or is it. */
  lemma FirstPartWithin(a: string, s: string, b: string, t: string, d: string)
    requires IsDelimiter(d) && a + d + s == b + d + t && !Contains(a, d)
    ensures |a| <= |b|
    ensures |a| == |b| ==> a == b && s == t
    ensures |a| < |b| ==> OccursAt(b, d, |a|) && a == b[..|a|] && s == b[|a| + |d|..] + d + t
  {
    var whole := a + d + s;
    assert whole[|a|..|a| + |d|] == d && whole[|b|..|b| + |d|] == d;
    if |b| < |a| {
      NoOverlap(whole, d, |b|, |a|);
      assert OccursAt(a, d, |b|);
    } else if |a| < |b| {
      NoOverlap(whole, d, |a|, |b|);
      assert b == whole[..|b|];
      assert a == whole[..|a|] && s == whole[|a| + |d|..];
      assert b[|a| + |d|..] + d + t == whole[|a| + |d|..];
    } else {
      assert a == whole[..|a|] == b && s == whole[|a| + |d|..] == t;
    }
  }

  lemma NoOverlap(whole: string, d: string, i: nat, j: nat)
    requires IsDelimiter(d) && OccursAt(whole, d, i) && OccursAt(whole, d, j) && i < j
    ensures i + |d| <= j
  {
    assert whole[j] == whole[j..j + |d|][0] == d[0];
    forall k | i < k < i + |d|
      ensures whole[k] != d[0]
    {
      assert whole[k] == whole[i..i + |d|][k - i] == d[1..][k - i - 1];
    }
  }

  lemma JoinShowsDelimiter(parts: seq<string>, d: string)
    requires |parts| > 1
    ensures Contains(JoinBy(parts, d), d)
  {
    JoinByFirst(parts, d);
    assert OccursAt(JoinBy(parts, d), d, |parts[0]|);
  }

  /** A list whose parts do not hold the delimiter is the finest reading of its text, and the only one of its length. */
  lemma {:induction false} FinestReading(cs: seq<string>, ds: seq<string>, d: string)
    requires IsDelimiter(d) && |cs| > 0 && |ds| > 0 && NoneContains(cs, d) && JoinBy(cs, d) == JoinBy(ds, d)
    ensures |ds| <= |cs|
    ensures |ds| == |cs| ==> ds == cs
    decreases |cs|
  {
    if |cs| == 1 {
      assert !Contains(cs[0], d);
      if |ds| > 1 {
        JoinShowsDelimiter(ds, d);
        assert false;
      }
    } else if |ds| > 1 {
      JoinByFirst(cs, d);
      JoinByFirst(ds, d);
      FirstPartWithin(cs[0], JoinBy(cs[1..], d), ds[0], JoinBy(ds[1..], d), d);
      if |cs[0]| == |ds[0]| {
        FinestReading(cs[1..], ds[1..], d);
        assert cs == [cs[0]] + cs[1..] && ds == [ds[0]] + ds[1..];
      } else {
        var y := ds[0][|cs[0]| + |d|..];
        JoinByCons(y, ds[1..], d);
        FinestReading(cs[1..], [y] + ds[1..], d);
      }
    }
  }

  /** Two lists whose parts do not hold the delimiter have one text exactly when they are the same list. */
  lemma JoinByInjective(cs: seq<string>, ds: seq<string>, d: string)
    requires IsDelimiter(d) && |cs| > 0 && |ds| > 0 && NoneContains(cs, d) && NoneContains(ds, d)
    ensures JoinBy(cs, d) == JoinBy(ds, d) <==> cs == ds
  {
    if JoinBy(cs, d) == JoinBy(ds, d) {
      FinestReading(cs, ds, d);
      FinestReading(ds, cs, d);
    }
  }

  /** A different list of the same length and the same text. */
  ghost predicate Misread(cs: seq<string>, ds: seq<string>, d: string) {
    ds != cs && |ds| == |cs| && JoinBy(ds, d) == JoinBy(cs, d)
  }

  /** Of two or more parts another reading of the same length exists exactly when some part holds the delimiter. */
  lemma MisreadExactly(cs: seq<string>, d: string)
    requires IsDelimiter(d) && |cs| > 1
    ensures (exists ds :: Misread(cs, ds, d)) <==> exists i | 0 <= i < |cs| :: Contains(cs[i], d)
  {
    if i :| 0 <= i < |cs| && Contains(cs[i], d) {
      var ds := MoveText(cs, d, i);
      assert Misread(cs, ds, d);
    }
    if ds :| Misread(cs, ds, d) {
      if NoneContains(cs, d) {
        FinestReading(cs, ds, d);
      }
    }
  }

  /** Text moves across the delimiter at the edge of a part that holds it. */
  lemma {:induction false} MoveText(cs: seq<string>, d: string, i: nat) returns (ds: seq<string>)
    requires IsDelimiter(d) && |cs| > 1 && i < |cs| && Contains(cs[i], d)
    ensures Misread(cs, ds, d)
    decreases i
  {
    if i > 1 || (i == 1 && |cs| > 2) {
      var rest := MoveText(cs[1..], d, i - 1);
      ds := [cs[0]] + rest;
      JoinByCons(cs[0], rest, d);
      JoinByFirst(cs, d);
      assert ds[1..] == rest && cs[1..] != rest;
    } else {
      var j: nat :| j <= |cs[i]| && OccursAt(cs[i], d, j);
      var x, y := cs[i][..j], cs[i][j + |d|..];
      assert cs[i] == x + d + y;
      ds := if i == 0 then [x, y + d + cs[1]] + cs[2..] else [cs[0] + d + x, y] + cs[2..];
      MoveFirst(cs, ds, d, x, y, i);
      assert |x| < |cs[i]|;
    }
  }

  lemma MoveFirst(cs: seq<string>, ds: seq<string>, d: string, x: string, y: string, i: nat)
    requires |cs| > 1 && i < 2 && cs[i] == x + d + y
    requires ds == if i == 0 then [x, y + d + cs[1]] + cs[2..] else [cs[0] + d + x, y] + cs[2..]
    ensures JoinBy(ds, d) == JoinBy(cs, d)
  {
    MergeFirst(cs, d);
    MergeFirst(ds, d);
    assert ds[2..] == cs[2..];
    if i == 0 {
      Regroup(x, d, y, d, cs[1]);
    } else {
      Regroup(cs[0], d, x, d, y);
    }
  }

  /** The first two parts, joined, are as good as one. */
  lemma MergeFirst(cs: seq<string>, d: string)
    requires |cs| > 1
    ensures JoinBy(cs, d) == JoinBy([cs[0] + d + cs[1]] + cs[2..], d)
  {
    if |cs| == 2 {
      assert cs[1..] == [cs[1]];
    } else {
      assert cs[1..][1..] == cs[2..];
      JoinByCons(cs[0] + d + cs[1], cs[2..], d);
      Regroup(cs[0], d, cs[1], d, JoinBy(cs[2..], d));
    }
  }

  lemma Regroup(a: string, b: string, c: string, d: string, e: string)
    ensures a + b + (c + d + e) == (a + b + c) + d + e
  {
  }
}

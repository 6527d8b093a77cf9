/** The governance command and the digest that stands for its meaning. */
module AuthorityCommand {
  import opened Outcomes
  import opened Text

  datatype Action = Grant | Revoke

  /** What a caller submits. `action` is the method called (`grant` or `revoke`). */
  datatype Ceremony = Ceremony(
    action: Action,
    positionId: string,
    authorityCode: string,
    executedByAccountId: string,
    ownerAuthorizationReference: string,
    reason: Option<string>,
    idempotencyKey: string)

  /** The command's meaning: every field the digest reads, trimmed as the service trims it. */
  datatype Meaning = Meaning(
    action: Action,
    positionId: string,
    authorityCode: string,
    executedByAccountId: string,
    ownerReference: string,
    reason: string)

  function MeaningOf(c: Ceremony): Meaning {
    Meaning(
      c.action, c.positionId, Trim(c.authorityCode), c.executedByAccountId,
      Trim(c.ownerAuthorizationReference),
      if c.reason.Some? then Trim(c.reason.value) else "")
  }

  function ActionText(a: Action): string {
    if a.Grant? then "GRANT" else "REVOKE"
  }

  /** The text that is digested. SHA-256 is represented by the text itself, which is injective. */
  function FingerprintOf(m: Meaning): string {
    Join([ActionText(m.action), m.positionId, m.authorityCode, m.executedByAccountId, m.ownerReference, m.reason], ' ')
  }

  function Fingerprint(c: Ceremony): string {
    FingerprintOf(MeaningOf(c))
  }

  /** A meaning whose identifiers are single words, as uuids and authority codes are. */
  predicate Plain(m: Meaning) {
    && Free(m.positionId, ' ') && Free(m.authorityCode, ' ') && Free(m.executedByAccountId, ' ')
    && |m.ownerReference| > 0 && Trimmed(m.ownerReference) && Trimmed(m.reason)
  }

  function Tail(m: Meaning): string {
    m.ownerReference + [' '] + m.reason
  }

  lemma FingerprintShape(m: Meaning)
    ensures FingerprintOf(m) ==
            ActionText(m.action) + [' '] + (m.positionId + [' '] + (m.authorityCode + [' ']
            + (m.executedByAccountId + [' '] + Tail(m))))
  {
    var p1 := [m.positionId, m.authorityCode, m.executedByAccountId, m.ownerReference, m.reason];
    var p2 := [m.authorityCode, m.executedByAccountId, m.ownerReference, m.reason];
    var p3 := [m.executedByAccountId, m.ownerReference, m.reason];
    var p4 := [m.ownerReference, m.reason];
    JoinCons(ActionText(m.action), p1, ' ');
    JoinCons(m.positionId, p2, ' ');
    JoinCons(m.authorityCode, p3, ' ');
    JoinCons(m.executedByAccountId, p4, ' ');
    JoinCons(m.ownerReference, [m.reason], ' ');
  }

  /** Equal digests fix every field except where the reference ends and the reason begins. */
  lemma EqualFingerprints(m: Meaning, n: Meaning)
    requires Plain(m) && Plain(n)
    ensures FingerprintOf(m) == FingerprintOf(n) <==>
            m.action == n.action && m.positionId == n.positionId && m.authorityCode == n.authorityCode
            && m.executedByAccountId == n.executedByAccountId && Tail(m) == Tail(n)
  {
    FingerprintShape(m);
    FingerprintShape(n);
    if FingerprintOf(m) == FingerprintOf(n) {
      var a3 := m.executedByAccountId + [' '] + Tail(m);
      var b3 := n.executedByAccountId + [' '] + Tail(n);
      var a2 := m.authorityCode + [' '] + a3;
      var b2 := n.authorityCode + [' '] + b3;
      var a1 := m.positionId + [' '] + a2;
      var b1 := n.positionId + [' '] + b2;
      FirstPartUnique(ActionText(m.action), ActionText(n.action), a1, b1, ' ');
      FirstPartUnique(m.positionId, n.positionId, a2, b2, ' ');
      FirstPartUnique(m.authorityCode, n.authorityCode, a3, b3, ' ');
      FirstPartUnique(m.executedByAccountId, n.executedByAccountId, Tail(m), Tail(n), ' ');
    }
  }

  /** A space with a non-blank character on each side. */
  predicate LoneSpaceAt(s: string, i: int) {
    0 < i < |s| - 1 && s[i] == ' ' && !IsBlank(s[i - 1]) && !IsBlank(s[i + 1])
  }

  predicate HasLoneSpace(s: string) {
    exists i | 0 <= i < |s| :: LoneSpaceAt(s, i)
  }

  /** A reason is given, and the reference or the reason holds a lone space. */
  predicate Confusable(m: Meaning) {
    m.reason != "" && (HasLoneSpace(m.ownerReference) || HasLoneSpace(m.reason))
  }

  /** The same words with the reference ending at position `i` of the tail. */
  function SplitAt(m: Meaning, i: nat): Meaning
    requires i < |Tail(m)|
  {
    m.(ownerReference := Tail(m)[..i], reason := Tail(m)[i + 1..])
  }

  lemma SplitIsPlain(m: Meaning, i: nat)
    requires Plain(m) && m.reason != "" && i != |m.ownerReference|
    requires LoneSpaceAt(Tail(m), i)
    ensures Plain(SplitAt(m, i)) && SplitAt(m, i) != m && FingerprintOf(SplitAt(m, i)) == FingerprintOf(m)
  {
    var t := Tail(m);
    var n := SplitAt(m, i);
    assert t[|t| - 1] == m.reason[|m.reason| - 1] && t[0] == m.ownerReference[0];
    assert n.reason[|n.reason| - 1] == t[|t| - 1] && n.reason[0] == t[i + 1];
    assert n.ownerReference[0] == t[0] && n.ownerReference[i - 1] == t[i - 1];
    assert Tail(n) == t;
    assert |n.ownerReference| == i;
    EqualFingerprints(m, n);
  }

  /** Another meaning with the same digest can only come from a lone space. */
  lemma OtherSplitNeedsLoneSpace(m: Meaning, n: Meaning)
    requires Plain(m) && Plain(n) && m != n && Tail(m) == Tail(n)
    requires m.(ownerReference := n.ownerReference, reason := n.reason) == n
    ensures Confusable(m)
  {
    var t := Tail(m);
    var i, j := |m.ownerReference|, |n.ownerReference|;
    assert t[..i] == m.ownerReference && t[i + 1..] == m.reason && t[i] == ' ';
    assert t[..j] == n.ownerReference && t[j + 1..] == n.reason && t[j] == ' ';
    assert i != j;
    assert t[j - 1] == n.ownerReference[j - 1];
    if j < i {
      assert m.ownerReference[j] == t[j];
      assert j != i - 1;
      assert n.reason == t[j + 1..] && |n.reason| > 0;
      assert n.reason[0] == t[j + 1] && n.reason[|n.reason| - 1] == t[|t| - 1];
      assert LoneSpaceAt(m.ownerReference, j);
    } else {
      var k := j - i - 1;
      assert m.reason[k] == t[j] && |t| == i + 1 + |m.reason|;
      assert n.reason != "" ==> n.reason[0] == t[j + 1];
      assert m.reason[|m.reason| - 1] == t[|t| - 1];
      assert n.reason == "" ==> j == |t| - 1;
      assert k > 0 ==> m.reason[k - 1] == t[j - 1];
      assert k + 1 < |m.reason| ==> m.reason[k + 1] == t[j + 1];
      assert LoneSpaceAt(m.reason, k);
    }
  }

  /** A command shares its digest with a different command exactly when it is confusable. */
  lemma SharedFingerprint(m: Meaning)
    requires Plain(m)
    ensures (exists n :: Plain(n) && n != m && FingerprintOf(n) == FingerprintOf(m)) <==> Confusable(m)
  {
    if Confusable(m) {
      if HasLoneSpace(m.ownerReference) {
        var i :| 0 <= i < |m.ownerReference| && LoneSpaceAt(m.ownerReference, i);
        assert LoneSpaceAt(Tail(m), i);
        SplitIsPlain(m, i);
      } else {
        var k :| 0 <= k < |m.reason| && LoneSpaceAt(m.reason, k);
        var i := |m.ownerReference| + 1 + k;
        assert |Tail(m)| == |m.ownerReference| + 1 + |m.reason|;
        assert Tail(m)[i - 1] == m.reason[k - 1] && Tail(m)[i] == m.reason[k] && Tail(m)[i + 1] == m.reason[k + 1];
        assert LoneSpaceAt(Tail(m), i);
        SplitIsPlain(m, i);
      }
    }
    if n :| Plain(n) && n != m && FingerprintOf(n) == FingerprintOf(m) {
      EqualFingerprints(m, n);
      OtherSplitNeedsLoneSpace(m, n);
    }
  }

  /** Two grants that name different owner references and different reasons, digested alike. */
  lemma FingerprintCollisionExample()
    ensures var m := Meaning(Grant, "p", "A", "x", "REF 1", "audit");
            var n := Meaning(Grant, "p", "A", "x", "REF", "1 audit");
            m != n && Plain(m) && Plain(n) && FingerprintOf(m) == FingerprintOf(n)
  {
    var m := Meaning(Grant, "p", "A", "x", "REF 1", "audit");
    var n := Meaning(Grant, "p", "A", "x", "REF", "1 audit");
    assert Tail(m) == Tail(n);
    EqualFingerprints(m, n);
  }
}

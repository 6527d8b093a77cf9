/** `decide` as the service runs it, with other sessions committing between its statements. */
module AuthorityGovernanceService {
  import opened Outcomes
  import opened AuthorityCommand
  import opened AuthorityGovernance
  import opened AuthorityInvariant
  import Text

  /** What a session holding the uncommitted row `d` may rely on: nobody can take its place. */
  ghost predicate Reserved(log: seq<Decision>, d: Decision) {
    Extends(History(log, d.pair), d) && forall e | e in log :: !Collides(d, e)
  }

  /** The log after other sessions' commits: longer, and without a row under this session's fresh id. */
  ghost predicate Grew(before: seq<Decision>, after: seq<Decision>, mine: string) {
    before <= after && forall d | d in after && d.id == mine :: d in before
  }

  /** At some moment of the call the pair's last action was already what the command asks for. */
  ghost predicate StateWasSettled(before: seq<Decision>, after: seq<Decision>, c: Ceremony) {
    exists m: nat, a: string ::
      |before| <= m <= |after| && !WouldChange(c.action, Last(History(after[..m], Pair(c.positionId, a))))
  }

  /** Between two moments of the call someone else decided about the pair. */
  ghost predicate PairMoved(before: seq<Decision>, after: seq<Decision>, c: Ceremony) {
    exists m: nat, a: string ::
      |before| <= m <= |after|
      && |History(after[..m], Pair(c.positionId, a))| < |History(after, Pair(c.positionId, a))|
  }

  class GovernanceStore {
    var log: seq<Decision>
    var seats: map<Pair, Seat>
    var positions: set<string>
    var accounts: map<string, bool>
    var authorities: map<string, string>
    /** What other sessions are about to commit. */
    var inFlight: seq<Decision>
    ghost const legacy: map<Pair, Seat>

    ghost predicate Valid()
      reads this
    {
      KeysUnique(log) && Chains(log) && Projected(log, seats, legacy)
    }

    constructor (seats: map<Pair, Seat>)
      ensures Valid() && log == [] && this.seats == seats == legacy
    {
      log := [];
      this.seats := seats;
      legacy := seats;
      positions := {};
      accounts := map[];
      authorities := map[];
      inFlight := [];
    }

    /**
     * Other sessions commit between two statements of this one: those of the decisions in flight
     * that the unique indexes and this session's own uncommitted row let through. Callers learn
     * only the contract, so they hold for every choice of commits.
     */
    method OthersCommit(pending: Option<Decision>, mine: string)
      requires Valid() && (pending.Some? ==> Reserved(log, pending.value))
      modifies this
      ensures Valid() && (pending.Some? ==> Reserved(log, pending.value))
      ensures Grew(old(log), log, mine)
    {
      var arriving := inFlight;
      inFlight := [];
      for k := 0 to |arriving|
        invariant Valid() && (pending.Some? ==> Reserved(log, pending.value))
        invariant Grew(old(log), log, mine)
      {
        var d := arriving[k];
        if d.id != mine && (pending.Some? ==> !Collides(pending.value, d)) {
          ghost var seen := log;
          CommitIfFree(d);
          if pending.Some? && log != seen {
            ReservationStays(seen, d, pending.value);
          }
          GrewFurther(old(log), seen, log, mine, d);
        }
      }
    }

    /** Another session's decision lands if nothing committed stands in its way. */
    method CommitIfFree(d: Decision)
      requires Valid()
      modifies this`log, this`seats
      ensures Valid() && (log == old(log) || (log == old(log) + [d] && Extends(History(old(log), d.pair), d)))
    {
      if Extends(History(log, d.pair), d) && forall e | e in log :: !Collides(d, e) {
        CommitBoth(d);
      }
    }

    /** The insert, judged against the rows committed when it runs. */
    method TryInsert(d: Decision) returns (violation: Option<Violation>)
      requires Valid() && forall e | e in log :: e.id != d.id
      ensures violation.Some? ==> Violates(log, d, violation.value)
      ensures violation.None? ==> forall e | e in log :: !Collides(d, e)
    {
      if exists e | e in log :: SameGeneration(d, e) {
        return Some(GenerationRace);
      }
      if exists e | e in log :: d.idempotencyKey == e.idempotencyKey {
        return Some(IdempotencyReplay);
      }
      return None;
    }

    /** The seat row and the decision become visible together. */
    method CommitBoth(d: Decision)
      requires Valid() && Reserved(log, d)
      modifies this`log, this`seats
      ensures Valid() && log == old(log) + [d] && seats == old(seats)[d.pair := SeatAfter(d)]
    {
      AppendKeepsChains(log, d);
      AppendKeepsKeys(log, d);
      AppendKeepsProjection(log, d, seats, legacy);
      log := log + [d];
      seats := seats[d.pair := SeatAfter(d)];
    }

    /** After a unique violation the transaction is gone; one read decides what the caller is told. */
    method RecoverFrom(v: Violation, c: Ceremony) returns (a: Answer)
      requires Valid() && (v.IdempotencyReplay? ==> HasKey(log, Key(c)))
      ensures AnswerOk(log, c, a) && !a.Crashed?
      ensures a.Refused? ==> a.reason in {GenerationContended, CommandFingerprintConflict}
      ensures v.IdempotencyReplay? ==> a.Settled? || a.reason.CommandFingerprintConflict?
    {
      FindByKeyIsRead(log, Key(c));
      var settled := FindByKey(log, Key(c));
      if settled.Some? && settled.value.commandFingerprint == Fingerprint(c) {
        return Settled(settled.value);
      }
      if v.GenerationRace? || settled.None? {
        return Refused(GenerationContended, |log|);
      }
      return Refused(CommandFingerprintConflict, |log|);
    }

    /** The seat, the hand and the power must exist; each is read by its own statement. */
    method FindPair(c: Ceremony, newId: string) returns (r: Result<Pair, Refusal>)
      requires Valid()
      modifies this
      ensures Valid() && Grew(old(log), log, newId)
      ensures r.Ok? ==> r.value.positionId == c.positionId
      ensures r.Err? ==> r.error in {PositionNotFound, ActorNotFound, ActorInactive, AuthorityNotFound}
    {
      OthersCommit(None, newId);
      if c.positionId !in positions {
        return Err(PositionNotFound);
      }
      OthersCommit(None, newId);
      if c.executedByAccountId !in accounts {
        return Err(ActorNotFound);
      }
      if !accounts[c.executedByAccountId] {
        return Err(ActorInactive);
      }
      OthersCommit(None, newId);
      if Text.Trim(c.authorityCode) !in authorities {
        return Err(AuthorityNotFound);
      }
      return Ok(Pair(c.positionId, authorities[Text.Trim(c.authorityCode)]));
    }

    /** The head of the pair when it is read, and what is left of that knowledge a moment later. */
    method ReadHead(pair: Pair, newId: string) returns (head: Option<Decision>)
      requires Valid()
      modifies this
      ensures Valid() && Grew(old(log), log, newId)
      ensures HeadOf(History(log, pair), head)
      ensures head == Last(History(old(log), pair))
    {
      assert ChainOk(History(log, pair));
      HeadIsLast(log, pair);
      head := Head(log, pair);
      ghost var seen := log;
      HeadReadIsSound(log, pair);
      OthersCommit(None, newId);
      HeadStays(seen, log, pair, head);
    }

    /** The transaction is gone and others may have committed since; then the recovery reads. */
    method AfterViolation(v: Violation, c: Ceremony, pair: Pair, decision: Decision) returns (a: Answer)
      requires Valid() && Violates(log, decision, v)
      requires decision.pair == pair && decision.idempotencyKey == Key(c)
      modifies this
      ensures Valid() && Grew(old(log), log, decision.id)
      ensures AnswerOk(log, c, a) && !a.Crashed?
      ensures a.Refused? ==> a.reason in {GenerationContended, CommandFingerprintConflict}
      ensures a.Refused? && a.reason.GenerationContended? ==> |History(log, pair)| >= decision.generation
    {
      ghost var atViolation := log;
      OthersCommit(None, decision.id);
      if v.IdempotencyReplay? {
        ghost var e :| e in atViolation && decision.idempotencyKey == e.idempotencyKey;
        assert e in log;
      } else {
        TakenGeneration(atViolation, log, pair, decision);
      }
      a := RecoverFrom(v, c);
    }

    /** The insert guarded by the unique indexes, then the commit or the recovery. */
    method Append(c: Ceremony, pair: Pair, head: Option<Decision>, newId: string, decidedAt: int) returns (a: Answer)
      requires Valid() && pair.positionId == c.positionId
      requires HeadOf(History(log, pair), head) && WouldChange(c.action, head)
      requires forall d | d in log :: d.id != newId
      modifies this
      ensures Valid() && old(log) <= log
      ensures !a.Crashed? && AnswerOk(log, c, a)
      ensures forall d | d in log && d.id == newId :: a == Settled(d)
      ensures a.Refused? ==> a.reason in {GenerationContended, CommandFingerprintConflict}
      ensures a.Refused? && a.reason.GenerationContended? ==> |History(log, pair)| >= NextGeneration(head)
    {
      var decision := RowOf(c, pair.authorityId, head, newId, decidedAt);
      var violation := TryInsert(decision);
      if violation.Some? {
        a := AfterViolation(violation.value, c, pair, decision);
      } else {
        RowExtends(log, c, pair, head, decision);
        OthersCommit(Some(decision), newId);
        CommitBoth(decision);
        a := Settled(decision);
      }
    }

    /** Current truth first, then the state gate, which is also a replay boundary, then the append. */
    method Transition(c: Ceremony, pair: Pair, newId: string, decidedAt: int) returns (a: Answer)
      requires Valid() && pair.positionId == c.positionId
      requires forall d | d in log :: d.id != newId
      modifies this
      ensures Valid() && old(log) <= log
      ensures !a.Crashed? && AnswerOk(log, c, a)
      ensures forall d | d in log && d.id == newId :: a == Settled(d)
      ensures a.Refused? ==>
                a.reason in {GenerationContended, CommandFingerprintConflict, DecisionWouldNotChangeState}
      ensures a.Refused? && a.reason.DecisionWouldNotChangeState? ==> StateWasSettled(old(log), log, c)
      ensures a.Refused? && a.reason.GenerationContended? ==> PairMoved(old(log), log, c)
    {
      OthersCommit(None, newId);
      ghost var atHead := log;
      var current := ReadHead(pair, newId);
      if !WouldChange(c.action, current) {
        FindByKeyIsRead(log, Key(c));
        var landed := FindByKey(log, Key(c));
        if landed.Some? {
          return ByKeyAnswer(c, landed.value, |log|);
        }
        assert log[..|atHead|] == atHead;
        return Refused(DecisionWouldNotChangeState, |log|);
      }
      a := Append(c, pair, current, newId, decidedAt);
      HeadGeneration(atHead, pair, current);
      assert log[..|atHead|] == atHead;
    }

    /**
     * One submission from the input gates to the answer. Whatever the others commit in between,
     * the log only grows, both tables stay coherent, a settled answer is a committed decision of
     * this very command, and a submission that is not answered with its own row wrote nothing.
     */
    method Decide(c: Ceremony, newId: string, decidedAt: int) returns (a: Answer)
      requires Valid() && forall d | d in log :: d.id != newId
      modifies this
      ensures Valid() && old(log) <= log
      ensures !a.Crashed? && AnswerOk(log, c, a)
      ensures forall d | d in log && d.id == newId :: a == Settled(d)
      ensures InputGate(c).Some? ==> log == old(log) && a == Refused(InputGate(c).value, |log|)
      ensures a.Refused? && a.reason.DecisionWouldNotChangeState? ==> StateWasSettled(old(log), log, c)
      ensures a.Refused? && a.reason.GenerationContended? ==> PairMoved(old(log), log, c)
    {
      var gate := InputGate(c);
      if gate.Some? {
        return Refused(gate.value, |log|);
      }
      OthersCommit(None, newId);

      // Replay first.
      FindByKeyIsRead(log, Key(c));
      var replayed := FindByKey(log, Key(c));
      if replayed.Some? {
        return ByKeyAnswer(c, replayed.value, |log|);
      }
      var pair := FindPair(c, newId);
      if pair.Err? {
        return Refused(pair.error, |log|);
      }
      a := Transition(c, pair.value, newId, decidedAt);
    }
  }

  /** A row that does not collide with the uncommitted one leaves its reservation alone. */
  lemma ReservationStays(log: seq<Decision>, d: Decision, mine: Decision)
    requires Reserved(log, mine) && !Collides(mine, d) && Extends(History(log, d.pair), d)
    ensures Reserved(log + [d], mine)
  {
    HistoryAppend(log, d, mine.pair);
  }

  lemma GrewFurther(before: seq<Decision>, seen: seq<Decision>, after: seq<Decision>, mine: string, d: Decision)
    requires Grew(before, seen, mine) && d.id != mine
    requires after == seen || after == seen + [d]
    ensures Grew(before, after, mine)
  {
  }

  lemma {:induction false} HistoryGrows(log: seq<Decision>, log': seq<Decision>, p: Pair)
    requires log <= log'
    ensures History(log, p) <= History(log', p)
    decreases |log'|
  {
    if |log| == |log'| {
      assert log == log';
    } else {
      HistoryGrows(log, log'[..|log'| - 1], p);
    }
  }

  /** A head read once stays the last decision of a prefix, however far the log has grown. */
  lemma HeadStays(log: seq<Decision>, log': seq<Decision>, p: Pair, head: Option<Decision>)
    requires log <= log' && HeadOf(History(log, p), head)
    ensures HeadOf(History(log', p), head)
  {
    HistoryGrows(log, log', p);
  }

  lemma HeadGeneration(log: seq<Decision>, p: Pair, head: Option<Decision>)
    requires Chains(log) && head == Last(History(log, p))
    ensures NextGeneration(head) == |History(log, p)| + 1
  {
    var h := History(log, p);
    assert ChainOk(h);
    assert |h| > 0 ==> LinkOk(h, |h| - 1);
  }

  /** A taken generation is one the pair's history has already reached. */
  lemma TakenGeneration(log: seq<Decision>, log': seq<Decision>, p: Pair, d: Decision)
    requires Chains(log) && log <= log' && d.pair == p && Violates(log, d, GenerationRace)
    ensures |History(log', p)| >= d.generation
  {
    var e :| e in log && SameGeneration(d, e);
    HistoryMembers(log, p);
    var h := History(log, p);
    assert ChainOk(h);
    var k :| 0 <= k < |h| && h[k] == e;
    assert LinkOk(h, k);
    HistoryGrows(log, log', p);
  }

  /** An insert that met no violation reserves the next generation of its pair. */
  lemma RowExtends(log: seq<Decision>, c: Ceremony, p: Pair, head: Option<Decision>, d: Decision)
    requires Chains(log) && p.positionId == c.positionId
    requires HeadOf(History(log, p), head) && WouldChange(c.action, head)
    requires d == RowOf(c, p.authorityId, head, d.id, d.decidedAt)
    requires forall e | e in log :: !Collides(d, e)
    ensures Reserved(log, d)
  {
    var h := History(log, p);
    assert ChainOk(h);
    assert forall e | e in log :: !Collides(d, e) && !SameGeneration(d, e);
    FreeGenerationMeansCurrentHead(log, p, head, d);
    assert |h| > 0 ==> LinkOk(h, |h| - 1);
  }

  /**
   * Every event of another session meets what `OthersCommit` promises: the log grows, the tables
   * stay coherent, and a row this session holds uncommitted keeps its reservation.
   */
  lemma OthersMeetTheRely(s: System, e: Event, i: nat, legacy: map<Pair, Seat>)
    requires Inv(s, legacy) && Enabled(s, e) && i < |s.sessions|
    requires e.Statement? || e.InsertSucceeds? || e.InsertFails? || e.Fail? ==> e.i != i
    ensures var s' := Next(s, e);
            && s.log <= s'.log
            && i < |s'.sessions| && s'.sessions[i] == s.sessions[i]
            && KeysUnique(s'.log) && Chains(s'.log) && Projected(s'.log, s'.seats, legacy)
            && (HasPending(s.sessions[i].stage) ==> Reserved(s'.log, s.sessions[i].stage.pending))
  {
    hide PendingApart;
    EventKeepsInv(s, e, legacy);
    var s' := Next(s, e);
    assert StageOk(s'.log, s'.sessions[i].ceremony, s'.sessions[i].stage);
  }
}

/** What every interleaving of governance ceremonies keeps, and what its answers mean. */
module AuthorityInvariant {
  import opened Outcomes
  import opened AuthorityCommand
  import opened AuthorityGovernance
  import Text

  // ---------------------------------------------------------------- the chain

  /** Generations 1..n, each linked to the one before, alternating from GRANT. */
  ghost predicate ChainOk(h: seq<Decision>) {
    forall k | 0 <= k < |h| :: LinkOk(h, k)
  }

  predicate LinkOk(h: seq<Decision>, k: nat)
    requires k < |h|
  {
    && h[k].generation == k + 1
    && h[k].action == (if k % 2 == 0 then Grant else Revoke)
    && h[k].previousDecisionId == (if k == 0 then None else Some(h[k - 1].id))
  }

  function Last(h: seq<Decision>): Option<Decision> {
    if |h| == 0 then None else Some(h[|h| - 1])
  }

  /** A head read at some earlier moment: the last decision of a prefix of the history. */
  ghost predicate HeadOf(h: seq<Decision>, head: Option<Decision>) {
    head.None? || (1 <= head.value.generation <= |h| && h[head.value.generation - 1] == head.value)
  }

  /** `d` is the decision that may come next after `h`. */
  predicate Extends(h: seq<Decision>, d: Decision) {
    && d.generation == |h| + 1
    && d.previousDecisionId == (if |h| == 0 then None else Some(h[|h| - 1].id))
    && WouldChange(d.action, Last(h))
  }

  ghost predicate KeysUnique(log: seq<Decision>) {
    forall i, j | 0 <= i < j < |log| :: log[i].idempotencyKey != log[j].idempotencyKey
  }

  ghost predicate Chains(log: seq<Decision>) {
    forall p: Pair :: ChainOk(History(log, p))
  }

  /** The seat row is the effect of the last decision; a pair without decisions keeps its legacy row. */
  ghost predicate Projected(log: seq<Decision>, seats: map<Pair, Seat>, legacy: map<Pair, Seat>) {
    forall p: Pair ::
      var h := History(log, p);
      if |h| == 0 then (p in seats <==> p in legacy) && (p in seats ==> seats[p] == legacy[p])
      else p in seats && seats[p] == SeatAfter(h[|h| - 1])
  }

  ghost predicate HasKey(log: seq<Decision>, key: string) {
    exists d :: d in log && d.idempotencyKey == key
  }

  /** The part of the log a session had seen does not hold its own command. */
  ghost predicate NotLandedBy(log: seq<Decision>, c: Ceremony, seen: nat) {
    forall k | 0 <= k < |log| && k < seen ::
      log[k].idempotencyKey != Key(c) || log[k].commandFingerprint != Fingerprint(c)
  }

  ghost predicate PendingOk(log: seq<Decision>, c: Ceremony, d: Decision) {
    && d.idempotencyKey == Key(c) && d.commandFingerprint == Fingerprint(c) && d.action == c.action
    && d.pair.positionId == c.positionId
    && Extends(History(log, d.pair), d)
    && forall e | e in log :: !Collides(d, e)
  }

  ghost predicate AnswerOk(log: seq<Decision>, c: Ceremony, a: Answer) {
    match a
    case Crashed => true
    case Settled(d) => d in log && d.idempotencyKey == Key(c) && d.commandFingerprint == Fingerprint(c)
    case Refused(reason, seen) =>
      && seen <= |log|
      && (reason.DecisionWouldNotChangeState? || reason.GenerationContended? ==> NotLandedBy(log, c, seen))
      && (reason.CommandFingerprintConflict? ==>
            exists d :: d in log && d.idempotencyKey == Key(c) && d.commandFingerprint != Fingerprint(c))
  }

  ghost predicate StageOk(log: seq<Decision>, c: Ceremony, stage: Stage) {
    match stage
    case Insert(a, head) => HeadOf(History(log, Pair(c.positionId, a)), head) && WouldChange(c.action, head)
    case GateRead(a, head) => HeadOf(History(log, Pair(c.positionId, a)), head) && !WouldChange(c.action, head)
    case Upsert(d) => PendingOk(log, c, d)
    case Commit(d) => PendingOk(log, c, d)
    case Recover(v) => v.IdempotencyReplay? ==> HasKey(log, Key(c))
    case Done(a) => AnswerOk(log, c, a)
    case _ => true
  }

  ghost predicate PendingApart(sessions: seq<Session>) {
    forall i, j | 0 <= i < |sessions| && 0 <= j < |sessions| && i != j
                  && HasPending(sessions[i].stage) && HasPending(sessions[j].stage) ::
      !Collides(sessions[i].stage.pending, sessions[j].stage.pending)
  }

  ghost predicate Inv(s: System, legacy: map<Pair, Seat>) {
    && KeysUnique(s.log)
    && Chains(s.log)
    && Projected(s.log, s.seats, legacy)
    && PendingApart(s.sessions)
    && forall i {:trigger s.sessions[i]} | 0 <= i < |s.sessions| ::
         StageOk(s.log, s.sessions[i].ceremony, s.sessions[i].stage)
  }

  // ---------------------------------------------------------------- reads of a growing log

  lemma {:induction false} HistoryMembers(log: seq<Decision>, p: Pair)
    ensures forall d | d in History(log, p) :: d in log && d.pair == p
    ensures forall d | d in log && d.pair == p :: d in History(log, p)
  {
    if |log| > 0 {
      HistoryMembers(log[..|log| - 1], p);
    }
  }

  lemma HistoryAppend(log: seq<Decision>, d: Decision, p: Pair)
    ensures History(log + [d], p) == History(log, p) + (if d.pair == p then [d] else [])
  {
    assert (log + [d])[..|log|] == log;
  }

  /** On a chain, the highest generation is the last decision. */
  lemma {:induction false} HeadIsLast(log: seq<Decision>, p: Pair)
    requires ChainOk(History(log, p))
    ensures Head(log, p) == Last(History(log, p))
  {
    if |log| > 0 {
      var rest := log[..|log| - 1];
      var h, h' := History(rest, p), History(log, p);
      forall k | 0 <= k < |h|
        ensures LinkOk(h, k)
      {
        assert LinkOk(h', k);
      }
      HeadIsLast(rest, p);
      assert |h| > 0 ==> LinkOk(h, |h| - 1);
      assert |h'| > 0 ==> LinkOk(h', |h'| - 1);
    }
  }

  lemma {:induction false} FindByKeyIsRead(log: seq<Decision>, key: string)
    ensures var f := FindByKey(log, key);
            if f.Some? then f.value in log && f.value.idempotencyKey == key
            else forall d | d in log :: d.idempotencyKey != key
  {
    if |log| > 0 {
      FindByKeyIsRead(log[..|log| - 1], key);
      assert log == log[..|log| - 1] + [log[|log| - 1]];
    }
  }

  /** A head read earlier, whose successor generation is still free, is still the last decision. */
  lemma FreeGenerationMeansCurrentHead(log: seq<Decision>, p: Pair, head: Option<Decision>, d: Decision)
    requires ChainOk(History(log, p)) && HeadOf(History(log, p), head)
    requires d.pair == p && d.generation == NextGeneration(head)
    requires forall e | e in log :: !SameGeneration(d, e)
    ensures head == Last(History(log, p))
  {
    var h := History(log, p);
    HistoryMembers(log, p);
    var m := NextGeneration(head) - 1;
    assert m < |h| ==> LinkOk(h, m) && h[m] in h && SameGeneration(d, h[m]);
  }

  lemma ExtendKeepsChain(h: seq<Decision>, d: Decision, h': seq<Decision>)
    requires ChainOk(h)
    requires h' == h || (Extends(h, d) && h' == h + [d])
    ensures ChainOk(h')
  {
    assert |h| > 0 ==> LinkOk(h, |h| - 1);
    forall k | 0 <= k < |h'|
      ensures LinkOk(h', k)
    {
      if k < |h| {
        assert LinkOk(h, k);
      }
    }
  }

  /** Appending one permitted decision keeps every chain. */
  lemma AppendKeepsChains(log: seq<Decision>, d: Decision)
    requires Chains(log) && Extends(History(log, d.pair), d)
    ensures Chains(log + [d])
  {
    forall p: Pair
      ensures ChainOk(History(log + [d], p))
    {
      HistoryAppend(log, d, p);
      ExtendKeepsChain(History(log, p), d, History(log + [d], p));
    }
  }

  // ---------------------------------------------------------------- what others' commits keep

  /** `log'` grew from `log` by commits that left `d` free to be inserted. */
  lemma OthersKeepStage(log: seq<Decision>, e: Decision, c: Ceremony, stage: Stage)
    requires Chains(log) && StageOk(log, c, stage)
    requires Extends(History(log, e.pair), e)
    requires HasPending(stage) ==> !Collides(stage.pending, e)
    ensures StageOk(log + [e], c, stage)
  {
    match stage
    case Insert(a, _) => HistoryAppend(log, e, Pair(c.positionId, a));
    case GateRead(a, _) => HistoryAppend(log, e, Pair(c.positionId, a));
    case Upsert(d) => HistoryAppend(log, e, d.pair);
    case Commit(d) => HistoryAppend(log, e, d.pair);
    case Recover(_) =>
      if HasKey(log, Key(c)) {
        var d :| d in log && d.idempotencyKey == Key(c);
        assert d in log + [e];
      }
    case Done(Refused(reason, seen)) =>
      if reason.CommandFingerprintConflict? {
        var d :| d in log && d.idempotencyKey == Key(c) && d.commandFingerprint != Fingerprint(c);
        assert d in log + [e];
      }
    case _ =>
  }

  // ---------------------------------------------------------------- every event keeps the invariant

  lemma SetStageKeepsInv(s: System, i: nat, stage: Stage, legacy: map<Pair, Seat>)
    requires Inv(s, legacy) && i < |s.sessions|
    requires StageOk(s.log, s.sessions[i].ceremony, stage)
    requires HasPending(stage) ==>
               forall j | 0 <= j < |s.sessions| && j != i && HasPending(s.sessions[j].stage) ::
                 !Collides(stage.pending, s.sessions[j].stage.pending)
    ensures Inv(SetStage(s, i, stage), legacy)
  {
    var s' := SetStage(s, i, stage);
    forall j | 0 <= j < |s'.sessions|
      ensures StageOk(s'.log, s'.sessions[j].ceremony, s'.sessions[j].stage)
    {
      if j != i {
        assert s'.sessions[j] == s.sessions[j];
      }
    }
  }

  /** The stage after a read is sound for what that read saw. */
  lemma ReadIsSound(s: System, i: nat, legacy: map<Pair, Seat>)
    requires Inv(s, legacy) && Enabled(s, Statement(i)) && !HasPending(s.sessions[i].stage)
    ensures StageOk(s.log, s.sessions[i].ceremony, AfterStatement(s, i))
  {
    hide Fingerprint;
    var Session(c, stage) := s.sessions[i];
    if stage.HeadRead? {
      HeadReadIsSound(s.log, Pair(c.positionId, stage.authorityId));
    } else {
      FindByKeyIsRead(s.log, Key(c));
    }
  }

  lemma HeadReadIsSound(log: seq<Decision>, p: Pair)
    requires Chains(log)
    ensures HeadOf(History(log, p), Head(log, p))
  {
    var h := History(log, p);
    assert ChainOk(h);
    HeadIsLast(log, p);
    assert |h| > 0 ==> LinkOk(h, |h| - 1);
  }

  lemma InsertIsSound(s: System, i: nat, id: string, at: int, legacy: map<Pair, Seat>)
    requires Inv(s, legacy) && Enabled(s, InsertSucceeds(i, id, at))
    ensures StageOk(s.log, s.sessions[i].ceremony, Upsert(Submitted(s, i, id, at)))
  {
    hide Fingerprint;
    var Session(c, stage) := s.sessions[i];
    var d := Submitted(s, i, id, at);
    var p := Pair(c.positionId, stage.authorityId);
    assert ChainOk(History(s.log, p));
    assert StageOk(s.log, c, stage);
    assert forall e | e in s.log :: !Collides(d, e) && !SameGeneration(d, e);
    FreeGenerationMeansCurrentHead(s.log, p, stage.head, d);
    var h := History(s.log, p);
    assert |h| > 0 ==> LinkOk(h, |h| - 1);
  }

  lemma AppendKeepsKeys(log: seq<Decision>, d: Decision)
    requires KeysUnique(log) && forall e | e in log :: !Collides(d, e)
    ensures KeysUnique(log + [d])
  {
    forall k | 0 <= k < |log|
      ensures log[k].idempotencyKey != d.idempotencyKey
    {
      assert log[k] in log && !Collides(d, log[k]);
    }
  }

  lemma AppendKeepsProjection(log: seq<Decision>, d: Decision, seats: map<Pair, Seat>, legacy: map<Pair, Seat>)
    requires Projected(log, seats, legacy)
    ensures Projected(log + [d], seats[d.pair := SeatAfter(d)], legacy)
  {
    forall p: Pair
      ensures History(log + [d], p) == History(log, p) + (if d.pair == p then [d] else [])
    {
      HistoryAppend(log, d, p);
    }
  }

  lemma CommitKeepsStage(s: System, i: nat, j: nat, legacy: map<Pair, Seat>)
    requires Inv(s, legacy) && Enabled(s, Statement(i)) && s.sessions[i].stage.Commit? && j < |s.sessions|
    ensures var s' := Next(s, Statement(i));
            StageOk(s'.log, s'.sessions[j].ceremony, s'.sessions[j].stage)
  {
    var d := s.sessions[i].stage.pending;
    assert StageOk(s.log, s.sessions[i].ceremony, s.sessions[i].stage);
    assert StageOk(s.log, s.sessions[j].ceremony, s.sessions[j].stage);
    if j != i {
      OthersKeepStage(s.log, d, s.sessions[j].ceremony, s.sessions[j].stage);
    } else {
      assert d in s.log + [d];
    }
  }

  lemma CommitKeepsInv(s: System, i: nat, legacy: map<Pair, Seat>)
    requires Inv(s, legacy) && Enabled(s, Statement(i)) && s.sessions[i].stage.Commit?
    ensures Inv(Next(s, Statement(i)), legacy)
  {
    hide Projected;
    var s', d := Next(s, Statement(i)), s.sessions[i].stage.pending;
    assert StageOk(s.log, s.sessions[i].ceremony, s.sessions[i].stage);
    AppendKeepsChains(s.log, d);
    AppendKeepsKeys(s.log, d);
    AppendKeepsProjection(s.log, d, s.seats, legacy);
    assert PendingApart(s'.sessions);
    forall j | 0 <= j < |s'.sessions|
      ensures StageOk(s'.log, s'.sessions[j].ceremony, s'.sessions[j].stage)
    {
      CommitKeepsStage(s, i, j, legacy);
    }
  }

  lemma BeginKeepsInv(s: System, c: Ceremony, legacy: map<Pair, Seat>)
    requires Inv(s, legacy) && Enabled(s, Begin(c))
    ensures Inv(Next(s, Begin(c)), legacy)
  {
    var s' := Next(s, Begin(c));
    forall j | 0 <= j < |s'.sessions|
      ensures StageOk(s'.log, s'.sessions[j].ceremony, s'.sessions[j].stage)
    {
      if j < |s.sessions| {
        assert s'.sessions[j] == s.sessions[j];
      }
    }
  }

  lemma StatementKeepsInv(s: System, i: nat, legacy: map<Pair, Seat>)
    requires Inv(s, legacy) && Enabled(s, Statement(i))
    ensures Inv(Next(s, Statement(i)), legacy)
  {
    hide PendingOk, Chains;
    assert StageOk(s.log, s.sessions[i].ceremony, s.sessions[i].stage);
    if s.sessions[i].stage.Commit? {
      CommitKeepsInv(s, i, legacy);
    } else {
      if !s.sessions[i].stage.Upsert? {
        ReadIsSound(s, i, legacy);
      }
      SetStageKeepsInv(s, i, AfterStatement(s, i), legacy);
    }
  }

  lemma InsertFailsKeepsInv(s: System, i: nat, v: Violation, legacy: map<Pair, Seat>)
    requires Inv(s, legacy) && Enabled(s, InsertFails(i, v))
    ensures Inv(Next(s, InsertFails(i, v)), legacy)
  {
    if v.IdempotencyReplay? {
      var d :| d in s.log && Submitted(s, i, "", 0).idempotencyKey == d.idempotencyKey;
      assert HasKey(s.log, Key(s.sessions[i].ceremony));
    }
    SetStageKeepsInv(s, i, Recover(v), legacy);
  }

  /** Every event of every session keeps the invariant. */
  lemma EventKeepsInv(s: System, e: Event, legacy: map<Pair, Seat>)
    requires Inv(s, legacy) && Enabled(s, e)
    ensures Inv(Next(s, e), legacy)
  {
    hide PendingOk, StageOk, Chains;
    match e
    case Begin(c) => BeginKeepsInv(s, c, legacy);
    case Environment(_, _, _) =>
    case Statement(i) => StatementKeepsInv(s, i, legacy);
    case InsertSucceeds(i, id, at) =>
      InsertIsSound(s, i, id, at, legacy);
      SetStageKeepsInv(s, i, Upsert(Submitted(s, i, id, at)), legacy);
    case InsertFails(i, v) => InsertFailsKeepsInv(s, i, v, legacy);
    case Fail(i) => SetStageKeepsInv(s, i, Done(Crashed), legacy);
  }

  lemma {:induction false} RunKeepsInv(s: System, events: seq<Event>, s': System, legacy: map<Pair, Seat>)
    requires Inv(s, legacy) && Runs(s, events, s')
    ensures Inv(s', legacy)
    ensures s.log <= s'.log
    decreases |events|
  {
    if |events| > 0 {
      EventKeepsInv(s, events[0], legacy);
      RunKeepsInv(Next(s, events[0]), events[1..], s', legacy);
    }
  }

  /** Reached from the empty log by some run. */
  ghost predicate Reachable(s: System, legacy: map<Pair, Seat>) {
    exists events :: Runs(Initial(legacy), events, s)
  }

  lemma ReachableKeepsInv(s: System, legacy: map<Pair, Seat>)
    requires Reachable(s, legacy)
    ensures Inv(s, legacy)
  {
    var events :| Runs(Initial(legacy), events, s);
    RunKeepsInv(Initial(legacy), events, s, legacy);
  }

  // ---------------------------------------------------------------- what the log and the seats say

  /**
   * In every interleaving a pair's committed decisions are generations 1..n, each linked to the
   * one before, alternating from GRANT; the seat row is active exactly when the last action is a
   * GRANT, and carries a revocation instant exactly when it is not active.
   */
  lemma GovernedHistory(s: System, legacy: map<Pair, Seat>, p: Pair)
    requires Reachable(s, legacy)
    ensures var h := History(s.log, p);
            && (forall d :: d in h <==> d in s.log && d.pair == p)
            && (forall k | 0 <= k < |h| :: LinkOk(h, k))
            && (|h| > 0 ==>
                  && p in s.seats
                  && (s.seats[p].isActive <==> h[|h| - 1].action == Grant)
                  && (s.seats[p].isActive <==> s.seats[p].revokedAt == None)
                  && (!s.seats[p].isActive ==> s.seats[p].revokedAt == Some(h[|h| - 1].decidedAt)))
  {
    ReachableKeepsInv(s, legacy);
    HistoryMembers(s.log, p);
    assert ChainOk(History(s.log, p));
  }

  /** One command, submitted any number of times, commits at most one decision and every success is that one. */
  lemma OneDecisionPerCommand(s: System, legacy: map<Pair, Seat>, i: nat, j: nat)
    requires Reachable(s, legacy)
    requires i < |s.sessions| && j < |s.sessions|
    requires Key(s.sessions[i].ceremony) == Key(s.sessions[j].ceremony)
    requires s.sessions[i].stage.Done? && s.sessions[i].stage.answer.Settled?
    requires s.sessions[j].stage.Done? && s.sessions[j].stage.answer.Settled?
    ensures var d := s.sessions[i].stage.answer.decision;
            && s.sessions[j].stage.answer.decision == d
            && d in s.log
            && (forall k | 0 <= k < |s.log| && s.log[k].idempotencyKey == Key(s.sessions[i].ceremony) :: s.log[k] == d)
    ensures Fingerprint(s.sessions[i].ceremony) == Fingerprint(s.sessions[j].ceremony)
  {
    ReachableKeepsInv(s, legacy);
    assert StageOk(s.log, s.sessions[i].ceremony, s.sessions[i].stage);
    assert StageOk(s.log, s.sessions[j].ceremony, s.sessions[j].stage);
    var d, d' := s.sessions[i].stage.answer.decision, s.sessions[j].stage.answer.decision;
    var k :| 0 <= k < |s.log| && s.log[k] == d;
    var k' :| 0 <= k' < |s.log| && s.log[k'] == d';
  }

  /** Commands with different digests under one key: once one is settled, the other never is. */
  lemma DifferentCommandRefused(s: System, legacy: map<Pair, Seat>, i: nat, j: nat)
    requires Reachable(s, legacy)
    requires i < |s.sessions| && j < |s.sessions|
    requires Key(s.sessions[i].ceremony) == Key(s.sessions[j].ceremony)
    requires Fingerprint(s.sessions[i].ceremony) != Fingerprint(s.sessions[j].ceremony)
    requires s.sessions[i].stage.Done? && s.sessions[i].stage.answer.Settled?
    ensures s.sessions[j].stage.Done? ==> !s.sessions[j].stage.answer.Settled?
  {
    if s.sessions[j].stage.Done? && s.sessions[j].stage.answer.Settled? {
      OneDecisionPerCommand(s, legacy, i, j);
    }
  }

  /**
   * A refusal for an unchanged state, or for a lost race, is never given to a command that had
   * itself been committed when the deciding read ran.
   */
  lemma RefusalMeansNotLanded(s: System, legacy: map<Pair, Seat>, i: nat)
    requires Reachable(s, legacy)
    requires i < |s.sessions| && s.sessions[i].stage.Done? && s.sessions[i].stage.answer.Refused?
    requires s.sessions[i].stage.answer.reason in {DecisionWouldNotChangeState, GenerationContended}
    ensures var c, seen := s.sessions[i].ceremony, s.sessions[i].stage.answer.seen;
            seen <= |s.log|
            && forall d | d in s.log[..seen] ::
                 d.idempotencyKey != Key(c) || d.commandFingerprint != Fingerprint(c)
  {
    ReachableKeepsInv(s, legacy);
    assert StageOk(s.log, s.sessions[i].ceremony, s.sessions[i].stage);
  }

  /** The recovery after an idempotency violation always finds the row that caused it. */
  lemma IdempotencyRecoveryIsNeverContended(s: System, legacy: map<Pair, Seat>, i: nat)
    requires Reachable(s, legacy)
    requires i < |s.sessions| && s.sessions[i].stage == Recover(IdempotencyReplay)
    ensures var a := AfterStatement(s, i).answer;
            a.Settled? || (a.Refused? && a.reason == CommandFingerprintConflict)
  {
    ReachableKeepsInv(s, legacy);
    assert StageOk(s.log, s.sessions[i].ceremony, s.sessions[i].stage);
    FindByKeyIsRead(s.log, Key(s.sessions[i].ceremony));
  }

  /** Committed decisions are never changed, reordered or removed. */
  lemma AppendOnly(s: System, events: seq<Event>, s': System, legacy: map<Pair, Seat>)
    requires Reachable(s, legacy) && Runs(s, events, s')
    ensures s.log <= s'.log
  {
    ReachableKeepsInv(s, legacy);
    RunKeepsInv(s, events, s', legacy);
  }

  lemma RunsCons(s: System, e: Event, rest: seq<Event>, s': System)
    requires Enabled(s, e) && Runs(Next(s, e), rest, s')
    ensures Runs(s, [e] + rest, s')
  {
    assert ([e] + rest)[1..] == rest;
  }

  /** Nobody else is writing, and the pair, the hand and the power of the command resolve. */
  ghost predicate Undisturbed(s: System, c: Ceremony, a: string, id: string) {
    && InputGate(c).None?
    && (forall j | 0 <= j < |s.sessions| :: !HasPending(s.sessions[j].stage))
    && (forall d | d in s.log :: d.idempotencyKey != Key(c) && d.id != id)
    && c.positionId in s.positions
    && c.executedByAccountId in s.accounts && s.accounts[c.executedByAccountId]
    && Text.Trim(c.authorityCode) in s.authorities && s.authorities[Text.Trim(c.authorityCode)] == a
    && ChainOk(History(s.log, Pair(c.positionId, a)))
    && WouldChange(c.action, Last(History(s.log, Pair(c.positionId, a))))
  }

  /** The state after such a command: one row more, its seat moved, its caller answered with the row. */
  function Decided(s: System, c: Ceremony, d: Decision): System {
    s.(log := s.log + [d], seats := s.seats[d.pair := SeatAfter(d)],
       sessions := s.sessions + [Session(c, Done(Settled(d)))])
  }

  /** A submission that nobody disturbs commits exactly its own decision and moves exactly its own seat. */
  lemma UndisturbedCeremony(s: System, c: Ceremony, a: string, id: string, at: int)
    requires Undisturbed(s, c, a, id)
    ensures var h := History(s.log, Pair(c.positionId, a));
            var d := RowOf(c, a, Last(h), id, at);
            && d.generation == |h| + 1
            && exists events :: Runs(s, events, Decided(s, c, d))
  {
    var i := |s.sessions|;
    InsertIsEnabled(s, c, a, id, at);
    var d := RowOf(c, a, Last(History(s.log, Pair(c.positionId, a))), id, at);
    var s' := Decided(s, c, d);
    var tail := WriteAndCommit(ReadyToInsert(s, c, a), i, id, at);
    var fromReads := PrependReads(Next(s, Begin(c)), i, c, a, tail, s');
    RunsCons(s, Begin(c), fromReads, s');
  }

  /** Where the reads of an undisturbed command leave its session. */
  function ReadyToInsert(s: System, c: Ceremony, a: string): System {
    s.(sessions := s.sessions + [Session(c, Insert(a, Head(s.log, Pair(c.positionId, a))))])
  }

  lemma InsertIsEnabled(s: System, c: Ceremony, a: string, id: string, at: int)
    requires Undisturbed(s, c, a, id)
    ensures var s1 := Next(s, Begin(c));
            ReadsPass(s1, |s.sessions|, c, a) && ReadsOf(s1, |s.sessions|, c, a) == ReadyToInsert(s, c, a)
    ensures Enabled(ReadyToInsert(s, c, a), InsertSucceeds(|s.sessions|, id, at))
    ensures var h := History(s.log, Pair(c.positionId, a));
            var d := RowOf(c, a, Last(h), id, at);
            d.generation == |h| + 1 && AfterWrite(ReadyToInsert(s, c, a), |s.sessions|, id, at) == Decided(s, c, d)
  {
    var p := Pair(c.positionId, a);
    var h := History(s.log, p);
    FindByKeyIsRead(s.log, Key(c));
    HeadIsLast(s.log, p);
    assert |h| > 0 ==> LinkOk(h, |h| - 1);
    NoCollisions(s.log, h, RowOf(c, a, Last(h), id, at));
  }

  /** The state after the insert, the upsert and the commit of session `i`. */
  function AfterWrite(s: System, i: nat, id: string, at: int): System
    requires Enabled(s, InsertSucceeds(i, id, at))
  {
    var d := Submitted(s, i, id, at);
    SetStage(s, i, Done(Settled(d))).(log := s.log + [d], seats := s.seats[d.pair := SeatAfter(d)])
  }

  /** Insert, upsert and commit without anything in between. */
  lemma WriteAndCommit(s: System, i: nat, id: string, at: int) returns (events: seq<Event>)
    requires Enabled(s, InsertSucceeds(i, id, at))
    ensures Runs(s, events, AfterWrite(s, i, id, at))
  {
    var s1 := Next(s, InsertSucceeds(i, id, at));
    var s2 := Next(s1, Statement(i));
    var s3 := Next(s2, Statement(i));
    assert s3.sessions == AfterWrite(s, i, id, at).sessions;
    RunsCons(s2, Statement(i), [], s3);
    RunsCons(s1, Statement(i), [Statement(i)] + [], s3);
    events := [InsertSucceeds(i, id, at)] + ([Statement(i)] + ([Statement(i)] + []));
    RunsCons(s, InsertSucceeds(i, id, at), [Statement(i)] + ([Statement(i)] + []), s3);
  }

  lemma NoCollisions(log: seq<Decision>, h: seq<Decision>, d: Decision)
    requires h == History(log, d.pair) && ChainOk(h) && d.generation == |h| + 1
    requires forall e | e in log :: e.idempotencyKey != d.idempotencyKey && e.id != d.id
    ensures forall e | e in log :: !Collides(d, e)
  {
    HistoryMembers(log, d.pair);
    forall e | e in log
      ensures !Collides(d, e)
    {
      if e.pair == d.pair {
        var k :| 0 <= k < |h| && h[k] == e;
        assert LinkOk(h, k);
      }
    }
  }

  /** All four references resolve and the command would change the state, for session `i` of `s`. */
  ghost predicate ReadsPass(s: System, i: nat, c: Ceremony, a: string) {
    && i < |s.sessions| && s.sessions[i] == Session(c, ReplayRead)
    && FindByKey(s.log, Key(c)).None?
    && c.positionId in s.positions
    && c.executedByAccountId in s.accounts && s.accounts[c.executedByAccountId]
    && Text.Trim(c.authorityCode) in s.authorities && s.authorities[Text.Trim(c.authorityCode)] == a
    && WouldChange(c.action, Head(s.log, Pair(c.positionId, a)))
  }

  function ReadsOf(s: System, i: nat, c: Ceremony, a: string): System
    requires i < |s.sessions|
  {
    SetStage(s, i, Insert(a, Head(s.log, Pair(c.positionId, a))))
  }

  lemma PrependReads(s: System, i: nat, c: Ceremony, a: string, tail: seq<Event>, s': System) returns (events: seq<Event>)
    requires ReadsPass(s, i, c, a) && Runs(ReadsOf(s, i, c, a), tail, s')
    ensures Runs(s, events, s')
  {
    var st := Statement(i);
    var s1 := Next(s, st);
    var s2 := Next(s1, st);
    var s3 := Next(s2, st);
    var s4 := Next(s3, st);
    var s5 := Next(s4, st);
    assert s5 == ReadsOf(s, i, c, a);
    RunsCons(s4, st, tail, s');
    RunsCons(s3, st, [st] + tail, s');
    RunsCons(s2, st, [st] + ([st] + tail), s');
    RunsCons(s1, st, [st] + ([st] + ([st] + tail)), s');
    events := [st] + ([st] + ([st] + ([st] + ([st] + tail))));
    RunsCons(s, st, [st] + ([st] + ([st] + ([st] + tail))), s');
  }
}

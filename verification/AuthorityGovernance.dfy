/**
 * The decision log and the seat table under concurrent ceremonies.
 *
 * Every statement of `decide` is one event. Between any two statements of one session any number
 * of statements of other sessions may run, each seeing what was committed before it (READ
 * COMMITTED). An inserted row is private until its transaction commits, and another insert that
 * would collide with it waits.
 */
module AuthorityGovernance {
  import opened Outcomes
  import opened AuthorityCommand
  import Text

  /** A position and an authority: the pair whose grants and revocations are numbered. */
  datatype Pair = Pair(positionId: string, authorityId: string)

  datatype Decision = Decision(
    id: string,
    pair: Pair,
    action: Action,
    generation: nat,
    previousDecisionId: Option<string>,
    idempotencyKey: string,
    commandFingerprint: string,
    decidedAt: int)

  /** One `position_authorities` row. */
  datatype Seat = Seat(isActive: bool, revokedAt: Option<int>)

  datatype Refusal =
    | OwnerAuthorizationRequired | IdempotencyKeyRequired | PositionRequired | ActorRequired | AuthorityRequired
    | PositionNotFound | ActorNotFound | ActorInactive | AuthorityNotFound
    | CommandFingerprintConflict | DecisionWouldNotChangeState | GenerationContended

  /** `seen` is the length of the committed log at the statement that settled the answer. */
  datatype Answer = Settled(decision: Decision) | Refused(reason: Refusal, seen: nat) | Crashed

  datatype Violation = GenerationRace | IdempotencyReplay

  /** Where a session stands, with the values it carries from one statement to the next. */
  datatype Stage =
    | ReplayRead
    | SeatRead
    | HandRead
    | PowerRead
    | HeadRead(authorityId: string)
    | GateRead(authorityId: string, head: Option<Decision>)
    | Insert(authorityId: string, head: Option<Decision>)
    | Upsert(pending: Decision)
    | Commit(pending: Decision)
    | Recover(violation: Violation)
    | Done(answer: Answer)

  datatype Session = Session(ceremony: Ceremony, stage: Stage)

  datatype System = System(
    log: seq<Decision>,
    seats: map<Pair, Seat>,
    positions: set<string>,
    accounts: map<string, bool>,
    authorities: map<string, string>,
    sessions: seq<Session>)

  function Key(c: Ceremony): string {
    Text.Trim(c.idempotencyKey)
  }

  // ---------------------------------------------------------------- reads

  function FindByKey(log: seq<Decision>, key: string): Option<Decision> {
    if |log| == 0 then None
    else if log[|log| - 1].idempotencyKey == key then Some(log[|log| - 1])
    else FindByKey(log[..|log| - 1], key)
  }

  /** The pair's committed decisions, oldest first. */
  function History(log: seq<Decision>, p: Pair): seq<Decision> {
    if |log| == 0 then []
    else History(log[..|log| - 1], p) + (if log[|log| - 1].pair == p then [log[|log| - 1]] else [])
  }

  /** `findFirst ... orderBy generation desc`: the committed decision of the pair with the highest generation. */
  function Head(log: seq<Decision>, p: Pair): Option<Decision> {
    if |log| == 0 then None
    else
      var last, rest := log[|log| - 1], Head(log[..|log| - 1], p);
      if last.pair == p && (rest.None? || rest.value.generation < last.generation) then Some(last) else rest
  }

  function AlreadyHeld(head: Option<Decision>): bool {
    head.Some? && head.value.action.Grant?
  }

  function WouldChange(action: Action, head: Option<Decision>): bool {
    if action.Grant? then !AlreadyHeld(head) else AlreadyHeld(head)
  }

  function NextGeneration(head: Option<Decision>): nat {
    (if head.Some? then head.value.generation else 0) + 1
  }

  function SeatAfter(d: Decision): Seat {
    Seat(d.action.Grant?, if d.action.Grant? then None else Some(d.decidedAt))
  }

  // ---------------------------------------------------------------- events

  datatype Event =
    | Begin(ceremony: Ceremony)
    | Statement(i: nat)
    | InsertSucceeds(i: nat, id: string, decidedAt: int)
    | InsertFails(i: nat, violation: Violation)
    | Fail(i: nat)
    | Environment(positions: set<string>, accounts: map<string, bool>, authorities: map<string, string>)

  /** The gates that run before any read. */
  function InputGate(c: Ceremony): Option<Refusal> {
    if Text.Trim(c.ownerAuthorizationReference) == "" then Some(OwnerAuthorizationRequired)
    else if Text.Trim(c.idempotencyKey) == "" then Some(IdempotencyKeyRequired)
    else if Text.Trim(c.positionId) == "" then Some(PositionRequired)
    else if Text.Trim(c.executedByAccountId) == "" then Some(ActorRequired)
    else if Text.Trim(c.authorityCode) == "" then Some(AuthorityRequired)
    else None
  }

  /** The row a session in stage `Insert` submits, given its fresh id and clock reading. */
  function RowOf(c: Ceremony, authorityId: string, head: Option<Decision>, id: string, decidedAt: int): Decision {
    Decision(
      id, Pair(c.positionId, authorityId), c.action, NextGeneration(head),
      if head.Some? then Some(head.value.id) else None,
      Key(c), Fingerprint(c), decidedAt)
  }

  predicate SameGeneration(d: Decision, e: Decision) {
    d.pair == e.pair && d.generation == e.generation
  }

  /** The two unique indexes and the primary key. */
  predicate Collides(d: Decision, e: Decision) {
    SameGeneration(d, e) || d.idempotencyKey == e.idempotencyKey || d.id == e.id
  }

  predicate HasPending(s: Stage) {
    s.Upsert? || s.Commit?
  }

  predicate Violates(log: seq<Decision>, d: Decision, v: Violation) {
    match v
    case GenerationRace => exists e | e in log :: SameGeneration(d, e)
    case IdempotencyReplay => exists e | e in log :: d.idempotencyKey == e.idempotencyKey
  }

  predicate InsertReady(s: System, i: nat) {
    i < |s.sessions| && s.sessions[i].stage.Insert?
  }

  function Submitted(s: System, i: nat, id: string, decidedAt: int): Decision
    requires InsertReady(s, i)
  {
    var Session(c, stage) := s.sessions[i];
    RowOf(c, stage.authorityId, stage.head, id, decidedAt)
  }

  predicate Enabled(s: System, e: Event) {
    match e
    case Begin(_) => true
    case Environment(_, _, _) => true
    case Statement(i) => i < |s.sessions| && !s.sessions[i].stage.Insert? && !s.sessions[i].stage.Done?
    case Fail(i) => i < |s.sessions| && !s.sessions[i].stage.Done?
    case InsertSucceeds(i, id, at) =>
      && InsertReady(s, i)
      && var d := Submitted(s, i, id, at);
      && (forall e | e in s.log :: !Collides(d, e))
      && (forall j | 0 <= j < |s.sessions| && j != i && HasPending(s.sessions[j].stage) ::
            !Collides(d, s.sessions[j].stage.pending))
    case InsertFails(i, v) =>
      InsertReady(s, i) && Violates(s.log, Submitted(s, i, "", 0), v)
  }

  /** The answer to a read by key that found `d`. */
  function ByKeyAnswer(c: Ceremony, d: Decision, seen: nat): Answer {
    if d.commandFingerprint == Fingerprint(c) then Settled(d) else Refused(CommandFingerprintConflict, seen)
  }

  /** The stage after one statement other than the insert, in session order. */
  function AfterStatement(s: System, i: nat): Stage
    requires Enabled(s, Statement(i))
  {
    var Session(c, stage) := s.sessions[i];
    var found := FindByKey(s.log, Key(c));
    match stage
    case ReplayRead => if found.Some? then Done(ByKeyAnswer(c, found.value, |s.log|)) else SeatRead
    case SeatRead => if c.positionId in s.positions then HandRead else Done(Refused(PositionNotFound, |s.log|))
    case HandRead =>
      if c.executedByAccountId !in s.accounts then Done(Refused(ActorNotFound, |s.log|))
      else if !s.accounts[c.executedByAccountId] then Done(Refused(ActorInactive, |s.log|))
      else PowerRead
    case PowerRead =>
      var code := Text.Trim(c.authorityCode);
      if code in s.authorities then HeadRead(s.authorities[code]) else Done(Refused(AuthorityNotFound, |s.log|))
    case HeadRead(a) =>
      var head := Head(s.log, Pair(c.positionId, a));
      if WouldChange(c.action, head) then Insert(a, head) else GateRead(a, head)
    case GateRead(_, _) =>
      Done(if found.Some? then ByKeyAnswer(c, found.value, |s.log|)
           else Refused(DecisionWouldNotChangeState, |s.log|))
    case Upsert(d) => Commit(d)
    case Commit(d) => Done(Settled(d))
    case Recover(v) =>
      Done(if found.None? || (v.GenerationRace? && found.value.commandFingerprint != Fingerprint(c))
           then Refused(GenerationContended, |s.log|)
           else ByKeyAnswer(c, found.value, |s.log|))
  }

  function SetStage(s: System, i: nat, stage: Stage): System
    requires i < |s.sessions|
  {
    s.(sessions := s.sessions[i := s.sessions[i].(stage := stage)])
  }

  function Next(s: System, e: Event): System
    requires Enabled(s, e)
  {
    match e
    case Begin(c) =>
      var gate := InputGate(c);
      var stage := if gate.Some? then Done(Refused(gate.value, |s.log|)) else ReplayRead;
      s.(sessions := s.sessions + [Session(c, stage)])
    case Environment(ps, acs, aus) => s.(positions := ps, accounts := acs, authorities := aus)
    case Statement(i) =>
      var s' := SetStage(s, i, AfterStatement(s, i));
      var stage := s.sessions[i].stage;
      if stage.Commit? then
        s'.(log := s.log + [stage.pending], seats := s.seats[stage.pending.pair := SeatAfter(stage.pending)])
      else s'
    case InsertSucceeds(i, id, at) => SetStage(s, i, Upsert(Submitted(s, i, id, at)))
    case InsertFails(i, v) => SetStage(s, i, Recover(v))
    case Fail(i) => SetStage(s, i, Done(Crashed))
  }

  /** `s'` is reached from `s` by the events, in order. */
  ghost predicate Runs(s: System, events: seq<Event>, s': System)
    decreases |events|
  {
    if |events| == 0 then s == s'
    else Enabled(s, events[0]) && Runs(Next(s, events[0]), events[1..], s')
  }

  /** No decision yet and no session; whatever the seat table held before stays `legacy`. */
  function Initial(legacy: map<Pair, Seat>): System {
    System([], legacy, {}, map[], map[], [])
  }
}

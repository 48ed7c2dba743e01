/**
 The execution of data operations as a step system: any number of requests interleaved, sharing one
 audit database, with cancellation, timeouts, lost state updates and crashes at any point.

 A request that is handed to its connector leaves an effect behind: the write may reach the
 database at most once, at any later time, until a definite answer settles it.
 */
module WriteProtocol {
  import opened Options
  import opened Operations
  import opened Grants
  import opened AuditStore

  datatype Category =
    | Success | Cancelled | Timeout | UnknownOutcome | Conflict | PermissionDenied | Internal
    | ResultTooLarge   // the connector's result does not fit the connection's limits
    | OtherError

  datatype Finish = FinishSucceeded | FinishUnknown | FinishRelease

  datatype Stage =
    | Admitted                                    // request id reserved, profile loaded
    | Cleared                                     // policy passed; a write's grant is verified
    | Active                                      // the request's state cell says Active
    | Checked                                     // cancellation token looked at once
    | Granted                                     // the grant, if any, is spent
    | Ready                                       // the idempotency key, if any, is reserved
    | Dispatched                                  // the connector future has been polled
    | Reporting(finish: Finish, category: Category) // the run ended; its record is to be settled
    | Delivering                                  // succeeded and settled; the result is held against the limits
    | Done(result: Category)
    | Crashed

  datatype Request = Request(
    op: Operation, connection: nat, hash: string, grant: Option<Grant>, context: Context,
    cancelRequested: bool, stage: Stage)
  {
    predicate Keyed() { WriteKey(op).Some? }
    /** What a grant has to confirm: the authorization's facts, about this connection. */
    function Confirmable(): Context { context.(connection := connection) }
    function Slot(): Slot requires Keyed() { AuditStore.Slot(connection, WriteKey(op).value) }
    predicate Over() { stage.Done? || stage.Crashed? }
    /** From reservation to settlement the request is responsible for its record. */
    predicate Settling() { stage.Ready? || stage.Dispatched? || stage.Reporting? }
  }

  /** Live: may still reach the database. Fired: it has. Dead: it never will. */
  datatype Effect = Live | Fired | Dead

  /**
   `honest`: a connector error other than UnknownOutcome means the write was not and will not be applied, and
   success means that it will not be applied later.
   */
  datatype Environment = Environment(honest: bool, verifier: Verifier)

  datatype State = State(
    now: nat,
    records: Records,
    nonces: NonceTable,
    requests: map<nat, Request>,
    effects: map<nat, Effect>,
    spent: map<nat, Spendable>)   // history: the grant each request spent

  const INITIAL := State(0, map[], map[], map[], map[], map[])

  datatype ConnectorAnswer = AnswerOk | AnswerUnknown | AnswerError(category: Category) | AnswerTimeout
    | AnswerCancelled

  datatype Step =
    | Tick
    | Arrive(id: nat, op: Operation, connection: nat, hash: string, grant: Option<Grant>, context: Context)
    | RequestCancel(id: nat)
    | Authorize(id: nat)
    | Activate(id: nat)
    | CheckToken(id: nat)
    | SpendGrant(id: nat, storeFails: bool, committed: bool)
    | ReserveKey(id: nat, storeFails: bool, committed: bool)
    | Start(id: nat)
    | ReachDatabase(id: nat)
    | Answer(id: nat, answer: ConnectorAnswer)
    | SettleRecord(id: nat, lost: bool)
    | CheckResult(id: nat, fits: bool)
    | Crash(id: nat)

  /** What one step does to its request, to that request's effect and to the shared tables. */
  datatype Move = Move(stage: Stage, effect: Option<Effect>, records: Records, nonces: NonceTable,
    spend: Option<Spendable>)

  function To(s: State, stage: Stage): Move { Move(stage, None, s.records, s.nonces, None) }

  function Moved(s: State, id: nat, m: Move): State
    requires id in s.requests
  {
    s.(requests := s.requests[id := s.requests[id].(stage := m.stage)],
       effects := if m.effect.Some? then s.effects[id := m.effect.value] else s.effects,
       records := m.records,
       nonces := m.nonces,
       spent := if m.spend.Some? then s.spent[id := m.spend.value] else s.spent)
  }

  function AuthorizeMove(env: Environment, s: State, r: Request): Move {
    if !WriteAction(r.op) then To(s, Cleared)
    else if r.grant.Some? && Verify(env.verifier, r.grant.value, r.Confirmable(), s.now).Verified? then To(s, Cleared)
    else To(s, Done(PermissionDenied))
  }

  function SpendableOf(env: Environment, r: Request): Spendable
    requires r.grant.Some?
  {
    Spendable(ReplayKey(env.verifier.identity, r.grant.value.claims.nonce), r.grant.value.claims.expiresAt)
  }

  /** Only a freshly spent grant lets a write go on; a failing store may or may not have committed. */
  function SpendMove(env: Environment, s: State, r: Request, storeFails: bool, committed: bool): Move {
    if !WriteAction(r.op) then To(s, Granted)
    else if r.grant.None? then To(s, Done(PermissionDenied)) else
      var grant := SpendableOf(env, r);
      var (table, outcome) := Consume(s.nonces, grant, s.now);
      if storeFails then Move(Done(Internal), None, s.records, if committed then table else s.nonces, None)
      else if outcome == Consumed then Move(Granted, None, s.records, table, Some(grant))
      else Move(Done(PermissionDenied), None, s.records, table, None)
  }

  function ReserveMove(s: State, r: Request, storeFails: bool, committed: bool): Move {
    if !r.Keyed() then To(s, Ready) else
      var (records, outcome) := Reserve(s.records, r.Slot(), r.hash);
      if storeFails then Move(Done(Internal), None, if committed then records else s.records, s.nonces, None)
      else if outcome == Reserved then Move(Ready, None, records, s.nonces, None)
      else To(s, Done(Conflict))
  }

  function AnswerMove(env: Environment, s: State, r: Request, effect: Effect, answer: ConnectorAnswer): Move {
    var unknown := To(s, Reporting(FinishUnknown, UnknownOutcome));
    match answer
    case AnswerOk =>
      // success may also mean that there was nothing to change; then nothing is left to happen
      var success := To(s, Reporting(FinishSucceeded, Success));
      if env.honest && effect != Fired then success.(effect := Some(Dead)) else success
    case AnswerUnknown => unknown
    case AnswerError(category) =>
      if category == Success || category == ResultTooLarge then To(s, r.stage)   // no error has such a category
      else if category == UnknownOutcome then unknown
      else if !env.honest then To(s, Reporting(FinishRelease, category))
      else if effect == Fired then To(s, r.stage)
      else To(s, Reporting(FinishRelease, category)).(effect := Some(Dead))
    case AnswerTimeout => if WriteAction(r.op) then unknown else To(s, Done(Timeout))
    case AnswerCancelled =>
      if !r.cancelRequested then To(s, r.stage)
      else if WriteAction(r.op) then unknown
      else To(s, Reporting(FinishRelease, Cancelled))
  }

  function SettleMove(s: State, r: Request, lost: bool): Move
    requires r.stage.Reporting?
  {
    var next := if r.stage.finish == FinishSucceeded then Delivering else Done(r.stage.category);
    if lost || !r.Keyed() then To(s, next) else
      To(s, next).(records :=
        match r.stage.finish
        case FinishSucceeded => Settle(s.records, r.Slot(), r.hash, Succeeded)
        case FinishUnknown => Settle(s.records, r.Slot(), r.hash, Unknown)
        case FinishRelease => Release(s.records, r.Slot(), r.hash))
  }

  /** A step that is not possible in the current state changes nothing. */
  function MoveOf(env: Environment, s: State, id: nat, step: Step): Move
    requires id in s.requests
  {
    var r := s.requests[id];
    match step
    case Authorize(_) => if r.stage.Admitted? then AuthorizeMove(env, s, r) else To(s, r.stage)
    case Activate(_) => if r.stage.Cleared? then To(s, if r.cancelRequested then Done(Cancelled) else Active)
      else To(s, r.stage)
    case CheckToken(_) => if r.stage.Active? then To(s, if r.cancelRequested then Done(Cancelled) else Checked)
      else To(s, r.stage)
    case SpendGrant(_, storeFails, committed) =>
      if r.stage.Checked? then SpendMove(env, s, r, storeFails, committed) else To(s, r.stage)
    case ReserveKey(_, storeFails, committed) =>
      if r.stage.Granted? then ReserveMove(s, r, storeFails, committed) else To(s, r.stage)
    case Start(_) =>
      if !r.stage.Ready? then To(s, r.stage)
      else if r.cancelRequested then To(s, Reporting(FinishRelease, Cancelled))
      else To(s, Dispatched).(effect := Some(Live))
    case ReachDatabase(_) =>
      if id in s.effects && s.effects[id] == Live then To(s, r.stage).(effect := Some(Fired)) else To(s, r.stage)
    case Answer(_, answer) =>
      if r.stage.Dispatched? && id in s.effects then AnswerMove(env, s, r, s.effects[id], answer) else To(s, r.stage)
    case SettleRecord(_, lost) => if r.stage.Reporting? then SettleMove(s, r, lost) else To(s, r.stage)
    case CheckResult(_, fits) =>
      if r.stage.Delivering? then To(s, Done(if fits then Success else ResultTooLarge)) else To(s, r.stage)
    case Crash(_) => if r.Over() then To(s, r.stage) else To(s, Crashed)
    case _ => To(s, r.stage)
  }

  function Next(env: Environment, s: State, step: Step): State {
    match step
    case Tick => s.(now := s.now + 1)
    case Arrive(id, op, connection, hash, grant, context) =>
      if id in s.requests then s
      else s.(requests := s.requests[id := Request(op, connection, hash, grant, context, false, Admitted)])
    case RequestCancel(id) =>
      if id !in s.requests || s.requests[id].Over() then s
      else s.(requests := s.requests[id := s.requests[id].(cancelRequested := true)])
    case _ => if step.id in s.requests then Moved(s, step.id, MoveOf(env, s, step.id, step)) else s
  }

  function Execute(env: Environment, s: State, steps: seq<Step>): State {
    if steps == [] then s
    else Next(env, Execute(env, s, steps[..|steps| - 1]), steps[|steps| - 1])
  }

  // ---------------------------------------------------------------- one owner per record

  predicate Pending(s: State, id: nat) { id in s.effects && s.effects[id] != Dead }

  /** The write's outcome is decided and keeps its key: it succeeded, or nobody knows. */
  predicate Decided(stage: Stage) {
    stage.Delivering? || stage == Done(Success) || stage == Done(ResultTooLarge) || stage == Done(UnknownOutcome)
  }

  /**
   The request answers for its key: its record is unsettled, its write may have been or be applied, or it is decided.
   */
  predicate Holds(s: State, id: nat) {
    id in s.requests && s.requests[id].Keyed()
      && (s.requests[id].Settling() || Pending(s, id) || Decided(s.requests[id].stage))
  }

  /** The states a request's record may be in; one whose settlement got lost is still in flight. */
  predicate FiledAs(stage: Stage, state: RecordState) {
    if stage.Ready? || stage.Dispatched? || stage.Reporting? then state == InFlight
    else if stage == Done(UnknownOutcome) then state == Unknown || state == InFlight
    else if Decided(stage) then state == Succeeded || state == InFlight
    else true
  }

  /** Stages that promise the write was not applied: about to release the key, or reported as cancelled. */
  predicate Harmless(stage: Stage) {
    || stage == Done(Cancelled)
    || (stage.Reporting? && (stage.finish == FinishRelease || stage.category == Cancelled))
  }

  predicate AfterDispatch(stage: Stage) {
    stage.Dispatched? || stage.Reporting? || stage.Delivering? || stage.Done? || stage.Crashed?
  }

  /** How a record is to be settled goes with what the caller will be told. */
  predicate Matched(stage: Stage) {
    stage.Reporting? ==>
      match stage.finish
      case FinishSucceeded => stage.category == Success
      case FinishUnknown => stage.category == UnknownOutcome
      case FinishRelease => !Decided(Done(stage.category))
  }

  /** What holds of one request: its record is on file while it holds, and effects start at dispatch. */
  ghost predicate Sound(s: State, id: nat) {
    && (Holds(s, id) ==>
          && s.requests[id].Slot() in s.records && s.records[s.requests[id].Slot()].hash == s.requests[id].hash
          && FiledAs(s.requests[id].stage, s.records[s.requests[id].Slot()].state))
    && (id in s.effects ==>
          id in s.requests && AfterDispatch(s.requests[id].stage))
    && (id in s.requests && s.requests[id].stage.Dispatched? ==> Pending(s, id))
    && (id in s.requests ==> Matched(s.requests[id].stage))
    && (id in s.requests && WriteAction(s.requests[id].op) && Harmless(s.requests[id].stage) ==> !Pending(s, id))
  }

  ghost predicate OneOwner(s: State) {
    forall a, b :: Holds(s, a) && Holds(s, b) && a != b ==> s.requests[a].Slot() != s.requests[b].Slot()
  }

  ghost predicate Inv(s: State) { (forall id :: Sound(s, id)) && OneOwner(s) }

  /** A step of one request leaves the other requests and their effects alone. */
  ghost predicate Frame(s: State, t: State, id: nat) {
    && (forall x :: x != id ==>
         (x in s.requests <==> x in t.requests) && (x in s.requests ==> s.requests[x] == t.requests[x]))
    && (forall x :: x != id ==>
         (x in s.effects <==> x in t.effects) && (x in s.effects ==> s.effects[x] == t.effects[x]))
  }

  /** The records of other holders are left alone. */
  ghost predicate RecordsKept(s: State, t: State, id: nat) {
    forall x :: x != id && Holds(s, x) && s.requests[x].Slot() in s.records ==>
      s.requests[x].Slot() in t.records && t.records[s.requests[x].Slot()] == s.records[s.requests[x].Slot()]
  }

  lemma StepKeepsInv(s: State, t: State, id: nat)
    requires Inv(s) && Frame(s, t, id) && RecordsKept(s, t, id) && Sound(t, id)
    requires Holds(t, id) ==> forall x :: x != id && Holds(s, x) ==> s.requests[x].Slot() != t.requests[id].Slot()
    ensures Inv(t)
  {
    forall x ensures Sound(t, x) { assert Sound(s, x); }
    forall a, b | Holds(t, a) && Holds(t, b) && a != b ensures t.requests[a].Slot() != t.requests[b].Slot() {
      if a != id && b != id { assert Holds(s, a) && Holds(s, b); }
      else if a == id { assert Holds(s, b); }
      else { assert Holds(s, a); }
    }
  }

  /**
   A move touches only its own record: it takes a free one, or changes or removes one it holds;
   and it comes to hold a key only by taking a free record.
   */
  ghost predicate OwnRecordOnly(s: State, id: nat, m: Move)
    requires id in s.requests
  {
    var r, t := s.requests[id], Moved(s, id, m);
    && (Holds(t, id) ==> Holds(s, id) || r.Slot() !in s.records)
    && (m.records != s.records ==>
          && r.Keyed()
          && (Holds(s, id) || r.Slot() !in s.records)
          && (m.records == s.records - {r.Slot()}
            || (r.Slot() in m.records && m.records[r.Slot()].hash == r.hash
              && m.records == s.records[r.Slot() := m.records[r.Slot()]])))
  }

  ghost predicate Legal(s: State, id: nat, m: Move)
    requires id in s.requests
  {
    Sound(Moved(s, id, m), id) && OwnRecordOnly(s, id, m)
  }

  /** Moves that leave the records alone and do not begin to hold a key. */
  lemma PlainMoveIsLegal(s: State, id: nat, m: Move)
    requires id in s.requests && Sound(s, id) && m.records == s.records
    requires var t := Moved(s, id, m);
      && (Holds(t, id) ==> Holds(s, id) && forall state :: FiledAs(s.requests[id].stage, state) ==>
        FiledAs(m.stage, state))
      && Matched(m.stage)
      && (id in t.effects ==> AfterDispatch(m.stage))
      && (m.stage.Dispatched? ==> Pending(t, id))
      && (WriteAction(s.requests[id].op) && Harmless(m.stage) ==> !Pending(t, id))
    ensures Legal(s, id, m)
  {}

  predicate Early(stage: Stage) {
    stage.Admitted? || stage.Cleared? || stage.Active? || stage.Checked? || stage.Granted?
  }

  lemma EarlyMoveIsLegal(s: State, id: nat, m: Move)
    requires id in s.requests && Sound(s, id) && Early(s.requests[id].stage)
    requires m.records == s.records && m.effect.None?
    requires Early(m.stage) || (m.stage.Done? && !Decided(m.stage))
    ensures Legal(s, id, m)
  {
    PlainMoveIsLegal(s, id, m);
  }

  lemma ReserveIsLegal(s: State, id: nat, storeFails: bool, committed: bool)
    requires id in s.requests && Sound(s, id) && s.requests[id].stage.Granted?
    ensures Legal(s, id, ReserveMove(s, s.requests[id], storeFails, committed))
  {}

  lemma SettleIsLegal(s: State, id: nat, lost: bool)
    requires id in s.requests && Sound(s, id) && s.requests[id].stage.Reporting?
    ensures Legal(s, id, SettleMove(s, s.requests[id], lost))
  {
    WritePredicatesAgree(s.requests[id].op);
  }

  lemma AnswerIsLegal(env: Environment, s: State, id: nat, answer: ConnectorAnswer)
    requires env.honest && id in s.requests && Sound(s, id) && s.requests[id].stage.Dispatched? && id in s.effects
    ensures Legal(s, id, AnswerMove(env, s, s.requests[id], s.effects[id], answer))
  {
    PlainMoveIsLegal(s, id, AnswerMove(env, s, s.requests[id], s.effects[id], answer));
  }

  lemma MoveIsLegal(env: Environment, s: State, id: nat, step: Step)
    requires env.honest && id in s.requests && Sound(s, id)
    requires !step.Tick? && !step.Arrive? && !step.RequestCancel?
    ensures Legal(s, id, MoveOf(env, s, id, step))
  {
    var r := s.requests[id];
    var m := MoveOf(env, s, id, step);
    if m == To(s, r.stage) {
      PlainMoveIsLegal(s, id, m);
      return;
    }
    match step
    case ReserveKey(_, storeFails, committed) => ReserveIsLegal(s, id, storeFails, committed);
    case Answer(_, answer) => AnswerIsLegal(env, s, id, answer);
    case SettleRecord(_, lost) => SettleIsLegal(s, id, lost);
    case Crash(_) => PlainMoveIsLegal(s, id, To(s, Crashed));
    case Authorize(_) => EarlyStepIsLegal(env, s, id, step);
    case Activate(_) => EarlyStepIsLegal(env, s, id, step);
    case CheckToken(_) => EarlyStepIsLegal(env, s, id, step);
    case SpendGrant(_, _, _) => EarlyStepIsLegal(env, s, id, step);
    case _ => PlainMoveIsLegal(s, id, m);
  }

  lemma EarlyStepIsLegal(env: Environment, s: State, id: nat, step: Step)
    requires id in s.requests && Sound(s, id) && MoveOf(env, s, id, step) != To(s, s.requests[id].stage)
    requires step.Authorize? || step.Activate? || step.CheckToken? || step.SpendGrant?
    ensures Legal(s, id, MoveOf(env, s, id, step))
  {
    EarlyMoveIsLegal(s, id, MoveOf(env, s, id, step));
  }

  lemma MoveKeepsInv(s: State, id: nat, m: Move)
    requires Inv(s) && id in s.requests && Legal(s, id, m)
    ensures Inv(Moved(s, id, m))
  {
    var r, t := s.requests[id], Moved(s, id, m);
    forall x | x != id && Holds(s, x) ensures s.requests[x].Slot() in s.records { assert Sound(s, x); }
    assert m.records != s.records ==> forall x :: x != id && Holds(s, x) ==> s.requests[x].Slot() != r.Slot();
    StepKeepsInv(s, t, id);
  }

  lemma ArriveKeepsInv(s: State, id: nat, r: Request)
    requires Inv(s) && id !in s.requests && r.stage == Admitted
    ensures Inv(s.(requests := s.requests[id := r]))
  {
    assert Sound(s, id);
    StepKeepsInv(s, s.(requests := s.requests[id := r]), id);
  }

  lemma CancelKeepsInv(s: State, id: nat)
    requires Inv(s) && id in s.requests
    ensures Inv(s.(requests := s.requests[id := s.requests[id].(cancelRequested := true)]))
  {
    assert Sound(s, id);
    StepKeepsInv(s, s.(requests := s.requests[id := s.requests[id].(cancelRequested := true)]), id);
  }

  lemma InvKept(env: Environment, s: State, step: Step)
    requires env.honest && Inv(s)
    ensures Inv(Next(env, s, step))
  {
    match step
    case Tick => StepKeepsInv(s, s.(now := s.now + 1), 0) by { assert Sound(s, 0); }
    case Arrive(id, op, connection, hash, grant, context) =>
      if id !in s.requests { ArriveKeepsInv(s, id, Request(op, connection, hash, grant, context, false, Admitted)); }
    case RequestCancel(id) => if id in s.requests { CancelKeepsInv(s, id); }
    case _ =>
      if step.id in s.requests {
        assert Sound(s, step.id);
        MoveIsLegal(env, s, step.id, step);
        MoveKeepsInv(s, step.id, MoveOf(env, s, step.id, step));
      }
  }

  lemma {:induction false} InvAlways(env: Environment, steps: seq<Step>)
    requires env.honest
    ensures Inv(Execute(env, INITIAL, steps))
  {
    if steps != [] {
      InvAlways(env, steps[..|steps| - 1]);
      InvKept(env, Execute(env, INITIAL, steps[..|steps| - 1]), steps[|steps| - 1]);
    }
  }

  /** The write of this request has been applied to the database. */
  predicate Applied(s: State, id: nat) { id in s.effects && s.effects[id] == Fired }

  /** At most once: two requests under one connection and idempotency key are never both applied. */
  lemma AtMostOnce(env: Environment, steps: seq<Step>, a: nat, b: nat)
    requires env.honest
    requires var s := Execute(env, INITIAL, steps);
      && Applied(s, a) && Applied(s, b) && a in s.requests && b in s.requests
      && WriteKey(s.requests[a].op).Some? && WriteKey(s.requests[b].op) == WriteKey(s.requests[a].op)
      && s.requests[a].connection == s.requests[b].connection
    ensures a == b
  {
    InvAlways(env, steps);
    var s := Execute(env, INITIAL, steps);
    assert Holds(s, a) && Holds(s, b);
  }

  /** The record was made by a write of this connection with this key and hash. */
  predicate MadeBy(r: Request, slot: Slot, hash: string) {
    WriteAction(r.op) && r.connection == slot.connection && WriteKey(r.op) == Some(slot.key) && r.hash == hash
  }

  ghost predicate RecordsExplained(s: State) {
    forall slot :: slot in s.records ==>
      exists id :: id in s.requests && MadeBy(s.requests[id], slot, s.records[slot].hash)
  }

  /** A step adds a record only for its own request. */
  lemma RecordsAdded(env: Environment, s: State, id: nat, step: Step, slot: Slot)
    requires id in s.requests && slot in MoveOf(env, s, id, step).records
    ensures var hash := MoveOf(env, s, id, step).records[slot].hash;
      (slot in s.records && s.records[slot].hash == hash) || MadeBy(s.requests[id], slot, hash)
  {
  }

  /** A request stays what it was asked to be. */
  lemma RequestsStay(env: Environment, s: State, step: Step, id: nat)
    requires id in s.requests
    ensures id in Next(env, s, step).requests
    ensures var before, after := s.requests[id], Next(env, s, step).requests[id];
      after.op == before.op && after.connection == before.connection && after.hash == before.hash
  {
  }

  /** Over all runs a key is taken only by a write of the same connection that carries it, with its own hash. */
  lemma {:induction false} RecordsBelongToRequests(env: Environment, steps: seq<Step>)
    ensures RecordsExplained(Execute(env, INITIAL, steps))
  {
    if steps != [] {
      RecordsBelongToRequests(env, steps[..|steps| - 1]);
      var s, step := Execute(env, INITIAL, steps[..|steps| - 1]), steps[|steps| - 1];
      var t := Next(env, s, step);
      forall slot | slot in t.records
        ensures exists id :: id in t.requests && MadeBy(t.requests[id], slot, t.records[slot].hash)
      {
        var id := MakerOf(env, s, step, slot);
        RequestsStay(env, s, step, id);
        assert MadeBy(t.requests[id], slot, t.records[slot].hash);
      }
    }
  }

  lemma MakerOf(env: Environment, s: State, step: Step, slot: Slot) returns (id: nat)
    requires RecordsExplained(s) && slot in Next(env, s, step).records
    ensures id in s.requests && MadeBy(s.requests[id], slot, Next(env, s, step).records[slot].hash)
  {
    if !step.Tick? && !step.Arrive? && !step.RequestCancel? && step.id in s.requests {
      RecordsAdded(env, s, step.id, step, slot);
    }
    var hash := Next(env, s, step).records[slot].hash;
    if slot in s.records && s.records[slot].hash == hash {
      id :| id in s.requests && MadeBy(s.requests[id], slot, hash);
    } else {
      id := step.id;
    }
  }

  /**
   What the record says of a finished write, however state updates were lost: unknown or still in flight after an
   unknown outcome, never succeeded; succeeded or still in flight after a success.
   */
  lemma RecordTellsOutcome(env: Environment, steps: seq<Step>, id: nat)
    requires env.honest
    requires var s := Execute(env, INITIAL, steps);
      id in s.requests && s.requests[id].Keyed() && Decided(s.requests[id].stage)
    ensures var s := Execute(env, INITIAL, steps);
      var r := s.requests[id];
      && r.Slot() in s.records && s.records[r.Slot()].hash == r.hash
      && (r.stage == Done(UnknownOutcome) ==> s.records[r.Slot()].state != Succeeded)
      && (r.stage != Done(UnknownOutcome) ==> s.records[r.Slot()].state != Unknown)
  {
    InvAlways(env, steps);
    assert Sound(Execute(env, INITIAL, steps), id);
  }

  /** A settlement that is not lost files exactly the outcome: succeeded, unknown, or a free key. */
  lemma SettlementFilesOutcome(env: Environment, steps: seq<Step>, id: nat)
    requires env.honest
    requires var s := Execute(env, INITIAL, steps);
      id in s.requests && s.requests[id].Keyed() && s.requests[id].stage.Reporting?
    ensures var s := Execute(env, INITIAL, steps);
      var r, t := s.requests[id], Next(env, s, SettleRecord(id, false));
      && (r.stage.category == Success ==> r.Slot() in t.records && t.records[r.Slot()] == Record(r.hash, Succeeded))
      && (r.stage.category == UnknownOutcome ==>
        r.Slot() in t.records && t.records[r.Slot()] == Record(r.hash, Unknown))
      && (r.stage.category != Success && r.stage.category != UnknownOutcome ==> r.Slot() !in t.records)
  {
    InvAlways(env, steps);
    assert Sound(Execute(env, INITIAL, steps), id);
  }

  /**
   A key whose write succeeded or has an unknown outcome stays taken: no other request is ever executed under it
   again.
   */
  lemma DecidedKeyStaysTaken(env: Environment, steps: seq<Step>, id: nat, other: nat)
    requires env.honest && id != other
    requires var s := Execute(env, INITIAL, steps);
      && id in s.requests && s.requests[id].Keyed() && Decided(s.requests[id].stage)
      && other in s.requests && s.requests[other].Keyed() && s.requests[other].Slot() == s.requests[id].Slot()
    ensures var s := Execute(env, INITIAL, steps); !s.requests[other].Settling() && !Pending(s, other)
  {
    InvAlways(env, steps);
    var s := Execute(env, INITIAL, steps);
    assert Holds(s, id);
    assert Holds(s, other) ==> false;
  }

  /** A taken key is a conflict, a failing store an internal error, and neither goes on. */
  lemma TakenKeyIsConflict(env: Environment, s: State, id: nat, storeFails: bool, committed: bool)
    requires id in s.requests && s.requests[id].Keyed() && s.requests[id].stage.Granted?
    ensures var stage := Next(env, s, ReserveKey(id, storeFails, committed)).requests[id].stage;
      && (storeFails ==> stage == Done(Internal))
      && (!storeFails ==> stage == (if s.requests[id].Slot() in s.records then Done(Conflict) else Ready))
  {
  }

  /** A write goes on only with a grant that verifies; without one it is denied. */
  lemma AuthorizationDecides(env: Environment, s: State, id: nat)
    requires id in s.requests && s.requests[id].stage.Admitted?
    ensures var r := s.requests[id];
      var permitted := !WriteAction(r.op) || (r.grant.Some? &&
        Verify(env.verifier, r.grant.value, r.context.(connection := r.connection), s.now).Verified?);
      Next(env, s, Authorize(id)).requests[id].stage == if permitted then Cleared else Done(PermissionDenied)
  {
  }

  /** Only an unexpired grant that nobody spent lets a write go on; a failing store stops it, spent or not. */
  lemma SpendingDecides(env: Environment, s: State, id: nat, storeFails: bool, committed: bool)
    requires id in s.requests && s.requests[id].stage.Checked?
    ensures var r, t := s.requests[id], Next(env, s, SpendGrant(id, storeFails, committed));
      var key := ReplayKey(env.verifier.identity, if r.grant.Some? then r.grant.value.claims.nonce else "");
      && (!WriteAction(r.op) ==> t.requests[id].stage == Granted && t.nonces == s.nonces)
      && (WriteAction(r.op) && r.grant.None? ==> t.requests[id].stage == Done(PermissionDenied))
      && (WriteAction(r.op) && r.grant.Some? && storeFails ==> t.requests[id].stage == Done(Internal))
      && (WriteAction(r.op) && r.grant.Some? && !storeFails ==>
           var unspent := r.grant.value.claims.expiresAt > s.now && !(key in s.nonces && s.nonces[key] > s.now);
           t.requests[id].stage == if unspent then Granted else Done(PermissionDenied))
  {
  }

  /** The runtime stops waiting: of a write nobody knows the outcome, a read was timed out or cancelled. */
  lemma StoppedWaiting(env: Environment, s: State, id: nat)
    requires id in s.requests && id in s.effects && s.requests[id].stage.Dispatched?
    ensures var write, unknown := WriteAction(s.requests[id].op), Reporting(FinishUnknown, UnknownOutcome);
      var timedOut, cancelled := Next(env, s, Answer(id, AnswerTimeout)), Next(env, s, Answer(id, AnswerCancelled));
      && timedOut.requests[id].stage == (if write then unknown else Done(Timeout))
      && (s.requests[id].cancelRequested ==>
           cancelled.requests[id].stage == if write then unknown else Reporting(FinishRelease, Cancelled))
  {
  }

  /** What the connector's own answer is taken for, by an honest connector or not. */
  lemma AnswerDecides(env: Environment, s: State, id: nat, category: Category)
    requires id in s.requests && id in s.effects && s.requests[id].stage.Dispatched?
    requires category != Success && category != ResultTooLarge && (!env.honest || s.effects[id] != Fired)
    ensures Next(env, s, Answer(id, AnswerOk)).requests[id].stage == Reporting(FinishSucceeded, Success)
    ensures Next(env, s, Answer(id, AnswerUnknown)).requests[id].stage == Reporting(FinishUnknown, UnknownOutcome)
    ensures Next(env, s, Answer(id, AnswerError(category))).requests[id].stage ==
      Reporting(if category == UnknownOutcome then FinishUnknown else FinishRelease, category)
  {
  }

  /** What a request came to is never changed again. */
  lemma {:induction false} OverForGood(env: Environment, s: State, id: nat, more: seq<Step>)
    requires id in s.requests && (s.requests[id].stage.Done? || s.requests[id].stage.Crashed?)
    ensures id in Execute(env, s, more).requests && Execute(env, s, more).requests[id] == s.requests[id]
  {
    if more != [] {
      OverForGood(env, s, id, more[..|more| - 1]);
      OverStays(env, Execute(env, s, more[..|more| - 1]), id, more[|more| - 1]);
    }
  }

  lemma OverStays(env: Environment, s: State, id: nat, step: Step)
    requires id in s.requests && (s.requests[id].stage.Done? || s.requests[id].stage.Crashed?)
    ensures id in Next(env, s, step).requests && Next(env, s, step).requests[id] == s.requests[id]
  {
  }

  /** Where a cancellation stops a request that was not dispatched. */
  lemma CancelStopsBeforeDispatch(env: Environment, s: State, id: nat)
    requires id in s.requests && !s.requests[id].Over()
    ensures var t := Next(env, s, RequestCancel(id));
      && t.requests[id] == s.requests[id].(cancelRequested := true)
      && (s.requests[id].stage.Cleared? ==> Next(env, t, Activate(id)).requests[id].stage == Done(Cancelled))
      && (s.requests[id].stage.Active? ==> Next(env, t, CheckToken(id)).requests[id].stage == Done(Cancelled))
      && (s.requests[id].stage.Ready? ==>
        Next(env, t, Start(id)).requests[id].stage == Reporting(FinishRelease, Cancelled))
  {
  }

  // ---------------------------------------------------------------- a write that nothing gets in the way of

  /** Its grant verifies and is unspent, its key is free, and nobody asked to cancel it. */
  predicate Unhindered(env: Environment, s: State, id: nat) {
    && id in s.requests && s.requests[id].stage.Admitted? && !s.requests[id].cancelRequested && id !in s.effects
    && WriteAction(s.requests[id].op) && s.requests[id].grant.Some?
    && Verify(env.verifier, s.requests[id].grant.value, s.requests[id].Confirmable(), s.now).Verified?
    && SpendableOf(env, s.requests[id]).key !in s.nonces
    && (s.requests[id].Keyed() ==> s.requests[id].Slot() !in s.records)
  }

  predicate OnlyMoved(t: State, s: State, id: nat, stage: Stage)
    requires id in s.requests
  {
    t == s.(requests := s.requests[id := s.requests[id].(stage := stage)])
  }

  lemma UpToTheGrant(env: Environment, s: State, id: nat) returns (t: State)
    requires Unhindered(env, s, id)
    ensures t == Execute(env, s, [Authorize(id), Activate(id), CheckToken(id)])
    ensures OnlyMoved(t, s, id, Checked)
  {
    var cleared := Next(env, s, Authorize(id));
    assert OnlyMoved(cleared, s, id, Cleared);
    var active := Next(env, cleared, Activate(id));
    assert OnlyMoved(active, s, id, Active);
    t := Next(env, active, CheckToken(id));
    ThreeSteps(env, s, Authorize(id), Activate(id), CheckToken(id));
  }

  /** Granted, reserved and dispatched. */
  predicate Underway(t: State, r: Request, id: nat) {
    && id in t.requests && t.requests[id] == r.(stage := Dispatched) && id in t.effects && t.effects[id] == Live
    && (r.Keyed() ==> r.Slot() in t.records && t.records[r.Slot()] == Record(r.hash, InFlight))
  }

  lemma UpToDispatch(env: Environment, s: State, id: nat, r: Request) returns (t: State)
    requires id in s.requests && s.requests[id] == r.(stage := Checked) && !r.cancelRequested && WriteAction(r.op)
    requires r.grant.Some? && r.grant.value.claims.expiresAt > s.now && SpendableOf(env, r).key !in s.nonces
    requires r.Keyed() ==> r.Slot() !in s.records
    ensures t == Execute(env, s, [SpendGrant(id, false, true), ReserveKey(id, false, true), Start(id)])
    ensures Underway(t, r, id)
  {
    var granted := Next(env, s, SpendGrant(id, false, true));
    assert granted.requests[id] == r.(stage := Granted) && granted.records == s.records;
    var ready := Next(env, granted, ReserveKey(id, false, true));
    assert ready.requests[id] == r.(stage := Ready);
    t := Next(env, ready, Start(id));
    ThreeSteps(env, s, SpendGrant(id, false, true), ReserveKey(id, false, true), Start(id));
  }

  lemma UpToTheAnswer(env: Environment, s: State, id: nat, r: Request) returns (t: State)
    requires Underway(s, r, id)
    ensures t == Next(env, Next(env, s, ReachDatabase(id)), Answer(id, AnswerOk))
    ensures id in t.requests && t.requests[id] == r.(stage := Reporting(FinishSucceeded, Success)) && Applied(t, id)
    ensures t.records == s.records
  {
    var applied := Next(env, s, ReachDatabase(id));
    assert applied.requests[id] == r.(stage := Dispatched) && Applied(applied, id) && applied.records == s.records;
    t := Next(env, applied, Answer(id, AnswerOk));
  }

  lemma UpToTheResult(env: Environment, s: State, id: nat, r: Request) returns (t: State)
    requires id in s.requests && s.requests[id] == r.(stage := Reporting(FinishSucceeded, Success)) && Applied(s, id)
    requires r.Keyed() ==> r.Slot() in s.records && s.records[r.Slot()] == Record(r.hash, InFlight)
    ensures t == Next(env, Next(env, s, SettleRecord(id, false)), CheckResult(id, true))
    ensures id in t.requests && t.requests[id] == r.(stage := Done(Success)) && Applied(t, id)
    ensures r.Keyed() ==> r.Slot() in t.records && t.records[r.Slot()] == Record(r.hash, Succeeded)
  {
    var settled := Next(env, s, SettleRecord(id, false));
    assert settled.requests[id] == r.(stage := Delivering) && Applied(settled, id);
    t := Next(env, settled, CheckResult(id, true));
  }

  /** From any state on: a write that nothing gets in the way of succeeds, is applied, and its key says so. */
  lemma UnhinderedWriteSucceeds(env: Environment, s: State, id: nat) returns (t: State, steps: seq<Step>)
    requires Unhindered(env, s, id)
    ensures t == Execute(env, s, steps)
    ensures id in t.requests && t.requests[id] == s.requests[id].(stage := Done(Success)) && Applied(t, id)
    ensures s.requests[id].Keyed() ==>
      && s.requests[id].Slot() in t.records
      && t.records[s.requests[id].Slot()] == Record(s.requests[id].hash, Succeeded)
  {
    var r := s.requests[id];
    VerifiedIff(env.verifier, r.grant.value, r.Confirmable(), s.now);
    var first := [Authorize(id), Activate(id), CheckToken(id)];
    var second := [SpendGrant(id, false, true), ReserveKey(id, false, true), Start(id)];
    var third := [ReachDatabase(id), Answer(id, AnswerOk), SettleRecord(id, false)];
    var checked := UpToTheGrant(env, s, id);
    var underway := UpToDispatch(env, checked, id, r);
    var answered := UpToTheAnswer(env, underway, id, r);
    t := UpToTheResult(env, answered, id, r);
    ThreeSteps(env, underway, ReachDatabase(id), Answer(id, AnswerOk), SettleRecord(id, false));
    ExecuteAppends(env, s, first, second);
    ExecuteAppends(env, s, first + second, third);
    steps := first + second + third + [CheckResult(id, true)];
    assert steps[..9] == first + second + third;
  }

  lemma ThreeSteps(env: Environment, s: State, a: Step, b: Step, c: Step)
    ensures Execute(env, s, [a, b, c]) == Next(env, Next(env, Next(env, s, a), b), c)
  {
    assert [a, b, c][..2] == [a, b] && [a, b][..1] == [a] && [a][..0] == [];
    assert Execute(env, s, [a]) == Next(env, s, a);
    assert Execute(env, s, [a, b]) == Next(env, Execute(env, s, [a]), b);
  }

  lemma {:induction false} ExecuteAppends(env: Environment, s: State, a: seq<Step>, b: seq<Step>)
    ensures Execute(env, s, a + b) == Execute(env, Execute(env, s, a), b)
  {
    if b == [] {
      assert a + b == a;
    } else {
      assert (a + b)[..|a + b| - 1] == a + b[..|b| - 1];
      ExecuteAppends(env, s, a, b[..|b| - 1]);
    }
  }

  /** A write reported as cancelled was not applied, and never will be: nothing of it is pending. */
  lemma CancelledMeansNotApplied(env: Environment, steps: seq<Step>, id: nat)
    requires env.honest
    requires var s := Execute(env, INITIAL, steps);
      id in s.requests && s.requests[id].stage == Done(Cancelled) && WriteAction(s.requests[id].op)
    ensures var s := Execute(env, INITIAL, steps); !Applied(s, id) && !Pending(s, id)
  {
    InvAlways(env, steps);
    assert Sound(Execute(env, INITIAL, steps), id);
  }
}

/**
 Calls from the supervisor to connector workers: cancellation barrier, worker replacement and the
 retry of reads, as a step system over any number of calls and worker generations.

 A message handed to a worker may be delivered late, in any order, or never, and a failed call's
 message may still be running in a worker that has been replaced.
 */
module CancelProtocol {
  import opened Options
  import opened WorkerLifecycle
  import Operations

  const TOMBSTONE_CAPACITY: nat := 4_096
  const GENERATION_LIMIT: nat := 0xFFFF_FFFF_FFFF_FFFF

  // ---------------------------------------------------------------- the supervisor's tombstones

  type Tombstones = map<RequestId, nat>   // when each recorded cancellation expires

  function Unexpired(tombs: Tombstones, now: nat): Tombstones {
    map id | id in tombs && tombs[id] > now :: tombs[id]
  }

  ghost predicate Oldest(tombs: Tombstones, id: RequestId) {
    id in tombs && forall other :: other in tombs ==> tombs[id] <= tombs[other]
  }

  /** Room for one more: at capacity the given entry makes way. */
  function Roomy(tombs: Tombstones, id: RequestId, victim: RequestId): Tombstones {
    if id in tombs || |tombs| < TOMBSTONE_CAPACITY then tombs else tombs - {victim}
  }

  function Recorded(tombs: Tombstones, id: RequestId, now: nat, victim: RequestId): Tombstones {
    Roomy(Unexpired(tombs, now), id, victim)[id := now + CANCEL_TOMBSTONE_TTL]
  }

  class CancellationTombstones {
    var expiresAt: Tombstones

    constructor ()
      ensures expiresAt == map[]
    {
      expiresAt := map[];
    }

    method Record(id: RequestId, now: nat) returns (victim: RequestId)
      requires |expiresAt| <= TOMBSTONE_CAPACITY
      modifies this
      ensures expiresAt == Recorded(old(expiresAt), id, now, victim)
      ensures |expiresAt| <= TOMBSTONE_CAPACITY
      ensures var live := Unexpired(old(expiresAt), now);
        id !in live && |live| >= TOMBSTONE_CAPACITY ==> Oldest(live, victim)
      // for the next five minutes the id is barred, and so are those still barred, except at most one
      ensures id in expiresAt && expiresAt[id] == now + 300_000
      ensures forall other :: other in expiresAt && other != id ==>
        other in old(expiresAt) && expiresAt[other] == old(expiresAt)[other] > now
      ensures forall other :: other in old(expiresAt) && old(expiresAt)[other] > now && other !in expiresAt ==>
        other == victim && |expiresAt| == 4_096
    {
      victim := id;
      Shrinks(expiresAt, now);
      expiresAt := Unexpired(expiresAt, now);
      if id !in expiresAt && |expiresAt| >= TOMBSTONE_CAPACITY {
        victim := FindOldest(expiresAt);
        expiresAt := expiresAt - {victim};
      }
      SizeAfterRecord(Unexpired(old(expiresAt), now), id, victim, now);
      expiresAt := expiresAt[id := now + CANCEL_TOMBSTONE_TTL];
    }

    method Contains(id: RequestId, now: nat) returns (found: bool)
      modifies this
      ensures expiresAt == Unexpired(old(expiresAt), now)
      ensures found <==> id in old(expiresAt) && old(expiresAt)[id] > now
      ensures forall other :: other in expiresAt <==> other in old(expiresAt) && old(expiresAt)[other] > now
      ensures forall other :: other in expiresAt ==> expiresAt[other] == old(expiresAt)[other]
    {
      expiresAt := Unexpired(expiresAt, now);
      found := id in expiresAt;
    }
  }

  lemma Shrinks(tombs: Tombstones, now: nat)
    ensures |Unexpired(tombs, now)| <= |tombs|
  {
    var live := Unexpired(tombs, now);
    assert live.Keys <= tombs.Keys;
    SubsetIsSmaller(live.Keys, tombs.Keys);
  }

  lemma SizeAfterRecord(live: Tombstones, id: RequestId, victim: RequestId, now: nat)
    requires |live| <= TOMBSTONE_CAPACITY
    requires id !in live && |live| >= TOMBSTONE_CAPACITY ==> victim in live
    ensures |Roomy(live, id, victim)[id := now]| <= TOMBSTONE_CAPACITY
  {
    var room := Roomy(live, id, victim);
    assert room[id := now].Keys == room.Keys + {id};
    assert room.Keys == live.Keys || room.Keys == live.Keys - {victim};
  }

  lemma {:induction false} SubsetIsSmaller<T>(a: set<T>, b: set<T>)
    requires a <= b
    ensures |a| <= |b|
  {
    if a != {} {
      var x :| x in a;
      SubsetIsSmaller(a - {x}, b - {x});
    }
  }

  method FindOldest(tombs: Tombstones) returns (oldest: RequestId)
    requires tombs != map[]
    ensures Oldest(tombs, oldest)
  {
    var pending := tombs.Keys;
    assert pending != {};
    oldest :| oldest in pending;
    while pending != {}
      invariant pending <= tombs.Keys && oldest in tombs
      invariant forall k :: k in tombs && k !in pending ==> tombs[oldest] <= tombs[k]
      decreases |pending|
    {
      var k :| k in pending;
      if tombs[k] < tombs[oldest] { oldest := k; }
      pending := pending - {k};
    }
  }

  // ---------------------------------------------------------------- calls

  /** What a data call asks for: connection tests and catalog reads, or the execution of an operation. */
  datatype Work = Metadata | Execution(op: Operations.Operation)

  datatype Kind =
    | Data(id: RequestId, work: Work, connection: nat)
    | CancelCall(target: RequestId)
  {
    predicate Executes() { Data? && work.Execution? }
    /** A write for the policy layer, and for each layer that looks at the call by itself. */
    predicate Write() { Executes() && Operations.WriteAction(work.op) }
    predicate SupervisorWrite() { Executes() && Operations.SupervisorSeesWrite(work.op) }
    predicate ProxyWrite() { Executes() && Operations.ProxySeesWrite(work.op) }
    predicate WorkerWrite() { Executes() && Operations.WorkerSeesWrite(work.op) }
  }

  lemma LayersAgree(kind: Kind)
    ensures kind.SupervisorWrite() == kind.ProxyWrite() == kind.WorkerWrite() == kind.Write()
  {
    if kind.Executes() { Operations.WritePredicatesAgree(kind.work.op); }
  }

  datatype Reply = ReplyOk | ReplyCancelled | ReplyUnknown | ReplyError

  /** History: who answered a call. */
  datatype Answer =
    | Unanswered
    | FromSupervisor                     // barred before it was given to a worker
    | FromWorker                         // refused or stopped before its adapter was reached
    | FromAdapter(reply: Reply)          // the adapter's own answer
    | Interrupted                        // the token ended the adapter's work
    | FromClient(serialization: bool)    // an error of the worker client

  /** How far the supervisor has taken a call; a client call is attempt 1, a retry is attempt 2. */
  datatype Phase =
    | Passed(generation: nat, attempt: nat)
    | Sent(generation: nat, attempt: nat)
    | Failed(generation: nat)
    | RecoveredWith(client: Option<nat>)
    | Replied(reply: Reply)

  /** Where the message of one attempt is; `handed`: the adapter's own code has started. */
  datatype Wire = Unsent | InPipe(generation: nat) | Running(generation: nat, handed: bool) | Over

  datatype Call = Call(
    kind: Kind, phase: Phase, sends: nat, first: Wire, second: Wire,
    handovers: nat,    // history: how often an adapter was given the call
    answer: Answer)
  {
    predicate Write() { kind.Write() }
    predicate Handed() { handovers > 0 }
    function WireOf(attempt: nat): Wire { if attempt == 1 then first else second }
    function WithWire(attempt: nat, wire: Wire): Call {
      if attempt == 1 then this.(first := wire) else this.(second := wire)
    }
    /** The attempt is over; its reply reaches the caller only while that attempt is being waited for. */
    function Ended(generation: nat, attempt: nat, reply: Reply, source: Answer): Call {
      var done := WithWire(attempt, Over);
      if phase == Sent(generation, attempt) then done.Answered(reply, source) else done
    }
    function Answered(reply: Reply, source: Answer): Call { this.(phase := Replied(reply), answer := source) }
    function ClientError(serialization: bool): Call {
      Answered(IpcReply(kind, serialization), FromClient(serialization))
    }
    function HandedOver(attempt: nat, generation: nat): Call {
      WithWire(attempt, Running(generation, true)).(handovers := handovers + 1)
    }
    function GivenToClient(): Call requires phase.Passed? {
      WithWire(phase.attempt, InPipe(phase.generation)).(phase := Sent(phase.generation, phase.attempt),
        sends := sends + 1)
    }
    function AfterFailure(): Call requires phase.Sent? {
      if phase.attempt == 1 then this.(phase := Failed(phase.generation)) else ClientError(false)
    }
    function AfterRecovery(client: Option<nat>): Call {
      if SafeToRetry(kind) then this.(phase := RecoveredWith(client)) else ClientError(false)
    }
    function AfterRetryCheck(barred: bool): Call requires phase.RecoveredWith? {
      if barred then Answered(ReplyCancelled, FromSupervisor)
      else if phase.client.Some? then this.(phase := Passed(phase.client.value, 2))
      else ClientError(false)
    }
  }

  predicate SafeToRetry(kind: Kind) { !kind.SupervisorWrite() }

  datatype State = State(
    now: nat,
    generation: nat,
    stopping: bool,
    tombs: Tombstones,
    calls: map<nat, Call>,
    workers: map<nat, Lifecycle>,
    recorded: map<RequestId, nat>,  // history: when each id was last cancelled
    evicted: set<RequestId>,        // history: ids whose latest cancellation made way at capacity
    replaced: seq<nat>)             // history: generations successfully replaced, in order

  const INITIAL := State(0, 0, false, map[], map[], map[], map[], {}, [])

  function Life(s: State, g: nat): Lifecycle { if g in s.workers then s.workers[g] else IDLE }

  predicate Barrier(s: State, kind: Kind) { kind.Data? && kind.id in s.tombs && s.tombs[kind.id] > s.now }

  /** A client error as the caller sees it: an interrupted write has an unknown outcome. */
  function IpcReply(kind: Kind, serialization: bool): Reply {
    if kind.ProxyWrite() && !serialization then ReplyUnknown else ReplyError
  }

  datatype Step =
    | Tick(elapsed: nat)
    | StartCall(c: nat, kind: Kind, victim: RequestId)
    | Send(c: nat)
    | Fail(c: nat)                                          // worker exited, stream or pipe failed
    | Garble(c: nat, serialization: bool)                   // any error that is not worth a restart
    | Recover(c: nat, launched: bool)
    | Retry(c: nat)
    | Restart(launched: bool)
    | Shutdown
    | Deliver(c: nat, attempt: nat, busy: bool)
    | Poll(c: nat, attempt: nat, raced: bool)
    | Complete(c: nat, attempt: nat, adapter: Reply, interrupted: bool)
    | Invalidate(generation: nat, connection: nat)

  function SaturatingNext(generation: nat): nat { if generation < GENERATION_LIMIT then generation + 1 else generation }

  function WithCall(s: State, c: nat, call: Call): State { s.(calls := s.calls[c := call]) }

  predicate Token(s: State, g: nat, id: RequestId) { id in Life(s, g).active && Life(s, g).active[id].cancelled }

  predicate Attempt(a: nat) { a == 1 || a == 2 }

  /** Is this step of a call possible now? */
  predicate Enabled(s: State, step: Step) {
    match step
    case StartCall(c, _, _) => c !in s.calls
    case Send(c) => c in s.calls && s.calls[c].phase.Passed?
    case Fail(c) => c in s.calls && s.calls[c].phase.Sent?
    case Garble(c, _) => c in s.calls && s.calls[c].phase.Sent?
    case Recover(c, _) => c in s.calls && s.calls[c].phase.Failed?
    case Retry(c) => c in s.calls && s.calls[c].phase.RecoveredWith?
    case Deliver(c, a, _) => c in s.calls && Attempt(a) && s.calls[c].WireOf(a).InPipe?
    case Poll(c, a, _) =>
      c in s.calls && Attempt(a) && s.calls[c].kind.Data? && s.calls[c].WireOf(a).Running?
        && !s.calls[c].WireOf(a).handed
    case Complete(c, a, _, interrupted) =>
      && c in s.calls && Attempt(a) && s.calls[c].kind.Data? && s.calls[c].WireOf(a).Running?
        && s.calls[c].WireOf(a).handed
      && (interrupted ==> Token(s, s.calls[c].WireOf(a).generation, s.calls[c].kind.id))
    case _ => false
  }

  /** The client a recovering call gets: only the first to report a generation replaces it. */
  function RecoveredClient(s: State, g: nat, launched: bool): Option<nat> {
    if s.stopping || (s.generation == g && !launched) then None
    else if s.generation != g then Some(s.generation)
    else Some(SaturatingNext(g))
  }

  /** A write that was handed over is never reported as merely cancelled. */
  function Normalized(kind: Kind, reply: Reply): Reply {
    if kind.WorkerWrite() && reply == ReplyCancelled then ReplyUnknown else reply
  }

  function StartedCall(s: State, kind: Kind): Call {
    var call := Call(kind, Passed(s.generation, 1), 0, Unsent, Unsent, 0, Unanswered);
    if s.stopping then call.ClientError(false)
    else if Barrier(s, kind) then call.Answered(ReplyCancelled, FromSupervisor)
    else call
  }

  /** What a worker makes of a delivered message. */
  function DeliveredCall(s: State, call: Call, g: nat, a: nat, busy: bool): Call {
    match call.kind
    case CancelCall(_) => call.Ended(g, a, ReplyOk, FromWorker)
    case Data(id, _, connection) =>
      match Begin(Life(s, g), id, connection, s.now).1
      case AlreadyActive => call.Ended(g, a, ReplyError, FromWorker)
      case Cancelled => call.Ended(g, a, ReplyCancelled, FromWorker)
      case Begun => if busy then call.Ended(g, a, ReplyError, FromWorker) else call.WithWire(a, Running(g, false))
  }

  /** The spawned task: a cancelled token stops it before the adapter; `raced` is the second look. */
  function PolledCall(s: State, call: Call, g: nat, a: nat, raced: bool): Call
    requires call.kind.Data?
  {
    if Token(s, g, call.kind.id)
    then call.Ended(g, a, if raced && call.kind.WorkerWrite() then ReplyUnknown else ReplyCancelled, FromWorker)
    else call.HandedOver(a, g)
  }

  /** The adapter's answer, or its interruption by the token. */
  function CompletedCall(call: Call, g: nat, a: nat, adapter: Reply, interrupted: bool): Call {
    if interrupted then call.Ended(g, a, Normalized(call.kind, ReplyCancelled), Interrupted)
    else call.Ended(g, a, Normalized(call.kind, adapter), FromAdapter(adapter))
  }

  function NewCall(s: State, step: Step): Call
    requires Enabled(s, step)
  {
    match step
    case StartCall(_, kind, _) => StartedCall(s, kind)
    case Send(c) => s.calls[c].GivenToClient()
    case Fail(c) => s.calls[c].AfterFailure()
    case Garble(c, serialization) => s.calls[c].ClientError(serialization)
    case Recover(c, launched) => s.calls[c].AfterRecovery(RecoveredClient(s, s.calls[c].phase.generation, launched))
    case Retry(c) => s.calls[c].AfterRetryCheck(Barrier(s, s.calls[c].kind))
    case Deliver(c, a, busy) => DeliveredCall(s, s.calls[c], s.calls[c].WireOf(a).generation, a, busy)
    case Poll(c, a, raced) => PolledCall(s, s.calls[c], s.calls[c].WireOf(a).generation, a, raced)
    case Complete(c, a, adapter, interrupted) =>
      CompletedCall(s.calls[c], s.calls[c].WireOf(a).generation, a, adapter, interrupted)
  }

  /** The supervisor's tombstones and their history after a call is started. */
  function TombstonesAfterStart(s: State, kind: Kind, victim: RequestId): State {
    if s.stopping then s
    else if kind.Data? then s.(tombs := Unexpired(s.tombs, s.now))
    else
      var live := Unexpired(s.tombs, s.now);
      var evicts := kind.target !in live && |live| >= TOMBSTONE_CAPACITY;
      s.(tombs := Recorded(s.tombs, kind.target, s.now, victim),
         recorded := s.recorded[kind.target := s.now],
         evicted := (if evicts then s.evicted + {victim} else s.evicted) - {kind.target})
  }

  function WorkerAfterDelivery(s: State, kind: Kind, g: nat, busy: bool): Lifecycle {
    match kind
    case CancelCall(target) => Cancel(Life(s, g), target, s.now)
    case Data(id, _, connection) =>
      var (life, result) := Begin(Life(s, g), id, connection, s.now);
      if result == Begun && busy then Finish(life, id, s.now) else life
  }

  function WithWorker(s: State, g: nat, life: Lifecycle): State { s.(workers := s.workers[g := life]) }

  function Replaced(s: State): State {
    s.(generation := SaturatingNext(s.generation), replaced := s.replaced + [s.generation])
  }

  /** Everything a step changes besides the call itself. */
  function Around(s: State, step: Step): State
    requires Enabled(s, step)
  {
    match step
    case StartCall(_, kind, victim) => TombstonesAfterStart(s, kind, victim)
    case Recover(c, launched) =>
      if !s.stopping && s.generation == s.calls[c].phase.generation && launched then Replaced(s) else s
    case Retry(c) => if s.calls[c].kind.Data? then s.(tombs := Unexpired(s.tombs, s.now)) else s
    case Deliver(c, a, busy) =>
      var g := s.calls[c].WireOf(a).generation;
      WithWorker(s, g, WorkerAfterDelivery(s, s.calls[c].kind, g, busy))
    case Poll(c, a, _) =>
      var g, id := s.calls[c].WireOf(a).generation, s.calls[c].kind.id;
      if Token(s, g, id) then WithWorker(s, g, Finish(Life(s, g), id, s.now)) else s
    case Complete(c, a, _, _) =>
      var g, id := s.calls[c].WireOf(a).generation, s.calls[c].kind.id;
      WithWorker(s, g, Finish(Life(s, g), id, s.now))
    case _ => s
  }

  /** One step; a step that is not possible in the current state changes nothing. */
  function Next(s: State, step: Step): State {
    match step
    case Tick(elapsed) => s.(now := s.now + elapsed)
    case Restart(launched) => if s.stopping || !launched then s else Replaced(s)
    case Shutdown => s.(stopping := true)
    case Invalidate(g, connection) => WithWorker(s, g, CancelConnection(Life(s, g), connection))
    case _ => if Enabled(s, step) then WithCall(Around(s, step), step.c, NewCall(s, step)) else s
  }

  function Execute(s: State, steps: seq<Step>): State {
    if steps == [] then s else Next(Execute(s, steps[..|steps| - 1]), steps[|steps| - 1])
  }

  // ---------------------------------------------------------------- sends and hand-over of each call

  /** Wires never name a generation that does not exist yet. */
  predicate Launched(wire: Wire, generation: nat) { wire.InPipe? || wire.Running? ==> wire.generation <= generation }

  predicate SendsFollowPhase(call: Call) {
    match call.phase
    case Passed(_, a) => (a == 1 && call.sends == 0 && call.first == Unsent)
      || (a == 2 && call.sends == 1 && SafeToRetry(call.kind))
    case Sent(_, a) => (a == 1 && call.sends == 1) || (a == 2 && call.sends == 2 && SafeToRetry(call.kind))
    case Failed(_) => call.sends == 1
    case RecoveredWith(_) => call.sends == 1 && SafeToRetry(call.kind)
    case Replied(_) => call.sends <= (if SafeToRetry(call.kind) then 2 else 1)
  }

  predicate CallInv(call: Call, generation: nat) {
    && SendsFollowPhase(call)
    && Launched(call.first, generation) && Launched(call.second, generation)
    && (call.phase.Passed? || call.phase.Sent? || call.phase.Failed? ==> call.phase.generation <= generation)
    && (call.phase.RecoveredWith? && call.phase.client.Some? ==> call.phase.client.value <= generation)
    && (call.sends < 2 ==> call.second == Unsent)
    && (call.Write() ==> WriteInv(call))
    && (!call.Write() && call.phase.Replied? ==> PlainlyExplained(call.answer, call.phase.reply))
  }

  /** A write's adapter is given the call once at most, and its answer follows from who gave it. */
  predicate WriteInv(call: Call) {
    && call.handovers <= 1
    && (call.first == Unsent || call.first.InPipe? || (call.first.Running? && !call.first.handed) ==> !call.Handed())
    && (call.phase.Replied? ==> Explained(call, call.phase.reply))
  }

  /** The answer of a call that is no write: nothing about it is ever unknown, unless its adapter says so. */
  predicate PlainlyExplained(answer: Answer, reply: Reply) {
    match answer
    case Unanswered => false
    case FromSupervisor => reply == ReplyCancelled
    case FromWorker => reply != ReplyUnknown
    case FromAdapter(own) => reply == own
    case Interrupted => reply == ReplyCancelled
    case FromClient(_) => reply == ReplyError
  }

  predicate Explained(call: Call, reply: Reply) {
    match call.answer
    case Unanswered => false
    case FromSupervisor => !call.Handed() && call.first == Unsent
    case FromWorker => !call.Handed() && call.first == Over
    case FromAdapter(own) => reply == (if own == ReplyCancelled then ReplyUnknown else own)
    case Interrupted => reply == ReplyUnknown
    case FromClient(serialization) => reply == (if serialization then ReplyError else ReplyUnknown)
  }

  ghost predicate CallsInv(s: State) { forall c :: c in s.calls ==> CallInv(s.calls[c], s.generation) }

  lemma EndedInv(call: Call, g: nat, a: nat, reply: Reply, source: Answer, generation: nat)
    requires CallInv(call, generation) && Attempt(a) && (call.WireOf(a).InPipe? || call.WireOf(a).Running?)
    requires call.Write() ==>
      || (source.FromWorker? && (call.WireOf(a).InPipe? || !call.WireOf(a).handed))
      || ((source.FromAdapter? || source.Interrupted?) && Explained(call.(answer := source), reply))
    requires !call.Write() ==> PlainlyExplained(source, reply)
    ensures CallInv(call.Ended(g, a, reply, source), generation)
  {
    LayersAgree(call.kind);
  }

  lemma SupervisedInv(call: Call, generation: nat)
    requires CallInv(call, generation)
    ensures call.phase.Passed? ==> CallInv(call.GivenToClient(), generation)
    ensures call.phase.Sent? ==> CallInv(call.AfterFailure(), generation)
    ensures call.phase.Sent? ==> forall serialization :: CallInv(call.ClientError(serialization), generation)
    ensures call.phase.RecoveredWith? ==> forall barred :: CallInv(call.AfterRetryCheck(barred), generation)
  {
    LayersAgree(call.kind);
  }

  lemma RecoveredInv(call: Call, client: Option<nat>, generation: nat, later: nat)
    requires CallInv(call, generation) && call.phase.Failed? && generation <= later
    requires client.Some? ==> client.value <= later
    ensures CallInv(call.AfterRecovery(client), later)
  {
    LayersAgree(call.kind);
  }

  lemma DeliveredInv(s: State, call: Call, a: nat, busy: bool)
    requires CallInv(call, s.generation) && Attempt(a) && call.WireOf(a).InPipe?
    ensures CallInv(DeliveredCall(s, call, call.WireOf(a).generation, a, busy), s.generation)
  {
    var g := call.WireOf(a).generation;
    EndedInv(call, g, a, ReplyOk, FromWorker, s.generation);
    EndedInv(call, g, a, ReplyError, FromWorker, s.generation);
    EndedInv(call, g, a, ReplyCancelled, FromWorker, s.generation);
    StartsInv(call, a, g, s.generation);
  }

  lemma StartsInv(call: Call, a: nat, g: nat, generation: nat)
    requires CallInv(call, generation) && Attempt(a) && call.WireOf(a) == InPipe(g)
    ensures CallInv(call.WithWire(a, Running(g, false)), generation)
  {
    LayersAgree(call.kind);
  }

  lemma HandedInv(call: Call, a: nat, g: nat, generation: nat)
    requires CallInv(call, generation) && Attempt(a) && call.WireOf(a) == Running(g, false)
    ensures CallInv(call.HandedOver(a, g), generation)
  {
    LayersAgree(call.kind);
  }

  lemma StartedInv(s: State, kind: Kind)
    ensures CallInv(StartedCall(s, kind), s.generation)
  {
    LayersAgree(kind);
  }

  lemma PolledInv(s: State, call: Call, a: nat, raced: bool)
    requires CallInv(call, s.generation) && Attempt(a) && call.kind.Data? && call.WireOf(a).Running?
    requires !call.WireOf(a).handed
    ensures CallInv(PolledCall(s, call, call.WireOf(a).generation, a, raced), s.generation)
  {
    var g := call.WireOf(a).generation;
    EndedInv(call, g, a, if raced && call.kind.WorkerWrite() then ReplyUnknown
      else ReplyCancelled, FromWorker, s.generation);
    HandedInv(call, a, g, s.generation);
  }

  lemma CompletedInv(call: Call, a: nat, adapter: Reply, interrupted: bool, generation: nat)
    requires CallInv(call, generation) && Attempt(a) && call.WireOf(a).Running? && call.WireOf(a).handed
    ensures CallInv(CompletedCall(call, call.WireOf(a).generation, a, adapter, interrupted), generation)
  {
    LayersAgree(call.kind);
    var source := if interrupted then Interrupted else FromAdapter(adapter);
    EndedInv(call, call.WireOf(a).generation, a, Normalized(call.kind, if interrupted then ReplyCancelled else adapter),
      source, generation);
  }

  lemma AroundKeepsCalls(s: State, step: Step)
    requires Enabled(s, step)
    ensures Around(s, step).calls == s.calls && s.generation <= Around(s, step).generation
    ensures !step.Recover? ==> Around(s, step).generation == s.generation
  {}

  lemma NewCallInv(s: State, step: Step)
    requires Enabled(s, step) && (step.c in s.calls ==> CallInv(s.calls[step.c], s.generation))
    ensures CallInv(NewCall(s, step), Around(s, step).generation)
  {
    AroundKeepsCalls(s, step);
    match step
    case StartCall(_, kind, _) => StartedInv(s, kind);
    case Recover(c, launched) =>
      RecoveredInv(s.calls[c], RecoveredClient(s, s.calls[c].phase.generation, launched), s.generation,
        Around(s, step).generation);
    case Deliver(c, a, busy) => DeliveredInv(s, s.calls[c], a, busy);
    case Poll(c, a, raced) => PolledInv(s, s.calls[c], a, raced);
    case Complete(c, a, adapter, interrupted) => CompletedInv(s.calls[c], a, adapter, interrupted, s.generation);
    case Send(c) => SupervisedInv(s.calls[c], s.generation);
    case Fail(c) => SupervisedInv(s.calls[c], s.generation);
    case Garble(c, _) => SupervisedInv(s.calls[c], s.generation);
    case Retry(c) => SupervisedInv(s.calls[c], s.generation);
  }

  lemma CallsInvKept(s: State, step: Step)
    requires CallsInv(s)
    ensures CallsInv(Next(s, step))
  {
    if Enabled(s, step) {
      NewCallInv(s, step);
      AroundKeepsCalls(s, step);
    }
  }

  lemma {:induction false} CallsInvAlways(steps: seq<Step>)
    ensures CallsInv(Execute(INITIAL, steps))
  {
    if steps != [] {
      CallsInvAlways(steps[..|steps| - 1]);
      CallsInvKept(Execute(INITIAL, steps[..|steps| - 1]), steps[|steps| - 1]);
    }
  }

  /**
   Resend discipline: whatever fails, a write is given to a worker client at most once, anything else at most twice.
   */
  lemma ResendDiscipline(steps: seq<Step>, c: nat)
    requires c in Execute(INITIAL, steps).calls
    ensures var call := Execute(INITIAL, steps).calls[c]; call.sends <= (if call.Write() then 1 else 2)
  {
    CallsInvAlways(steps);
    LayersAgree(Execute(INITIAL, steps).calls[c].kind);
  }

  /** However workers fail and are replaced, an adapter is given a write once at most. */
  lemma HandedAtMostOnce(steps: seq<Step>, c: nat)
    requires c in Execute(INITIAL, steps).calls && Execute(INITIAL, steps).calls[c].Write()
    ensures Execute(INITIAL, steps).calls[c].handovers <= 1
  {
    CallsInvAlways(steps);
  }

  /** A write whose caller is told "cancelled" was never handed to an adapter, and no message of it is left to run. */
  lemma CancelledWriteNeverHanded(steps: seq<Step>, c: nat)
    requires c in Execute(INITIAL, steps).calls
    requires var call := Execute(INITIAL, steps).calls[c]; call.Write() && call.phase == Replied(ReplyCancelled)
    ensures var call := Execute(INITIAL, steps).calls[c];
      !call.Handed() && !call.first.InPipe? && !call.first.Running? && call.second == Unsent
  {
    CallsInvAlways(steps);
    var s := Execute(INITIAL, steps);
    CancelledIsNotHanded(s.calls[c], s.generation);
  }

  lemma CancelledIsNotHanded(call: Call, generation: nat)
    requires CallInv(call, generation) && call.Write() && call.phase == Replied(ReplyCancelled)
    ensures !call.Handed() && !call.first.InPipe? && !call.first.Running? && call.second == Unsent
  {
    LayersAgree(call.kind);
  }

  /** Something other than the adapter itself ended the wait for its answer. */
  predicate CutShort(answer: Answer) {
    answer.Interrupted? || answer == FromAdapter(ReplyCancelled) || answer.FromClient?
  }

  /**
   The answer of a write that was handed to an adapter: the adapter's own, passed on as it is; or the wait was
   cut short, and then the outcome is reported as unknown unless the client failed to decode the reply.
   */
  lemma InterruptedWriteIsUnknown(steps: seq<Step>, c: nat)
    requires c in Execute(INITIAL, steps).calls
    requires var call := Execute(INITIAL, steps).calls[c]; call.Write() && call.Handed() && call.phase.Replied?
    ensures var call := Execute(INITIAL, steps).calls[c];
      && call.phase.reply != ReplyCancelled
      && (!CutShort(call.answer) ==> call.answer == FromAdapter(call.phase.reply))
      && (CutShort(call.answer) ==> (call.phase.reply == ReplyUnknown <==> call.answer != FromClient(true)))
      && (call.answer == FromClient(true) ==> call.phase.reply == ReplyError)
  {
    CallsInvAlways(steps);
  }

  /** Reads and other calls that are no writes: the adapter's answer as it is, a cancellation, or a plain error. */
  lemma OtherCallsAreAnsweredPlainly(steps: seq<Step>, c: nat)
    requires c in Execute(INITIAL, steps).calls
    requires var call := Execute(INITIAL, steps).calls[c]; !call.Write() && call.phase.Replied?
    ensures var call := Execute(INITIAL, steps).calls[c];
      && (call.answer.FromAdapter? ==> call.phase.reply == call.answer.reply)
      && (call.answer.Interrupted? || call.answer.FromSupervisor? ==> call.phase.reply == ReplyCancelled)
      && (call.answer.FromClient? ==> call.phase.reply == ReplyError)
      && (call.phase.reply == ReplyUnknown ==> call.answer == FromAdapter(ReplyUnknown))
  {
    CallsInvAlways(steps);
  }

  /** A call that recovers gets the client of the current generation, which is newer than the one that failed it. */
  lemma RetryGoesToNewerWorker(steps: seq<Step>, c: nat, launched: bool)
    requires var s := Execute(INITIAL, steps);
      c in s.calls && s.calls[c].phase.Failed? && s.calls[c].phase.generation < GENERATION_LIMIT
    ensures var s := Execute(INITIAL, steps);
      var t := Next(s, Recover(c, launched));
      t.calls[c].phase.RecoveredWith? && t.calls[c].phase.client.Some? ==>
        t.calls[c].phase.client == Some(t.generation) && t.generation > s.calls[c].phase.generation
  {
    CallsInvAlways(steps);
  }

  // ---------------------------------------------------------------- what a call comes to, step by step

  /** What the caller of a failed or refused call is told when its worker was not to blame for the outcome. */
  function Undelivered(kind: Kind): Reply { if kind.Write() then ReplyUnknown else ReplyError }

  predicate BehindBarrier(s: State, kind: Kind) { kind.Data? && kind.id in s.tombs && s.now < s.tombs[kind.id] }

  /** A new call: refused while the supervisor stops, cancelled behind the barrier, and let through otherwise. */
  lemma StartDecides(s: State, c: nat, kind: Kind, victim: RequestId)
    requires c !in s.calls
    ensures var call := Next(s, StartCall(c, kind, victim)).calls[c];
      && call.kind == kind && call.sends == 0
      && call.phase ==
        if s.stopping then Replied(Undelivered(kind))
        else if BehindBarrier(s, kind) then Replied(ReplyCancelled)
        else Passed(s.generation, 1)
  {
    LayersAgree(kind);
  }

  /** A call that was let through is given to the client of the worker it was let through to. */
  lemma SendDecides(s: State, c: nat)
    requires c in s.calls && s.calls[c].phase.Passed?
    ensures
      var before, after := s.calls[c], Next(s, Send(c)).calls[c];
      && after.phase == Sent(before.phase.generation, before.phase.attempt) && after.sends == before.sends + 1
      && after.WireOf(before.phase.attempt) == InPipe(before.phase.generation) && after.kind == before.kind
  {
  }

  /**
   After a failed first attempt a write is over with an unknown outcome; anything else is sent once more, to the
   worker that is there by then, unless it was cancelled meanwhile or there is none.
   */
  lemma FailureDecides(s: State, c: nat, launched: bool)
    requires c in s.calls && s.calls[c].phase.Sent? && s.calls[c].phase.attempt == 1
    ensures
      var kind, g := s.calls[c].kind, s.calls[c].phase.generation;
      var t := Next(Next(s, Fail(c)), Recover(c, launched));
      var u := Next(t, Retry(c));
      && (kind.Write() ==> t.calls[c].phase == Replied(ReplyUnknown))
      && (!kind.Write() && BehindBarrier(s, kind) ==> u.calls[c].phase == Replied(ReplyCancelled))
      && (!kind.Write() && !BehindBarrier(s, kind) ==>
           if s.stopping || (s.generation == g && !launched) then u.calls[c].phase == Replied(ReplyError)
           else if s.generation != g then u.calls[c].phase == Passed(s.generation, 2)
           else u.calls[c].phase == Passed(if g < 0xFFFF_FFFF_FFFF_FFFF then g + 1 else g, 2))
  {
    LayersAgree(s.calls[c].kind);
    var failed := Next(s, Fail(c));
    assert failed.calls[c].phase == Failed(s.calls[c].phase.generation);
  }

  /** A second failure is final, and so is any other client error. */
  lemma SecondFailureDecides(s: State, c: nat, serialization: bool)
    requires c in s.calls && s.calls[c].phase.Sent?
    ensures s.calls[c].phase.attempt != 1 ==> Next(s, Fail(c)).calls[c].phase == Replied(Undelivered(s.calls[c].kind))
    ensures Next(s, Garble(c, serialization)).calls[c].phase ==
      Replied(if serialization then ReplyError else Undelivered(s.calls[c].kind))
  {
    LayersAgree(s.calls[c].kind);
  }

  /** What a worker makes of a call it reads: running already, cancelled before, no permit free, or begun. */
  lemma DeliveryDecides(s: State, c: nat, a: nat, busy: bool)
    requires Enabled(s, Deliver(c, a, busy)) && s.calls[c].kind.Data?
    requires s.calls[c].phase == Sent(s.calls[c].WireOf(a).generation, a)
    ensures
      var g, id := s.calls[c].WireOf(a).generation, s.calls[c].kind.id;
      var call := Next(s, Deliver(c, a, busy)).calls[c];
      if id in Life(s, g).active then call.phase == Replied(ReplyError)
      else if Buried(Pruned(Life(s, g).order, s.now), id) then call.phase == Replied(ReplyCancelled)
      else if busy then call.phase == Replied(ReplyError)
      else call.phase == s.calls[c].phase && call.WireOf(a) == Running(g, false)
  {
  }

  /** A cancellation that a worker reads is in force there and confirmed. */
  lemma CancellationDecides(s: State, c: nat, a: nat)
    requires Enabled(s, Deliver(c, a, false)) && s.calls[c].kind.CancelCall?
    ensures
      var g, id := s.calls[c].WireOf(a).generation, s.calls[c].kind.target;
      var t := Next(s, Deliver(c, a, false));
      && (if id in Life(s, g).active then Token(t, g, id) else Buried(Life(t, g).order, id))
      && (s.calls[c].phase == Sent(g, a) ==> t.calls[c].phase == Replied(ReplyOk))
  {
    var g, id := s.calls[c].WireOf(a).generation, s.calls[c].kind.target;
    var order := Pruned(Life(s, g).order, s.now);
    if !Buried(order, id) { BuriedInLonger(Trimmed(order), Tombstone(id, s.now), id); }
  }

  /** The adapter is given the call unless its token was cancelled; a write cancelled in that instant is unknown. */
  lemma PollDecides(s: State, c: nat, a: nat, raced: bool)
    requires Enabled(s, Poll(c, a, raced)) && s.calls[c].phase == Sent(s.calls[c].WireOf(a).generation, a)
    ensures
      var g, kind := s.calls[c].WireOf(a).generation, s.calls[c].kind;
      var call := Next(s, Poll(c, a, raced)).calls[c];
      if Token(s, g, kind.id)
      then call.phase == Replied(if raced && kind.Write() then ReplyUnknown else ReplyCancelled)
        && call.handovers == s.calls[c].handovers
      else call.phase == s.calls[c].phase && call.handovers == s.calls[c].handovers + 1
  {
    LayersAgree(s.calls[c].kind);
  }

  /** What the caller hears of a call whose adapter ended: its own answer, or its cancellation as told above. */
  lemma CompletionDecides(s: State, c: nat, a: nat, adapter: Reply, interrupted: bool)
    requires Enabled(s, Complete(c, a, adapter, interrupted))
    ensures
      var before, after := s.calls[c], Next(s, Complete(c, a, adapter, interrupted)).calls[c];
      var reply := if interrupted then ReplyCancelled else adapter;
      after.phase ==
        if before.phase != Sent(before.WireOf(a).generation, a) then before.phase
        else Replied(if reply == ReplyCancelled && before.Write() then ReplyUnknown else reply)
  {
    LayersAgree(s.calls[c].kind);
  }

  /** A restart replaces the worker unless the supervisor stops or no new one can be launched. */
  lemma RestartDecides(s: State, launched: bool)
    ensures var t := Next(s, Restart(launched));
      && (s.stopping || !launched ==> t == s)
      && (!s.stopping && launched ==>
           && t.replaced == s.replaced + [s.generation]
           && t.generation == (if s.generation < 0xFFFF_FFFF_FFFF_FFFF then s.generation + 1 else s.generation))
  {
  }

  /** Call c does not exist or was refused: nothing of it was sent, and its caller was told so. */
  predicate RefusedIfAny(s: State, c: nat) {
    c in s.calls ==>
      var call := s.calls[c];
      call.phase == Replied(Undelivered(call.kind)) && call.sends == 0 && call.first == Unsent && call.second == Unsent
  }

  /** The supervisor has stopped, and its workers are still these. */
  predicate Stopped(s: State, generation: nat, replaced: seq<nat>) {
    s.stopping && s.generation == generation && s.replaced == replaced
  }

  lemma StoppedStays(s: State, step: Step)
    requires s.stopping
    ensures Stopped(Next(s, step), s.generation, s.replaced)
  {
  }

  lemma RefusedStays(s: State, step: Step, c: nat)
    requires s.stopping && RefusedIfAny(s, c)
    ensures RefusedIfAny(Next(s, step), c)
  {
    if Enabled(s, step) {
      AroundKeepsCalls(s, step);
      if step.StartCall? { LayersAgree(step.kind); }
    }
  }

  /** A shutdown is for good: no worker is replaced after it, and no call begun after it is ever sent. */
  lemma {:induction false} StoppedForGood(s: State, more: seq<Step>, c: nat)
    requires c !in s.calls
    ensures Stopped(Execute(Next(s, Shutdown), more), s.generation, s.replaced)
    ensures RefusedIfAny(Execute(Next(s, Shutdown), more), c)
  {
    if more != [] {
      var before := Execute(Next(s, Shutdown), more[..|more| - 1]);
      StoppedForGood(s, more[..|more| - 1], c);
      StoppedStays(before, more[|more| - 1]);
      RefusedStays(before, more[|more| - 1], c);
    }
  }

  /** A worker without a free permit refuses a call and keeps nothing of it. */
  lemma BusyIsRefused(s: State, c: nat, a: nat)
    requires Enabled(s, Deliver(c, a, true)) && s.calls[c].kind.Data?
    requires var g, kind := s.calls[c].WireOf(a).generation, s.calls[c].kind;
      Begin(Life(s, g), kind.id, kind.connection, s.now).1 == Begun
    ensures var t := Next(s, Deliver(c, a, true));
      && t.calls[c].WireOf(a) == Over && t.calls[c].handovers == s.calls[c].handovers
      && s.calls[c].kind.id !in Life(t, s.calls[c].WireOf(a).generation).active
  {
  }

  /** A run in which the reply of a write that its adapter was given cannot be decoded: a plain error is reported. */
  lemma UndecodableReplyHidesOutcome(c: nat, id: RequestId, op: Operations.Operation, connection: nat)
    requires Operations.WriteAction(op)
    ensures
      var kind := Data(id, Execution(op), connection);
      var steps := [StartCall(c, kind, id), Send(c), Deliver(c, 1, false), Poll(c, 1, false), Garble(c, true)];
      var s := Execute(INITIAL, steps);
      c in s.calls && s.calls[c].Write() && s.calls[c].Handed() && s.calls[c].phase == Replied(ReplyError)
  {
    var kind := Data(id, Execution(op), connection);
    var steps := [StartCall(c, kind, id), Send(c), Deliver(c, 1, false), Poll(c, 1, false), Garble(c, true)];
    FiveSteps(steps);
    FreshCallIsSent(c, kind, id);
    FreshCallIsHanded(c, kind);
    LayersAgree(kind);
  }

  /** A first call, somewhere on its way to the first worker. */
  function FirstCall(c: nat, call: Call, workers: map<nat, Lifecycle>): State {
    INITIAL.(calls := map[c := call], workers := workers)
  }

  function SentCall(kind: Kind, wire: Wire, handovers: nat): Call {
    Call(kind, Sent(0, 1), 1, wire, Unsent, handovers, Unanswered)
  }

  lemma FreshCallIsSent(c: nat, kind: Kind, id: RequestId)
    requires kind.Data?
    ensures var started := Next(INITIAL, StartCall(c, kind, id));
      && started == FirstCall(c, Call(kind, Passed(0, 1), 0, Unsent, Unsent, 0, Unanswered), map[])
      && Next(started, Send(c)) == FirstCall(c, SentCall(kind, InPipe(0), 0), map[])
  {
  }

  lemma FreshCallIsHanded(c: nat, kind: Kind)
    requires kind.Data?
    ensures
      var workers := map[0 := Lifecycle(map[kind.id := Active(kind.connection, false)], [])];
      var running := FirstCall(c, SentCall(kind, Running(0, false), 0), workers);
      && Next(FirstCall(c, SentCall(kind, InPipe(0), 0), map[]), Deliver(c, 1, false)) == running
      && Next(running, Poll(c, 1, false)) == FirstCall(c, SentCall(kind, Running(0, true), 1), workers)
  {
    var life := Lifecycle(map[kind.id := Active(kind.connection, false)], []);
    assert Begin(IDLE, kind.id, kind.connection, 0) == (life, Begun);
    var running := Next(FirstCall(c, SentCall(kind, InPipe(0), 0), map[]), Deliver(c, 1, false));
    assert running.calls == map[c := SentCall(kind, Running(0, false), 0)];
    assert running.workers == map[0 := life];
  }

  lemma FiveSteps(steps: seq<Step>)
    requires |steps| == 5
    ensures Execute(INITIAL, steps)
      == Next(Next(Next(Next(Next(INITIAL, steps[0]), steps[1]), steps[2]), steps[3]), steps[4])
  {
    assert Execute(INITIAL, []) == INITIAL;
    assert steps[..5] == steps;
    ExecutePrefix(steps, 0);
    ExecutePrefix(steps, 1);
    ExecutePrefix(steps, 2);
    ExecutePrefix(steps, 3);
    ExecutePrefix(steps, 4);
  }

  lemma ExecutePrefix(steps: seq<Step>, n: nat)
    requires n < |steps|
    ensures Execute(INITIAL, steps[..n + 1]) == Next(Execute(INITIAL, steps[..n]), steps[n])
  {
    assert steps[..n + 1][..n] == steps[..n];
  }
}

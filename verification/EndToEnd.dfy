/**
 The runtime and its connector workers in one run: a request that is dispatched becomes a call to the supervisor,
 the call's reply becomes the connector's answer, and a write can reach the database only once a worker's adapter
 was given the call.
 */
module EndToEnd {
  import opened Options
  import Operations
  import W = WriteProtocol
  import C = CancelProtocol
  import M = Masking

  datatype Joint = Joint(
    runtime: W.State,
    ipc: C.State,
    checked: map<nat, M.Result>)   // history: the results held against the limits

  const INITIAL := Joint(W.INITIAL, C.INITIAL, map[])

  /** The runtime's environment, the id under which workers know each request, and the limits of its result. */
  datatype World = World(env: W.Environment, name: nat -> string, limits: nat -> M.Limits)

  datatype Step =
    | Runtime(own: W.Step)                // a step of the runtime alone
    | Dispatch(id: nat, victim: string)   // the connector future is polled for the first time
    | Ipc(other: C.Step)                  // a step of supervisor and workers, other calls included
    | Reach(id: nat)                      // the adapter's write reaches the database
    | Hear(id: nat)                       // the call's reply is heard
    | GiveUp(id: nat, timeout: bool)      // the runtime stops waiting: timeout or cancellation
    | Check(id: nat, content: M.Result)   // the connector's result is held against the limits

  /** Calls of requests have even numbers, all other calls odd ones. */
  function CallOf(id: nat): nat { 2 * id }

  function KindOf(world: World, id: nat, r: W.Request): C.Kind {
    C.Data(world.name(id), C.Execution(r.op), r.connection)
  }

  function AnswerOf(reply: C.Reply): W.ConnectorAnswer {
    match reply
    case ReplyOk => W.AnswerOk
    case ReplyCancelled => W.AnswerError(W.Cancelled)
    case ReplyUnknown => W.AnswerUnknown
    case ReplyError => W.AnswerError(W.OtherError)
  }

  function CategoryOf(reply: C.Reply): W.Category {
    match reply
    case ReplyOk => W.Success
    case ReplyCancelled => W.Cancelled
    case ReplyUnknown => W.UnknownOutcome
    case ReplyError => W.OtherError
  }

  predicate Alone(step: W.Step) { !step.Start? && !step.ReachDatabase? && !step.Answer? && !step.CheckResult? }

  predicate Foreign(step: C.Step) { step.StartCall? ==> step.c % 2 == 1 }

  /** The runtime's part of a step, if it has one. */
  function RuntimePart(world: World, j: Joint, step: Step): seq<W.Step> {
    match step
    case Runtime(own) => if Alone(own) then [own] else []
    case Dispatch(id, _) => [W.Start(id)]
    case Ipc(_) => []
    case Reach(id) => if CallOf(id) in j.ipc.calls && j.ipc.calls[CallOf(id)].Handed() then [W.ReachDatabase(id)]
      else []
    case Hear(id) =>
      if CallOf(id) in j.ipc.calls && j.ipc.calls[CallOf(id)].phase.Replied?
      then [W.Answer(id, AnswerOf(j.ipc.calls[CallOf(id)].phase.reply))] else []
    case GiveUp(id, timeout) => [W.Answer(id, if timeout then W.AnswerTimeout else W.AnswerCancelled)]
    case Check(id, content) =>
      if Delivers(j, id) then [W.CheckResult(id, M.Presentable(content, world.limits(id)))] else []
  }

  predicate Delivers(j: Joint, id: nat) { id in j.runtime.requests && j.runtime.requests[id].stage.Delivering? }

  /** The request is dispatched by this step: not cancelled before, not merely looked at. */
  predicate Dispatches(j: Joint, id: nat) {
    id in j.runtime.requests && j.runtime.requests[id].stage.Ready? && !j.runtime.requests[id].cancelRequested
  }

  function IpcPart(world: World, j: Joint, step: Step): seq<C.Step> {
    match step
    case Dispatch(id, victim) =>
      if Dispatches(j, id) then [C.StartCall(CallOf(id), KindOf(world, id, j.runtime.requests[id]), victim)] else []
    case Ipc(other) => if Foreign(other) then [other] else []
    case _ => []
  }

  function Next(world: World, j: Joint, step: Step): Joint {
    var own, other := RuntimePart(world, j, step), IpcPart(world, j, step);
    Joint(if own == [] then j.runtime else W.Next(world.env, j.runtime, own[0]),
          if other == [] then j.ipc else C.Next(j.ipc, other[0]),
          if step.Check? && Delivers(j, step.id) then j.checked[step.id := step.content] else j.checked)
  }

  function Execute(world: World, steps: seq<Step>): Joint {
    if steps == [] then INITIAL else Next(world, Execute(world, steps[..|steps| - 1]), steps[|steps| - 1])
  }

  /** Each side of a joint run is a run of its own protocol, so whatever holds in every run of one side holds here. */
  lemma {:induction false} SidesRun(world: World, steps: seq<Step>) returns (own: seq<W.Step>, other: seq<C.Step>)
    ensures Execute(world, steps).runtime == W.Execute(world.env, W.INITIAL, own)
    ensures Execute(world, steps).ipc == C.Execute(C.INITIAL, other)
  {
    if steps == [] {
      own, other := [], [];
    } else {
      own, other := SidesRun(world, steps[..|steps| - 1]);
      var j, step := Execute(world, steps[..|steps| - 1]), steps[|steps| - 1];
      var more, others := RuntimePart(world, j, step), IpcPart(world, j, step);
      assert more == [] || (own + more)[..|own|] == own;
      assert others == [] || (other + others)[..|other|] == other;
      if more != [] { own := own + more; }
      if others != [] { other := other + others; }
    }
  }

  // ---------------------------------------------------------------- requests and their calls

  predicate Waiting(stage: W.Stage) {
    stage.Admitted? || stage.Cleared? || stage.Active? || stage.Checked? || stage.Granted? || stage.Ready?
  }

  /** The category is an unknown outcome or the one of the call's reply. */
  predicate Reported(category: W.Category, call: C.Call) {
    category == W.UnknownOutcome || (call.phase.Replied? && category == CategoryOf(call.phase.reply))
  }

  /** A result that is neither is too large a result of a successful call. */
  predicate Finished(result: W.Category, call: C.Call) {
    Reported(result, call) || (result == W.ResultTooLarge && call.phase == C.Replied(C.ReplyOk))
  }

  /** Success and failure of the limits are told apart by the result that was checked. */
  predicate CheckedAs(world: World, j: Joint, id: nat, result: W.Category) {
    result == W.Success || result == W.ResultTooLarge ==>
      id in j.checked && (result == W.Success <==> M.Presentable(j.checked[id], world.limits(id)))
  }

  /** A result was there to be checked. */
  predicate HasResult(stage: W.Stage) { stage == W.Done(W.Success) || stage == W.Done(W.ResultTooLarge) }

  /** What holds between a request and its call. */
  predicate Linked(world: World, j: Joint, id: nat) {
    && (CallOf(id) in j.ipc.calls ==>
         && id in j.runtime.requests && !Waiting(j.runtime.requests[id].stage)
         && CallLinked(world, id, j.runtime.requests[id], j.ipc.calls[CallOf(id)])
         && (Operations.WriteAction(j.runtime.requests[id].op) && j.runtime.requests[id].stage.Done? ==>
              CheckedAs(world, j, id, j.runtime.requests[id].stage.result)))
    && (W.Applied(j.runtime, id) ==> CallOf(id) in j.ipc.calls && j.ipc.calls[CallOf(id)].Handed())
    && (id in j.runtime.requests && j.runtime.requests[id].stage.Dispatched? ==> CallOf(id) in j.ipc.calls)
    && (id in j.checked ==> id in j.runtime.requests && HasResult(j.runtime.requests[id].stage))
  }

  predicate CallLinked(world: World, id: nat, r: W.Request, call: C.Call) {
    && call.kind == KindOf(world, id, r)
    && (Operations.WriteAction(r.op) ==>
         && (r.stage.Reporting? ==>
              Reported(r.stage.category, call)
                && (r.stage.category == W.Success <==> r.stage.finish == W.FinishSucceeded)
              && r.stage.category != W.ResultTooLarge)
         && (r.stage.Delivering? ==> call.phase == C.Replied(C.ReplyOk))
         && (r.stage.Done? ==> Finished(r.stage.result, call)))
  }

  ghost predicate Inv(world: World, j: Joint) { forall id :: Linked(world, j, id) }

  /** A step of supervisor and workers leaves every call as it is or further on; a reply is final. */
  lemma CallsOnlyAdvance(s: C.State, step: C.Step, c: nat)
    requires c in s.calls
    ensures c in C.Next(s, step).calls
    ensures var before, after := s.calls[c], C.Next(s, step).calls[c];
      && after.kind == before.kind && before.handovers <= after.handovers
      && (before.phase.Replied? ==> after.phase == before.phase)
  {
    if C.Enabled(s, step) {
      C.AroundKeepsCalls(s, step);
      if step.c == c { CallAdvances(s, step); }
    }
  }

  lemma CallAdvances(s: C.State, step: C.Step)
    requires C.Enabled(s, step) && step.c in s.calls
    ensures var before, after := s.calls[step.c], C.NewCall(s, step);
      && after.kind == before.kind && before.handovers <= after.handovers
      && (before.phase.Replied? ==> after.phase == before.phase)
  {
  }

  lemma OnlyStartsAddCalls(s: C.State, step: C.Step, c: nat)
    requires c !in s.calls && c in C.Next(s, step).calls
    ensures step.StartCall? && step.c == c
  {
    if C.Enabled(s, step) { C.AroundKeepsCalls(s, step); }
  }

  /** A runtime step of another request leaves this one alone. */
  lemma OthersUnchanged(env: W.Environment, s: W.State, step: W.Step, id: nat)
    requires step.Tick? || step.id != id
    ensures var t := W.Next(env, s, step);
      && (id in t.requests <==> id in s.requests) && (id in s.requests ==> t.requests[id] == s.requests[id])
      && (id in t.effects <==> id in s.effects) && (id in s.effects ==> t.effects[id] == s.effects[id])
  {
  }

  /** What a runtime step can do to its own request. */
  predicate RequestMoves(s: W.State, t: W.State, id: nat, step: W.Step) {
    && (id in s.requests ==> id in t.requests)
    && (id in t.requests && id !in s.requests ==> t.requests[id].stage.Admitted?)
    && (id in s.requests ==>
         SameRequest(s.requests[id], t.requests[id]) && StageMoves(s.requests[id], t.requests[id].stage, step))
    && (W.Applied(t, id) && !W.Applied(s, id) ==> step == W.ReachDatabase(id))
  }

  predicate SameRequest(before: W.Request, after: W.Request) {
    after.op == before.op && after.connection == before.connection
  }

  /** Stages move from waiting to dispatched only by a start, and leave it only by an answer or a crash. */
  predicate StageMoves(before: W.Request, after: W.Stage, step: W.Step) {
    && (Waiting(after) ==> Waiting(before.stage))
    && (after.Dispatched? && !before.stage.Dispatched? ==>
      step.Start? && before.stage.Ready? && !before.cancelRequested)
    && (before.stage.Dispatched? ==> after.Dispatched? || after.Crashed? || step.Answer?)
    && (before.stage.Dispatched? && step.Answer? && Operations.WriteAction(before.op) ==>
      AnswerReported(after, step.answer))
    && (before.stage.Reporting? ==> SettledAs(before.stage, after))
    && (before.stage.Delivering? ==>
         after == before.stage || after.Crashed? || (step.CheckResult? && after == W.Done(CheckedCategory(step.fits))))
    && (before.stage.Done? || before.stage.Crashed? ==> after == before.stage)
  }

  predicate SettledAs(before: W.Stage, after: W.Stage)
    requires before.Reporting?
  {
    || after == before || after.Crashed?
    || (if before.finish == W.FinishSucceeded then after.Delivering? else after == W.Done(before.category))
  }

  function CheckedCategory(fits: bool): W.Category { if fits then W.Success else W.ResultTooLarge }

  /** What a write's stage may be after its connector's answer. */
  predicate AnswerReported(after: W.Stage, answer: W.ConnectorAnswer) {
    || after.Dispatched?
    || (after.Reporting? && (
         || (after.category == W.UnknownOutcome && after.finish == W.FinishUnknown)
         || (answer.AnswerOk? && after.category == W.Success && after.finish == W.FinishSucceeded)
         || (answer.AnswerError? && after.category == answer.category && after.finish == W.FinishRelease)))
  }

  lemma AnswerMoves(env: W.Environment, s: W.State, r: W.Request, effect: W.Effect, answer: W.ConnectorAnswer)
    requires r.stage.Dispatched? && Operations.WriteAction(r.op)
    ensures AnswerReported(W.AnswerMove(env, s, r, effect, answer).stage, answer)
  {
  }

  lemma PreparationMoves(env: W.Environment, s: W.State, r: W.Request, storeFails: bool, committed: bool)
    ensures var m := W.AuthorizeMove(env, s, r); m.effect.None? && (m.stage.Cleared? || m.stage.Done?)
    ensures var m := W.SpendMove(env, s, r, storeFails, committed);
      m.effect.None? && (m.stage.Granted? || m.stage.Done?)
    ensures var m := W.ReserveMove(s, r, storeFails, committed); m.effect.None? && (m.stage.Ready? || m.stage.Done?)
  {
  }

  lemma MoveMovesStage(env: W.Environment, s: W.State, id: nat, step: W.Step)
    requires id in s.requests && !step.Tick? && !step.Arrive? && !step.RequestCancel?
    ensures StageMoves(s.requests[id], W.MoveOf(env, s, id, step).stage, step)
    ensures W.MoveOf(env, s, id, step).effect == Some(W.Fired) ==> step.ReachDatabase?
  {
    var r := s.requests[id];
    match step
    case Authorize(_) => PreparationMoves(env, s, r, false, false);
    case SpendGrant(_, storeFails, committed) => PreparationMoves(env, s, r, storeFails, committed);
    case ReserveKey(_, storeFails, committed) => PreparationMoves(env, s, r, storeFails, committed);
    case Answer(_, answer) =>
      if r.stage.Dispatched? && id in s.effects && Operations.WriteAction(r.op) {
        AnswerMoves(env, s, r, s.effects[id], answer);
      }
    case _ =>
  }

  lemma StepMovesRequest(env: W.Environment, s: W.State, step: W.Step)
    requires !step.Tick?
    ensures RequestMoves(s, W.Next(env, s, step), step.id, step)
  {
    if step.id in s.requests && !step.Arrive? && !step.RequestCancel? {
      MoveMovesStage(env, s, step.id, step);
    }
  }

  // ---------------------------------------------------------------- every joint run

  /** Steps of supervisor and workers keep the link: calls only advance and a reply is final. */
  lemma IpcKeepsLink(world: World, j: Joint, step: C.Step, id: nat)
    requires Linked(world, j, id) && Foreign(step)
    ensures Linked(world, j.(ipc := C.Next(j.ipc, step)), id)
  {
    var c := CallOf(id);
    if c in j.ipc.calls {
      CallsOnlyAdvance(j.ipc, step, c);
    } else if c in C.Next(j.ipc, step).calls {
      OnlyStartsAddCalls(j.ipc, step, c);
    }
  }

  /** A runtime step that is neither a start nor heard wrongly keeps the link. */
  lemma RuntimeKeepsLink(world: World, j: Joint, step: W.Step, id: nat)
    requires Linked(world, j, id) && !step.Start? && (step.CheckResult? ==> step.id != id)
    requires step == W.ReachDatabase(id) ==> CallOf(id) in j.ipc.calls && j.ipc.calls[CallOf(id)].Handed()
    requires step.Answer? && step.id == id && CallOf(id) in j.ipc.calls ==>
      Truthful(step.answer, j.ipc.calls[CallOf(id)])
    ensures Linked(world, j.(runtime := W.Next(world.env, j.runtime, step)), id)
  {
    if step.Tick? || step.id != id {
      OthersUnchanged(world.env, j.runtime, step, id);
    } else {
      StepMovesRequest(world.env, j.runtime, step);
    }
  }

  /** The check of a result is recorded together with what it led to. */
  lemma CheckKeepsLink(world: World, j: Joint, id: nat, content: M.Result, other: nat)
    requires Linked(world, j, other)
    ensures Linked(world, Next(world, j, Check(id, content)), other)
  {
    if Delivers(j, id) {
      var step := W.CheckResult(id, M.Presentable(content, world.limits(id)));
      if other != id {
        RuntimeKeepsLink(world, j, step, other);
      } else {
        StepMovesRequest(world.env, j.runtime, step);
        CheckMoves(world.env, j.runtime, id, step.fits);
      }
    }
  }

  lemma CheckMoves(env: W.Environment, s: W.State, id: nat, fits: bool)
    requires id in s.requests && s.requests[id].stage.Delivering?
    ensures W.Next(env, s, W.CheckResult(id, fits)).requests[id].stage == W.Done(CheckedCategory(fits))
  {
  }

  /** An answer that speaks of a reply speaks of this call's reply. */
  predicate Truthful(answer: W.ConnectorAnswer, call: C.Call) {
    answer.AnswerOk? || answer.AnswerError? ==> call.phase.Replied? && answer == AnswerOf(call.phase.reply)
  }

  /** Dispatching creates the call; a request cancelled before gets none. */
  lemma DispatchKeepsLink(world: World, j: Joint, id: nat, victim: string, other: nat)
    requires Linked(world, j, other) && Linked(world, j, id)
    ensures Linked(world, Next(world, j, Dispatch(id, victim)), other)
  {
    var t := W.Next(world.env, j.runtime, W.Start(id));
    if other != id {
      OthersUnchanged(world.env, j.runtime, W.Start(id), other);
      if Dispatches(j, id) {
        var start := C.StartCall(CallOf(id), KindOf(world, id, j.runtime.requests[id]), victim);
        if CallOf(other) in j.ipc.calls { CallsOnlyAdvance(j.ipc, start, CallOf(other)); }
        else if CallOf(other) in C.Next(j.ipc, start).calls { OnlyStartsAddCalls(j.ipc, start, CallOf(other)); }
      }
    } else {
      StepMovesRequest(world.env, j.runtime, W.Start(id));
      if Dispatches(j, id) { StartLinks(world, j, id, victim); }
    }
  }

  lemma StartLinks(world: World, j: Joint, id: nat, victim: string)
    requires Linked(world, j, id) && Dispatches(j, id)
    ensures var start := C.StartCall(CallOf(id), KindOf(world, id, j.runtime.requests[id]), victim);
      && CallOf(id) in C.Next(j.ipc, start).calls
      && C.Next(j.ipc, start).calls[CallOf(id)].kind == KindOf(world, id, j.runtime.requests[id])
    ensures W.Next(world.env, j.runtime, W.Start(id)).requests[id].stage.Dispatched?
  {
  }

  lemma InvKept(world: World, j: Joint, step: Step)
    requires Inv(world, j)
    ensures Inv(world, Next(world, j, step))
  {
    forall id ensures Linked(world, Next(world, j, step), id) {
      assert Linked(world, j, id);
      match step
      case Runtime(own) => if Alone(own) { RuntimeKeepsLink(world, j, own, id); }
      case Ipc(other) => if Foreign(other) { IpcKeepsLink(world, j, other, id); }
      case Dispatch(r, victim) =>
        assert Linked(world, j, r);
        DispatchKeepsLink(world, j, r, victim, id);
      case Check(r, content) => CheckKeepsLink(world, j, r, content, id);
      case _ =>
        var own := RuntimePart(world, j, step);
        if own != [] { RuntimeKeepsLink(world, j, own[0], id); }
    }
  }

  lemma {:induction false} InvAlways(world: World, steps: seq<Step>)
    ensures Inv(world, Execute(world, steps))
  {
    if steps != [] {
      InvAlways(world, steps[..|steps| - 1]);
      InvKept(world, Execute(world, steps[..|steps| - 1]), steps[|steps| - 1]);
    }
  }

  /** In every joint run a request's call asks for that request's operation, on its connection, under its name. */
  lemma CallAsksForTheOperation(world: World, steps: seq<Step>, id: nat)
    requires 2 * id in Execute(world, steps).ipc.calls
    ensures var j := Execute(world, steps);
      && id in j.runtime.requests
      && j.ipc.calls[2 * id].kind
        == C.Data(world.name(id), C.Execution(j.runtime.requests[id].op), j.runtime.requests[id].connection)
  {
    InvAlways(world, steps);
    assert Linked(world, Execute(world, steps), id);
  }

  // ---------------------------------------------------------------- what a finished write tells its caller

  /** The adapter was never given the call, and nothing of it is left in a worker or on the way to one. */
  predicate NeverHanded(call: C.Call) {
    !call.Handed() && !call.first.InPipe? && !call.first.Running? && call.second == C.Unsent
  }

  /**
   "Cancelled" means "not executed", through runtime, supervisor and worker: a write that the runtime reports as
   cancelled was not applied, and either no call was made or no adapter was given it and none will be.
   */
  lemma CancelledMeansNotExecuted(world: World, steps: seq<Step>, id: nat)
    requires var s := Execute(world, steps).runtime;
      id in s.requests && Operations.WriteAction(s.requests[id].op) && s.requests[id].stage == W.Done(W.Cancelled)
    ensures var j := Execute(world, steps);
      && !W.Applied(j.runtime, id)
      && (CallOf(id) in j.ipc.calls ==> NeverHanded(j.ipc.calls[CallOf(id)]))
  {
    InvAlways(world, steps);
    var j := Execute(world, steps);
    assert Linked(world, j, id);
    if CallOf(id) in j.ipc.calls {
      var own, other := SidesRun(world, steps);
      C.CancelledWriteNeverHanded(other, CallOf(id));
    }
  }

  /** The answer of a handed write's call: its adapter's own, or a plain error for a reply that could not be decoded. */
  predicate OwnAnswer(call: C.Call) {
    && call.phase.Replied?
    && (call.answer == C.FromAdapter(call.phase.reply)
      || (call.answer == C.FromClient(true) && call.phase.reply == C.ReplyError))
  }

  /**
   The other half: a finished write whose adapter was given the call is reported with an unknown outcome, with the
   category of its call's own answer, or as too large a result; the last if and only if the call was answered with
   success and the result does not fit the limits.
   */
  lemma HandedWriteIsReported(world: World, steps: seq<Step>, id: nat)
    requires var j := Execute(world, steps);
      && id in j.runtime.requests && Operations.WriteAction(j.runtime.requests[id].op)
      && j.runtime.requests[id].stage.Done?
      && CallOf(id) in j.ipc.calls && j.ipc.calls[CallOf(id)].Handed()
    ensures var j := Execute(world, steps);
      var result, call := j.runtime.requests[id].stage.result, j.ipc.calls[CallOf(id)];
      && (result != W.UnknownOutcome ==> OwnAnswer(call))
      && (!Reported(result, call) <==>
           && call.phase == C.Replied(C.ReplyOk) && id in j.checked
           && !M.Presentable(j.checked[id], world.limits(id)))
      && (!Reported(result, call) ==> result == W.ResultTooLarge)
  {
    InvAlways(world, steps);
    var j := Execute(world, steps);
    assert Linked(world, j, id);
    if j.ipc.calls[CallOf(id)].phase.Replied? {
      var own, other := SidesRun(world, steps);
      C.InterruptedWriteIsUnknown(other, CallOf(id));
    }
  }

  /** One request is applied by one hand-over: its write was given to an adapter, and to one only. */
  lemma AppliedWriteWasHandedOnce(world: World, steps: seq<Step>, id: nat)
    requires var s := Execute(world, steps).runtime;
      W.Applied(s, id) && id in s.requests && Operations.WriteAction(s.requests[id].op)
    ensures var calls := Execute(world, steps).ipc.calls; CallOf(id) in calls && calls[CallOf(id)].handovers == 1
  {
    InvAlways(world, steps);
    assert Linked(world, Execute(world, steps), id);
    var own, other := SidesRun(world, steps);
    C.HandedAtMostOnce(other, CallOf(id));
  }
}

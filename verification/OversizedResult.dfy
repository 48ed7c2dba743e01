/**
 A run in which a write is applied and answered with success, and yet reported as an error: its result is too large.
 */
module OversizedResult {
  import opened Options
  import opened Operations
  import opened AuditStore
  import opened EndToEnd
  import W = WriteProtocol
  import C = CancelProtocol
  import I = MisreportedWrite
  import M = Masking
  import L = WorkerLifecycle

  const ID: nat := 1

  lemma Extended(world: World, steps: seq<Step>, step: Step)
    ensures Execute(world, steps + [step]) == Next(world, Execute(world, steps), step)
  {
    assert (steps + [step])[..|steps|] == steps;
  }

  /** A step of the runtime alone. */
  lemma ByRuntime(world: World, steps: seq<Step>, own: W.Step, after: W.State) returns (more: seq<Step>)
    requires Alone(own) && W.Next(world.env, Execute(world, steps).runtime, own) == after
    ensures Execute(world, more) == Execute(world, steps).(runtime := after)
  {
    Extended(world, steps, Runtime(own));
    more := steps + [Runtime(own)];
  }

  /** A step of supervisor and workers alone. */
  lemma ByWorkers(world: World, steps: seq<Step>, other: C.Step, after: C.State) returns (more: seq<Step>)
    requires Foreign(other) && C.Next(Execute(world, steps).ipc, other) == after
    ensures Execute(world, more) == Execute(world, steps).(ipc := after)
  {
    Extended(world, steps, Ipc(other));
    more := steps + [Ipc(other)];
  }

  function KindOfInsertion(world: World): C.Kind { C.Data(world.name(ID), C.Execution(Insert(Some("k"))), 0) }

  /** The insertion at a stage, with its call. */
  function At(world: World, s: W.State, ticket: I.Ticket, stage: W.Stage, ipc: C.State): Joint {
    Joint(I.WithInsertion(s, ID, ticket, stage), ipc, map[])
  }

  function Charged(world: World, ticket: I.Ticket): W.State { I.Charged(world.env, W.INITIAL, ID, ticket) }

  function Effect(s: W.State, effect: W.Effect): W.State { s.(effects := map[ID := effect]) }

  /** The runtime's own steps, up to the check of the cancellation token. */
  lemma IsChecked(world: World, ticket: I.Ticket) returns (steps: seq<Step>)
    requires I.AcceptsConfirmation(world.env, ticket)
    ensures Execute(world, steps) == At(world, W.INITIAL, ticket, W.Checked, C.INITIAL)
  {
    var s := W.INITIAL;
    I.InsertionIsChecked(world.env, s, ID, ticket);
    steps := [];
    assert Execute(world, steps) == INITIAL;
    var arrive := W.Arrive(ID, Insert(Some("k")), 0, "h", Some(I.Confirmation(ticket)), I.CONTEXT);
    steps := ByRuntime(world, steps, arrive, I.WithInsertion(s, ID, ticket, W.Admitted));
    steps := ByRuntime(world, steps, W.Authorize(ID), I.WithInsertion(s, ID, ticket, W.Cleared));
    steps := ByRuntime(world, steps, W.Activate(ID), I.WithInsertion(s, ID, ticket, W.Active));
    steps := ByRuntime(world, steps, W.CheckToken(ID), I.WithInsertion(s, ID, ticket, W.Checked));
  }

  /** On to the spent grant and the reserved key. */
  lemma IsReady(world: World, ticket: I.Ticket) returns (steps: seq<Step>)
    requires I.AcceptsConfirmation(world.env, ticket)
    ensures Execute(world, steps) == At(world, Charged(world, ticket), ticket, W.Ready, C.INITIAL)
  {
    var charged := Charged(world, ticket);
    I.InsertionIsCharged(world.env, W.INITIAL, ID, ticket);
    steps := IsChecked(world, ticket);
    var granted := I.WithInsertion(charged.(records := map[]), ID, ticket, W.Granted);
    steps := ByRuntime(world, steps, W.SpendGrant(ID, false, false), granted);
    steps := ByRuntime(world, steps, W.ReserveKey(ID, false, false), I.WithInsertion(charged, ID, ticket, W.Ready));
  }

  function Workers(world: World): map<nat, L.Lifecycle> {
    map[0 := L.Lifecycle(map[world.name(ID) := L.Active(0, false)], [])]
  }

  function Calling(world: World, wire: C.Wire, handovers: nat, workers: map<nat, L.Lifecycle>): C.State {
    C.FirstCall(CallOf(ID), C.SentCall(KindOfInsertion(world), wire, handovers), workers)
  }

  /** The call, up to the adapter and the database. */
  lemma IsHandedAndApplied(world: World, ticket: I.Ticket) returns (steps: seq<Step>)
    requires I.AcceptsConfirmation(world.env, ticket)
    ensures Execute(world, steps) ==
      At(world, Effect(Charged(world, ticket), W.Fired), ticket, W.Dispatched,
         Calling(world, C.Running(0, true), 1, Workers(world)))
  {
    var s := Charged(world, ticket);
    var c, kind := CallOf(ID), KindOfInsertion(world);
    steps := IsReady(world, ticket);
    C.FreshCallIsSent(c, kind, world.name(ID));
    C.FreshCallIsHanded(c, kind);
    I.InsertionIsApplied(world.env, s, ID, ticket);
    assert s.effects[ID := W.Live] == map[ID := W.Live] && s.effects[ID := W.Fired] == map[ID := W.Fired];
    steps := IsDispatched(world, steps, ticket);
    steps := ByWorkers(world, steps, C.Send(c), Calling(world, C.InPipe(0), 0, map[]));
    steps := ByWorkers(world, steps, C.Deliver(c, 1, false), Calling(world, C.Running(0, false), 0, Workers(world)));
    steps := ByWorkers(world, steps, C.Poll(c, 1, false), Calling(world, C.Running(0, true), 1, Workers(world)));
    Extended(world, steps, Reach(ID));
    steps := steps + [Reach(ID)];
  }

  lemma IsDispatched(world: World, steps: seq<Step>, ticket: I.Ticket) returns (more: seq<Step>)
    requires Execute(world, steps) == At(world, Charged(world, ticket), ticket, W.Ready, C.INITIAL)
    ensures Execute(world, more) ==
      At(world, Effect(Charged(world, ticket), W.Live), ticket, W.Dispatched,
         C.Next(C.INITIAL, C.StartCall(CallOf(ID), KindOfInsertion(world), world.name(ID))))
  {
    var s := Charged(world, ticket);
    I.InsertionIsApplied(world.env, s, ID, ticket);
    assert s.effects[ID := W.Live] == map[ID := W.Live];
    Extended(world, steps, Dispatch(ID, world.name(ID)));
    more := steps + [Dispatch(ID, world.name(ID))];
  }

  lemma AnswersOk(c: nat, kind: C.Kind, s: C.State)
    requires kind.Data? && c in s.calls && s.calls[c] == C.SentCall(kind, C.Running(0, true), 1)
    ensures var t := C.Next(s, C.Complete(c, 1, C.ReplyOk, false));
      && c in t.calls && t.calls[c].Handed() && t.calls[c].phase == C.Replied(C.ReplyOk)
      && t.calls[c].answer == C.FromAdapter(C.ReplyOk)
  {
  }

  const SUCCESS := W.Reporting(W.FinishSucceeded, W.Success)

  function Settled(s: W.State): W.State { s.(records := s.records[Slot(0, "k") := Record("h", Succeeded)]) }

  lemma SuccessIsHeard(env: W.Environment, s: W.State, ticket: I.Ticket)
    requires ID in s.effects && s.effects[ID] == W.Fired
    ensures W.Next(env, I.WithInsertion(s, ID, ticket, W.Dispatched), W.Answer(ID, W.AnswerOk))
      == I.WithInsertion(s, ID, ticket, SUCCESS)
  {
  }

  /** Success is recorded before the result is held against the limits. */
  lemma SuccessIsRecorded(env: W.Environment, s: W.State, ticket: I.Ticket)
    requires Slot(0, "k") in s.records && s.records[Slot(0, "k")] == Record("h", InFlight)
    ensures W.Next(env, I.WithInsertion(s, ID, ticket, SUCCESS), W.SettleRecord(ID, false))
      == I.WithInsertion(Settled(s), ID, ticket, W.Delivering)
  {
  }

  lemma ResultIsRefused(env: W.Environment, s: W.State, ticket: I.Ticket)
    ensures W.Next(env, I.WithInsertion(s, ID, ticket, W.Delivering), W.CheckResult(ID, false))
      == I.WithInsertion(s, ID, ticket, W.Done(W.ResultTooLarge))
  {
  }

  predicate RepliedOk(ipc: C.State) {
    && CallOf(ID) in ipc.calls && ipc.calls[CallOf(ID)].phase == C.Replied(C.ReplyOk)
    && ipc.calls[CallOf(ID)].answer == C.FromAdapter(C.ReplyOk)
  }

  predicate IsInFlight(s: W.State) {
    && ID in s.effects && s.effects[ID] == W.Fired
    && Slot(0, "k") in s.records && s.records[Slot(0, "k")] == Record("h", InFlight)
  }

  lemma IsAnswered(world: World, ticket: I.Ticket) returns (steps: seq<Step>, s: W.State, ipc: C.State)
    requires I.AcceptsConfirmation(world.env, ticket)
    ensures Execute(world, steps) == At(world, s, ticket, W.Dispatched, ipc) && RepliedOk(ipc) && IsInFlight(s)
  {
    steps := IsHandedAndApplied(world, ticket);
    s := Effect(Charged(world, ticket), W.Fired);
    var before := Calling(world, C.Running(0, true), 1, Workers(world));
    var complete := C.Complete(CallOf(ID), 1, C.ReplyOk, false);
    AnswersOk(CallOf(ID), KindOfInsertion(world), before);
    ipc := C.Next(before, complete);
    steps := ByWorkers(world, steps, complete, ipc);
  }

  lemma IsHeard(world: World, steps: seq<Step>, s: W.State, ticket: I.Ticket, ipc: C.State) returns (more: seq<Step>)
    requires Execute(world, steps) == At(world, s, ticket, W.Dispatched, ipc) && RepliedOk(ipc) && IsInFlight(s)
    ensures Execute(world, more) == At(world, s, ticket, SUCCESS, ipc)
  {
    SuccessIsHeard(world.env, s, ticket);
    Extended(world, steps, Hear(ID));
    more := steps + [Hear(ID)];
  }

  lemma IsRefused(world: World, steps: seq<Step>, s: W.State, ticket: I.Ticket, ipc: C.State, content: M.Result)
    requires Execute(world, steps) == At(world, s, ticket, W.Delivering, ipc)
    requires !M.Presentable(content, world.limits(ID))
    ensures Execute(world, steps + [Check(ID, content)]) ==
      Joint(I.WithInsertion(s, ID, ticket, W.Done(W.ResultTooLarge)), ipc, map[ID := content])
  {
    ResultIsRefused(world.env, s, ticket);
    Extended(world, steps, Check(ID, content));
  }

  /**
   Whatever result does not fit the limits: there is a run in which the write is applied, its adapter answers with
   success and its key is settled as succeeded, while its caller is told of an error.
   */
  lemma AppliedWriteIsReportedAsError(world: World, ticket: I.Ticket, content: M.Result) returns (steps: seq<Step>)
    requires I.AcceptsConfirmation(world.env, ticket) && !M.Presentable(content, world.limits(ID))
    ensures var j := Execute(world, steps);
      && W.Applied(j.runtime, ID) && ID in j.runtime.requests && WriteAction(j.runtime.requests[ID].op)
      && j.runtime.requests[ID].stage == W.Done(W.ResultTooLarge)
      && CallOf(ID) in j.ipc.calls && j.ipc.calls[CallOf(ID)].answer == C.FromAdapter(C.ReplyOk)
      && Slot(0, "k") in j.runtime.records && j.runtime.records[Slot(0, "k")].state == Succeeded
  {
    var s, ipc;
    steps, s, ipc := IsAnswered(world, ticket);
    steps := IsHeard(world, steps, s, ticket, ipc);
    SuccessIsRecorded(world.env, s, ticket);
    steps := ByRuntime(world, steps, W.SettleRecord(ID, false), I.WithInsertion(Settled(s), ID, ticket, W.Delivering));
    IsRefused(world, steps, Settled(s), ticket, ipc, content);
    steps := steps + [Check(ID, content)];
  }
}

/** How long a cancellation that a worker has read keeps its adapters from the id, over whole runs. */
module WorkerShield {
  import opened WorkerLifecycle
  import opened CancelProtocol
  import opened CancelBarrier

  /** What a step does to the bookkeeping of worker g. */
  function OpsOn(s: State, step: Step, g: nat): seq<WorkerLifecycle.Operation> {
    if step.Invalidate? then (if step.generation == g then [OpCancelConnection(step.connection)] else [])
    else if !Enabled(s, step) then []
    else
      match step
      case Deliver(c, a, busy) => if s.calls[c].WireOf(a).generation == g then DeliveryOps(s, s.calls[c].kind, g, busy)
        else []
      case Poll(c, a, _) =>
        if s.calls[c].WireOf(a).generation == g && Token(s, g, s.calls[c].kind.id)
        then [OpFinish(s.calls[c].kind.id, s.now)]
        else []
      case Complete(c, a, _, _) =>
        if s.calls[c].WireOf(a).generation == g then [OpFinish(s.calls[c].kind.id, s.now)] else []
      case _ => []
  }

  function DeliveryOps(s: State, kind: Kind, g: nat, busy: bool): seq<WorkerLifecycle.Operation> {
    match kind
    case CancelCall(target) => [OpCancel(target, s.now)]
    case Data(id, _, connection) =>
      var begin := OpBegin(id, connection, s.now);
      if Begin(Life(s, g), id, connection, s.now).1 == Begun && busy then [begin, OpFinish(id, s.now)] else [begin]
  }

  lemma ApplyOne(l: Lifecycle, op: WorkerLifecycle.Operation)
    ensures ApplyAll(l, [op]) == Apply(l, op)
  {
    assert [op][..0] == [];
  }

  lemma ApplyTwo(l: Lifecycle, op: WorkerLifecycle.Operation, next: WorkerLifecycle.Operation)
    ensures ApplyAll(l, [op, next]) == Apply(Apply(l, op), next)
  {
    assert [op, next][..1] == [op];
    ApplyOne(l, op);
  }

  lemma DeliveryFollows(s: State, kind: Kind, g: nat, busy: bool)
    ensures WorkerAfterDelivery(s, kind, g, busy) == ApplyAll(Life(s, g), DeliveryOps(s, kind, g, busy))
  {
    match kind
    case CancelCall(target) => ApplyOne(Life(s, g), OpCancel(target, s.now));
    case Data(id, _, connection) =>
      ApplyOne(Life(s, g), OpBegin(id, connection, s.now));
      ApplyTwo(Life(s, g), OpBegin(id, connection, s.now), OpFinish(id, s.now));
  }

  /** A worker's bookkeeping changes by the operations of its lifecycle and by nothing else. */
  lemma LifeFollows(s: State, step: Step, g: nat)
    ensures Life(Next(s, step), g) == ApplyAll(Life(s, g), OpsOn(s, step, g))
  {
    if step.Invalidate? {
      ApplyOne(Life(s, g), OpCancelConnection(step.connection));
    } else if Enabled(s, step) {
      EnabledFollows(s, step, g);
      assert Life(Next(s, step), g) == Life(Around(s, step), g);
    }
  }

  lemma EnabledFollows(s: State, step: Step, g: nat)
    requires Enabled(s, step)
    ensures Life(Around(s, step), g) == ApplyAll(Life(s, g), OpsOn(s, step, g))
  {
    match step
    case Deliver(c, a, busy) => DeliveryFollows(s, s.calls[c].kind, g, busy);
    case Poll(c, a, _) => ApplyOne(Life(s, g), OpFinish(s.calls[c].kind.id, s.now));
    case Complete(c, a, _, _) => ApplyOne(Life(s, g), OpFinish(s.calls[c].kind.id, s.now));
    case _ =>
  }

  lemma {:induction false} ApplyAllIsConsistent(l: Lifecycle, ops: seq<WorkerLifecycle.Operation>)
    requires Consistent(l)
    ensures Consistent(ApplyAll(l, ops))
  {
    if ops != [] {
      ApplyAllIsConsistent(l, ops[..|ops| - 1]);
      ApplyIsConsistent(ApplyAll(l, ops[..|ops| - 1]), ops[|ops| - 1]);
    }
  }

  /** In every run every worker's tombstones are listed once, within capacity, and apart from its running calls. */
  lemma {:induction false} WorkersConsistentAlways(steps: seq<Step>, g: nat)
    ensures Consistent(Life(Execute(INITIAL, steps), g))
  {
    if steps != [] {
      var s := Execute(INITIAL, steps[..|steps| - 1]);
      WorkersConsistentAlways(steps[..|steps| - 1], g);
      LifeFollows(s, steps[|steps| - 1], g);
      ApplyAllIsConsistent(Life(s, g), OpsOn(s, steps[|steps| - 1], g));
    }
  }

  /** The tombstones that operations insert. */
  function PushCount(l: Lifecycle, ops: seq<WorkerLifecycle.Operation>): nat {
    if ops == [] then 0
    else PushCount(l, ops[..|ops| - 1]) + Pushes(ApplyAll(l, ops[..|ops| - 1]), ops[|ops| - 1])
  }

  lemma {:induction false} ForceKeptByAll(l: Lifecycle, ops: seq<WorkerLifecycle.Operation>, id: RequestId, born: nat,
    newer: nat)
    requires InForce(l, id, born, newer) && newer + PushCount(l, ops) < MAX_CANCEL_TOMBSTONES
    requires forall i :: 0 <= i < |ops| ==> Within(ops[i], born)
    ensures InForce(ApplyAll(l, ops), id, born, newer + PushCount(l, ops))
  {
    if ops != [] {
      var n := |ops| - 1;
      ForceKeptByAll(l, ops[..n], id, born, newer);
      ForceKept(ApplyAll(l, ops[..n]), ops[n], id, born, newer + PushCount(l, ops[..n]));
    }
  }

  /** The tombstones that worker g inserts during a run. */
  function InsertedIn(s: State, more: seq<Step>, g: nat): nat {
    if more == [] then 0
    else
      var before := Execute(s, more[..|more| - 1]);
      InsertedIn(s, more[..|more| - 1], g) + PushCount(Life(before, g), OpsOn(before, more[|more| - 1], g))
  }

  lemma TimeGoesOn(s: State, step: Step)
    ensures s.now <= Next(s, step).now
  {
  }

  lemma {:induction false} TimeGoesOnInRun(s: State, more: seq<Step>)
    ensures s.now <= Execute(s, more).now
  {
    if more != [] {
      var n := |more| - 1;
      TimeGoesOnInRun(s, more[..n]);
      TimeGoesOn(Execute(s, more[..n]), more[n]);
    }
  }

  lemma {:induction false} LaterInRun(s: State, more: seq<Step>, k: nat, g: nat)
    requires k <= |more|
    ensures Execute(s, more[..k]).now <= Execute(s, more).now
    ensures InsertedIn(s, more[..k], g) <= InsertedIn(s, more, g)
    decreases |more|
  {
    if k == |more| {
      assert more[..k] == more;
    } else {
      var n := |more| - 1;
      LaterInRun(s, more[..n], k, g);
      assert more[..n][..k] == more[..k];
      TimeGoesOn(Execute(s, more[..n]), more[n]);
    }
  }

  lemma OpsAreWithin(s: State, step: Step, g: nat, born: nat)
    requires born <= s.now < born + CANCEL_TOMBSTONE_TTL
    ensures forall i :: 0 <= i < |OpsOn(s, step, g)| ==> Within(OpsOn(s, step, g)[i], born)
  {
  }

  /** A cancellation stays in force until its time is over or 4096 tombstones have come behind it. */
  lemma {:induction false} ForceLasts(s: State, more: seq<Step>, g: nat, id: RequestId, born: nat, newer: nat)
    requires InForce(Life(s, g), id, born, newer) && born <= s.now
    requires Execute(s, more).now < born + CANCEL_TOMBSTONE_TTL
    requires newer + InsertedIn(s, more, g) < MAX_CANCEL_TOMBSTONES
    ensures InForce(Life(Execute(s, more), g), id, born, newer + InsertedIn(s, more, g))
    decreases |more|
  {
    if more != [] {
      var n := |more| - 1;
      var before := Execute(s, more[..n]);
      TimeGoesOnInRun(s, more[..n]);
      LaterInRun(s, more, n, g);
      ForceLasts(s, more[..n], g, id, born, newer);
      LifeFollows(before, more[n], g);
      OpsAreWithin(before, more[n], g, born);
      ForceKeptByAll(Life(before, g), OpsOn(before, more[n], g), id, born, newer + InsertedIn(s, more[..n], g));
    }
  }

  lemma ForceShields(s: State, g: nat, id: RequestId, born: nat, newer: nat)
    requires InForce(Life(s, g), id, born, newer) && s.now < born + CANCEL_TOMBSTONE_TTL
    ensures Shielded(s, g, id)
  {
    if id !in Life(s, g).active {
      PruneKeepsSince(Life(s, g).order, id, born, newer, s.now);
    }
  }

  /** Worker g reads a cancellation of this id. */
  predicate ReadsCancel(s: State, step: Step, g: nat, id: RequestId) {
    && step.Deliver? && Enabled(s, step)
    && s.calls[step.c].kind == CancelCall(id) && s.calls[step.c].WireOf(step.attempt).generation == g
  }

  /**
   Since when the cancellation read in this state counts, and how many tombstones are behind it: from now on with
   none, unless the worker still holds an earlier tombstone of the id, which is not renewed.
   */
  predicate CountsFrom(s: State, g: nat, id: RequestId, born: nat, newer: nat) {
    var l := Life(s, g);
    if id in l.active || !Buried(Pruned(l.order, s.now), id) then born == s.now && newer == 0
    else born <= s.now && BuriedSince(Pruned(l.order, s.now), id, born, newer)
  }

  /**
   A cancellation that worker g has read shields the id for the whole time to live, as long as the worker inserts
   fewer than 4096 tombstones behind it, whatever else happens in the run.
   */
  lemma ShieldLasts(steps: seq<Step>, read: Step, more: seq<Step>, g: nat, id: RequestId, born: nat, newer: nat)
    requires ReadsCancel(Execute(INITIAL, steps), read, g, id)
    requires CountsFrom(Execute(INITIAL, steps), g, id, born, newer)
    requires var s := Next(Execute(INITIAL, steps), read);
      && Execute(s, more).now < born + CANCEL_TOMBSTONE_TTL
      && newer + InsertedIn(s, more, g) < MAX_CANCEL_TOMBSTONES
    ensures Shielded(Execute(Next(Execute(INITIAL, steps), read), more), g, id)
  {
    var s0 := Execute(INITIAL, steps);
    var s := Next(s0, read);
    WorkersConsistentAlways(steps, g);
    CancelIsInForce(Life(s0, g), id, s0.now);
    LifeFollows(s0, read, g);
    ApplyOne(Life(s0, g), OpCancel(id, s0.now));
    ForceLasts(s, more, g, id, born, newer);
    ForceShields(Execute(s, more), g, id, born, newer + InsertedIn(s, more, g));
  }

  /** After a cancellation was read and within that time, every attempt in this worker is stopped. */
  lemma CancelledAttemptIsStopped(steps: seq<Step>, read: Step, more: seq<Step>, g: nat, id: RequestId, born: nat,
    newer: nat,
                                  c: nat, a: nat, busy: bool, raced: bool)
    requires ReadsCancel(Execute(INITIAL, steps), read, g, id)
    requires CountsFrom(Execute(INITIAL, steps), g, id, born, newer)
    requires var s := Next(Execute(INITIAL, steps), read);
      && Execute(s, more).now < born + CANCEL_TOMBSTONE_TTL
      && newer + InsertedIn(s, more, g) < MAX_CANCEL_TOMBSTONES
      && DataCallFor(Execute(s, more), c, id) && Attempt(a)
    ensures var s := Execute(Next(Execute(INITIAL, steps), read), more);
      match s.calls[c].WireOf(a)
      case Unsent => true
      case Over => true
      case InPipe(h) => h == g ==> Next(s, Deliver(c, a, busy)).calls[c].WireOf(a) == Over
      case Running(h, handed) => h == g ==>
        Token(s, g, id) && (!handed ==> Next(s, Poll(c, a, raced)).calls[c].WireOf(a) == Over)
  {
    ShieldLasts(steps, read, more, g, id, born, newer);
    var all := steps + [read] + more;
    RunWithRead(steps, read, more);
    ShieldedAttemptIsStopped(all, c, a, g, id, busy, raced);
  }

  lemma RunWithRead(steps: seq<Step>, read: Step, more: seq<Step>)
    ensures Execute(INITIAL, steps + [read]) == Next(Execute(INITIAL, steps), read)
    ensures Execute(INITIAL, steps + [read] + more) == Execute(Next(Execute(INITIAL, steps), read), more)
  {
    assert (steps + [read])[..|steps|] == steps;
    ExecuteConcat(INITIAL, steps + [read], more);
  }

  /**
   After a cancellation was read and within that time, the worker's adapters are handed no further call for the id.
   */
  lemma NoHandoverAfterCancel(steps: seq<Step>, read: Step, more: seq<Step>, g: nat, id: RequestId, born: nat,
    newer: nat,
                              c: nat, a: nat)
    requires ReadsCancel(Execute(INITIAL, steps), read, g, id)
    requires CountsFrom(Execute(INITIAL, steps), g, id, born, newer)
    requires var s := Next(Execute(INITIAL, steps), read);
      && Execute(s, more).now < born + CANCEL_TOMBSTONE_TTL
      && newer + InsertedIn(s, more, g) < MAX_CANCEL_TOMBSTONES
      && HandedIn(Execute(s, more), c, a, g, id)
    ensures HandedIn(Next(Execute(INITIAL, steps), read), c, a, g, id)
  {
    var s := Next(Execute(INITIAL, steps), read);
    RunWithRead(steps, read, more);
    forall n | 0 <= n <= |more| ensures Shielded(Execute(s, more[..n]), g, id) {
      LaterInRun(s, more, n, g);
      ShieldLasts(steps, read, more[..n], g, id, born, newer);
    }
    NoHandoverWhileShielded(steps + [read], more, c, a, g, id);
  }
}

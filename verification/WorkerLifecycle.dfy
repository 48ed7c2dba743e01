/**
 A worker's bookkeeping of running data calls and of cancellations that arrived while no call with
 that id was running (tombstones).
 */
module WorkerLifecycle {

  type RequestId = string

  const MAX_CANCEL_TOMBSTONES: nat := 4_096
  const CANCEL_TOMBSTONE_TTL: nat := 300_000   // five minutes, in milliseconds

  datatype Active = Active(connection: nat, cancelled: bool)

  datatype Tombstone = Tombstone(id: RequestId, created: nat)

  /** The abstract state: running calls, and tombstones oldest-inserted first. */
  datatype Lifecycle = Lifecycle(active: map<RequestId, Active>, order: seq<Tombstone>)

  const IDLE := Lifecycle(map[], [])

  datatype BeginResult = Begun | AlreadyActive | Cancelled

  function Age(t: Tombstone, now: nat): nat { if now >= t.created then now - t.created else 0 }

  predicate Buried(order: seq<Tombstone>, id: RequestId) { exists i :: 0 <= i < |order| && order[i].id == id }

  predicate Distinct(order: seq<Tombstone>) {
    forall i, j :: 0 <= i < j < |order| ==> order[i].id != order[j].id
  }

  /** Each tombstone is listed once, within capacity, and never for a running call. */
  ghost predicate Consistent(l: Lifecycle) {
    && Distinct(l.order)
    && |l.order| <= MAX_CANCEL_TOMBSTONES
    && forall id :: id in l.active ==> !Buried(l.order, id)
  }

  // ---------------------------------------------------------------- what each operation does

  function Pruned(order: seq<Tombstone>, now: nat): seq<Tombstone> {
    if order != [] && Age(order[0], now) >= CANCEL_TOMBSTONE_TTL then Pruned(order[1..], now) else order
  }

  function Trimmed(order: seq<Tombstone>): seq<Tombstone> {
    if |order| >= MAX_CANCEL_TOMBSTONES then order[|order| - (MAX_CANCEL_TOMBSTONES - 1)..] else order
  }

  function Inserted(order: seq<Tombstone>, id: RequestId, created: nat): seq<Tombstone> {
    if Buried(order, id) then order else Trimmed(order) + [Tombstone(id, created)]
  }

  function Begin(l: Lifecycle, id: RequestId, connection: nat, now: nat): (Lifecycle, BeginResult) {
    var p := l.(order := Pruned(l.order, now));
    if id in l.active then (p, AlreadyActive)
    else if Buried(p.order, id) then (p, Cancelled)
    else (p.(active := p.active[id := Active(connection, false)]), Begun)
  }

  function Cancel(l: Lifecycle, id: RequestId, now: nat): Lifecycle {
    var p := l.(order := Pruned(l.order, now));
    if id in p.active then p.(active := p.active[id := p.active[id].(cancelled := true)])
    else p.(order := Inserted(p.order, id, now))
  }

  function CancelConnection(l: Lifecycle, connection: nat): Lifecycle {
    l.(active := map id | id in l.active ::
      if l.active[id].connection == connection then l.active[id].(cancelled := true) else l.active[id])
  }

  function Finish(l: Lifecycle, id: RequestId, now: nat): Lifecycle {
    if id !in l.active then l else
      var rest := l.(active := l.active - {id});
      if l.active[id].cancelled then rest.(order := Inserted(Pruned(l.order, now), id, now)) else rest
  }

  lemma {:induction false} PrunedIsSuffix(order: seq<Tombstone>, now: nat)
    ensures |Pruned(order, now)| <= |order|
    ensures Pruned(order, now) == order[|order| - |Pruned(order, now)|..]
    ensures forall i :: 0 <= i < |order| - |Pruned(order, now)| ==> Age(order[i], now) >= CANCEL_TOMBSTONE_TTL
  {
    if order != [] && Age(order[0], now) >= CANCEL_TOMBSTONE_TTL { PrunedIsSuffix(order[1..], now); }
  }

  /** Pruning drops tombstones from the front until the first that is younger than five minutes. */
  lemma {:induction false} PrunedIsExpiredFront(order: seq<Tombstone>, now: nat, i: nat)
    requires i < |order|
    ensures i < |order| - |Pruned(order, now)| <==> forall j :: 0 <= j <= i ==> order[j].created + 300_000 <= now
    ensures |Pruned(order, now)| <= |order|
  {
    PrunedIsSuffix(order, now);
    var gone := |order| - |Pruned(order, now)|;
    FirstKeptIsYoung(order, now);
    if gone <= i { assert order[gone].created + 300_000 > now; }
  }

  lemma {:induction false} FirstKeptIsYoung(order: seq<Tombstone>, now: nat)
    ensures Pruned(order, now) != [] ==> Pruned(order, now)[0].created + 300_000 > now
  {
    if order != [] && Age(order[0], now) >= CANCEL_TOMBSTONE_TTL { FirstKeptIsYoung(order[1..], now); }
  }

  /** Fewer than 4096 tombstones stay, and there is room for one more. */
  lemma TrimmedLeavesRoom(order: seq<Tombstone>)
    ensures |Trimmed(order)| < 4_096 && Trimmed(order) == order[|order| - |Trimmed(order)|..]
    ensures |order| < 4_096 ==> Trimmed(order) == order
    ensures |order| >= 4_096 ==> |Trimmed(order)| == 4_095
  {
  }

  lemma InsertedIsConsistent(l: Lifecycle, id: RequestId, now: nat)
    requires Consistent(l) && id !in l.active
    ensures Consistent(l.(order := Inserted(l.order, id, now)))
    ensures Buried(Inserted(l.order, id, now), id)
  {
    var o := Inserted(l.order, id, now);
    if !Buried(l.order, id) {
      assert o[|o| - 1].id == id;
    }
  }

  lemma PrunedIsConsistent(l: Lifecycle, now: nat)
    requires Consistent(l)
    ensures Consistent(l.(order := Pruned(l.order, now)))
  {
    PrunedIsSuffix(l.order, now);
  }

  // ---------------------------------------------------------------- the worker's own structure

  /** A map and a queue that hold the same tombstones. */
  ghost predicate Agrees(cancelled: map<RequestId, nat>, order: seq<Tombstone>) {
    QueueInMap(cancelled, order) && MapInQueue(cancelled, order) && |cancelled| == |order|
  }

  predicate QueueInMap(cancelled: map<RequestId, nat>, order: seq<Tombstone>) {
    forall i :: 0 <= i < |order| ==> OnFile(cancelled, order[i])
  }

  predicate OnFile(cancelled: map<RequestId, nat>, t: Tombstone) { t.id in cancelled && cancelled[t.id] == t.created }

  predicate MapInQueue(cancelled: map<RequestId, nat>, order: seq<Tombstone>) {
    forall id :: id in cancelled ==> Buried(order, id)
  }

  lemma AgreesAfterPop(cancelled: map<RequestId, nat>, order: seq<Tombstone>)
    requires Agrees(cancelled, order) && Distinct(order) && order != []
    ensures Agrees(cancelled - {order[0].id}, order[1..])
  {
    var rest := cancelled - {order[0].id};
    assert OnFile(cancelled, order[0]);
    forall id | id in rest ensures Buried(order[1..], id) {
      var i :| 0 <= i < |order| && order[i].id == id;
      assert order[1..][i - 1].id == id;
    }
    forall i | 0 <= i < |order[1..]| ensures OnFile(rest, order[1..][i]) {
      assert order[1..][i] == order[i + 1] && OnFile(cancelled, order[i + 1]);
    }
    assert rest.Keys == cancelled.Keys - {order[0].id};
  }

  lemma AgreesAfterPush(cancelled: map<RequestId, nat>, order: seq<Tombstone>, t: Tombstone)
    requires Agrees(cancelled, order) && t.id !in cancelled
    ensures Agrees(cancelled[t.id := t.created], order + [t])
  {
    MapAfterPush(cancelled, order, t);
    QueueAfterPush(cancelled, order, t);
    SizeAfterPush(cancelled, t);
  }

  lemma SizeAfterPush(cancelled: map<RequestId, nat>, t: Tombstone)
    requires t.id !in cancelled
    ensures |cancelled[t.id := t.created]| == |cancelled| + 1
  {
    assert cancelled[t.id := t.created].Keys == cancelled.Keys + {t.id};
  }

  lemma MapAfterPush(cancelled: map<RequestId, nat>, order: seq<Tombstone>, t: Tombstone)
    requires MapInQueue(cancelled, order)
    ensures MapInQueue(cancelled[t.id := t.created], order + [t])
  {
    forall id | id in cancelled[t.id := t.created] ensures Buried(order + [t], id) {
      BuriedInLonger(order, t, id);
    }
  }

  lemma QueueAfterPush(cancelled: map<RequestId, nat>, order: seq<Tombstone>, t: Tombstone)
    requires QueueInMap(cancelled, order) && t.id !in cancelled
    ensures QueueInMap(cancelled[t.id := t.created], order + [t])
  {
    forall i | 0 <= i < |order + [t]| ensures OnFile(cancelled[t.id := t.created], (order + [t])[i]) {
      if i < |order| {
        assert (order + [t])[i] == order[i] && OnFile(cancelled, order[i]);
      }
    }
  }

  lemma BuriedInLonger(order: seq<Tombstone>, t: Tombstone, id: RequestId)
    requires Buried(order, id) || id == t.id
    ensures Buried(order + [t], id)
  {
    var longer := order + [t];
    if id == t.id {
      assert longer[|order|].id == id;
    } else {
      var i :| 0 <= i < |order| && order[i].id == id;
      assert longer[i].id == id;
    }
  }

  lemma TrimmedAfterPop(order: seq<Tombstone>)
    requires |order| >= MAX_CANCEL_TOMBSTONES
    ensures Trimmed(order[1..]) == Trimmed(order)
  {}

  class RequestLifecycleState {
    var active: map<RequestId, Active>
    var cancelled: map<RequestId, nat>
    var cancelledOrder: seq<Tombstone>

    ghost function Abstract(): Lifecycle reads this { Lifecycle(active, cancelledOrder) }

    ghost predicate Valid()
      reads this
      ensures Valid() ==> |cancelled| == |cancelledOrder| <= MAX_CANCEL_TOMBSTONES
    {
      Consistent(Abstract()) && Agrees(cancelled, cancelledOrder)
    }

    constructor ()
      ensures Valid() && Abstract() == IDLE
    {
      active, cancelled, cancelledOrder := map[], map[], [];
    }

    method PopOldest()
      requires Valid() && cancelledOrder != []
      modifies this`cancelled, this`cancelledOrder
      ensures Valid() && cancelledOrder == old(cancelledOrder)[1..]
    {
      AgreesAfterPop(cancelled, cancelledOrder);
      var oldest := cancelledOrder[0];
      cancelledOrder := cancelledOrder[1..];
      cancelled := cancelled - {oldest.id};
    }

    method PruneCancelled(now: nat)
      requires Valid()
      modifies this`cancelled, this`cancelledOrder
      ensures Valid() && cancelledOrder == Pruned(old(cancelledOrder), now)
    {
      while cancelledOrder != [] && Age(cancelledOrder[0], now) >= CANCEL_TOMBSTONE_TTL
        invariant Valid() && active == old(active)
        invariant Pruned(cancelledOrder, now) == Pruned(old(cancelledOrder), now)
        decreases |cancelledOrder|
      {
        PopOldest();
      }
    }

    method MakeRoom()
      requires Valid()
      modifies this`cancelled, this`cancelledOrder
      ensures Valid() && cancelledOrder == Trimmed(old(cancelledOrder))
    {
      while |cancelled| >= MAX_CANCEL_TOMBSTONES
        invariant Valid() && active == old(active)
        invariant Trimmed(cancelledOrder) == Trimmed(old(cancelledOrder))
        decreases |cancelledOrder|
      {
        TrimmedAfterPop(cancelledOrder);
        PopOldest();
      }
    }

    method InsertCancelled(id: RequestId, created: nat)
      requires Valid() && id !in active
      modifies this`cancelled, this`cancelledOrder
      ensures Valid() && cancelledOrder == Inserted(old(cancelledOrder), id, created)
    {
      if id in cancelled { return; }
      InsertedIsConsistent(Abstract(), id, created);
      MakeRoom();
      assert id !in cancelled;
      AgreesAfterPush(cancelled, cancelledOrder, Tombstone(id, created));
      cancelled := cancelled[id := created];
      cancelledOrder := cancelledOrder + [Tombstone(id, created)];
    }

    method BeginCall(id: RequestId, connection: nat, now: nat) returns (result: BeginResult)
      requires Valid()
      modifies this
      ensures Valid() && (Abstract(), result) == Begin(old(Abstract()), id, connection, now)
    {
      PruneCancelled(now);
      if id in active { return AlreadyActive; }
      assert id in cancelled <==> Buried(cancelledOrder, id);
      if id in cancelled { return Cancelled; }
      active := active[id := Active(connection, false)];
      return Begun;
    }

    method CancelCall(id: RequestId, now: nat)
      requires Valid()
      modifies this
      ensures Valid() && Abstract() == Cancel(old(Abstract()), id, now)
    {
      PruneCancelled(now);
      if id in active {
        active := active[id := active[id].(cancelled := true)];
      } else {
        InsertCancelled(id, now);
      }
    }

    method CancelCallsOf(connection: nat)
      requires Valid()
      modifies this`active
      ensures Valid() && Abstract() == CancelConnection(old(Abstract()), connection)
    {
      active := map id | id in active ::
        if active[id].connection == connection then active[id].(cancelled := true) else active[id];
    }

    method FinishCall(id: RequestId, now: nat)
      requires Valid()
      modifies this
      ensures Valid() && Abstract() == Finish(old(Abstract()), id, now)
    {
      if id in active {
        var wasCancelled := active[id].cancelled;
        active := active - {id};
        if wasCancelled {
          PruneCancelled(now);
          InsertCancelled(id, now);
        }
      }
    }
  }

  // ---------------------------------------------------------------- how long a tombstone lasts

  /** How many tombstones were inserted after this one. */
  ghost predicate BuriedWith(order: seq<Tombstone>, t: Tombstone, newer: nat) {
    newer < |order| && order[|order| - 1 - newer] == t
  }

  lemma PruneKeepsYoung(order: seq<Tombstone>, t: Tombstone, newer: nat, now: nat)
    requires BuriedWith(order, t, newer) && Age(t, now) < CANCEL_TOMBSTONE_TTL
    ensures BuriedWith(Pruned(order, now), t, newer)
  {
    PrunedIsSuffix(order, now);
  }

  /** Capacity removes only the oldest-inserted tombstone, and only when 4096 are held. */
  lemma InsertKeepsAllButOldest(order: seq<Tombstone>, t: Tombstone, newer: nat, id: RequestId, now: nat)
    requires BuriedWith(order, t, newer) && |order| <= MAX_CANCEL_TOMBSTONES
    ensures
      || BuriedWith(Inserted(order, id, now), t, newer)
      || BuriedWith(Inserted(order, id, now), t, newer + 1)
      || (|order| == MAX_CANCEL_TOMBSTONES && newer == MAX_CANCEL_TOMBSTONES - 1 && order[0] == t)
  {}

  datatype Operation =
    | OpBegin(id: RequestId, connection: nat, now: nat)
    | OpCancel(id: RequestId, now: nat)
    | OpCancelConnection(connection: nat)
    | OpFinish(id: RequestId, now: nat)

  function Apply(l: Lifecycle, op: Operation): Lifecycle {
    match op
    case OpBegin(id, connection, now) => Begin(l, id, connection, now).0
    case OpCancel(id, now) => Cancel(l, id, now)
    case OpCancelConnection(connection) => CancelConnection(l, connection)
    case OpFinish(id, now) => Finish(l, id, now)
  }

  function ApplyAll(l: Lifecycle, ops: seq<Operation>): Lifecycle {
    if ops == [] then l else Apply(ApplyAll(l, ops[..|ops| - 1]), ops[|ops| - 1])
  }

  lemma ApplyIsConsistent(l: Lifecycle, op: Operation)
    requires Consistent(l)
    ensures Consistent(Apply(l, op))
  {
    match op
    case OpBegin(_, _, now) => PrunedIsConsistent(l, now);
    case OpCancel(id, now) =>
      PrunedIsConsistent(l, now);
      if id !in l.active { InsertedIsConsistent(l.(order := Pruned(l.order, now)), id, now); }
    case OpCancelConnection(_) =>
    case OpFinish(id, now) =>
      if id in l.active && l.active[id].cancelled {
        PrunedIsConsistent(l, now);
        InsertedIsConsistent(Lifecycle(l.active - {id}, Pruned(l.order, now)), id, now);
      }
  }

  lemma {:induction false} AlwaysConsistent(ops: seq<Operation>)
    ensures Consistent(ApplyAll(IDLE, ops)) && |ApplyAll(IDLE, ops).order| <= 4_096
  {
    if ops != [] {
      AlwaysConsistent(ops[..|ops| - 1]);
      ApplyIsConsistent(ApplyAll(IDLE, ops[..|ops| - 1]), ops[|ops| - 1]);
    }
  }

  /** No operation looks at the clock when this tombstone is old enough to be pruned. */
  predicate TooYoung(t: Tombstone, op: Operation) { op.OpCancelConnection? || Age(t, op.now) < CANCEL_TOMBSTONE_TTL }

  lemma ApplyKeepsYoung(l: Lifecycle, t: Tombstone, newer: nat, op: Operation)
    requires Consistent(l) && BuriedWith(l.order, t, newer) && TooYoung(t, op)
    requires newer + 1 < MAX_CANCEL_TOMBSTONES
    ensures BuriedWith(Apply(l, op).order, t, newer) || BuriedWith(Apply(l, op).order, t, newer + 1)
  {
    if !op.OpCancelConnection? {
      PruneKeepsYoung(l.order, t, newer, op.now);
      PrunedIsConsistent(l, op.now);
      InsertKeepsAllButOldest(Pruned(l.order, op.now), t, newer, op.id, op.now);
    }
  }

  /**
   A tombstone younger than the TTL survives any run of fewer than 4096 - newer operations, newer
   being the number of tombstones inserted after it; so it is lost to capacity only as the oldest.
   */
  lemma {:induction false} TombstoneSurvives(l: Lifecycle, t: Tombstone, newer: nat, ops: seq<Operation>)
    returns (after: nat)
    requires Consistent(l) && BuriedWith(l.order, t, newer)
    requires forall i :: 0 <= i < |ops| ==> TooYoung(t, ops[i])
    requires newer + |ops| < MAX_CANCEL_TOMBSTONES
    ensures Consistent(ApplyAll(l, ops))
    ensures BuriedWith(ApplyAll(l, ops).order, t, after) && newer <= after <= newer + |ops|
  {
    if ops == [] {
      after := newer;
    } else {
      var n := |ops| - 1;
      after := TombstoneSurvives(l, t, newer, ops[..n]);
      var m := ApplyAll(l, ops[..n]);
      ApplyIsConsistent(m, ops[n]);
      ApplyKeepsYoung(m, t, after, ops[n]);
      if !BuriedWith(Apply(m, ops[n]).order, t, after) { after := after + 1; }
    }
  }

  /** In every reachable state: a young tombstone that an operation loses was the oldest of 4096. */
  lemma LostOnlyAsOldest(ops: seq<Operation>, op: Operation, t: Tombstone)
    requires var l := ApplyAll(IDLE, ops); t in l.order && t !in Apply(l, op).order && TooYoung(t, op)
    ensures var l := ApplyAll(IDLE, ops); |l.order| == MAX_CANCEL_TOMBSTONES && l.order[0] == t
  {
    AlwaysConsistent(ops);
    var l := ApplyAll(IDLE, ops);
    var i :| 0 <= i < |l.order| && l.order[i] == t;
    var newer := |l.order| - 1 - i;
    assert BuriedWith(l.order, t, newer);
    if newer + 1 < MAX_CANCEL_TOMBSTONES {
      ApplyKeepsYoung(l, t, newer, op);
    }
  }

  // ---------------------------------------------------------------- how long a cancellation lasts

  /** The operation adds a tombstone. */
  function Pushes(l: Lifecycle, op: Operation): nat {
    match op
    case OpCancel(id, now) => if id !in l.active && !Buried(Pruned(l.order, now), id) then 1 else 0
    case OpFinish(id, now) =>
      if id in l.active && l.active[id].cancelled && !Buried(Pruned(l.order, now), id) then 1 else 0
    case _ => 0
  }

  /** The id has a tombstone created at `born` or later with at most `newer` tombstones inserted after it. */
  predicate BuriedSince(order: seq<Tombstone>, id: RequestId, born: nat, newer: nat) {
    exists i :: 0 <= i < |order| && order[i].id == id && order[i].created >= born && |order| - 1 - i <= newer
  }

  /** A cancellation is in force: the running call's token is cancelled, or there is such a tombstone. */
  ghost predicate InForce(l: Lifecycle, id: RequestId, born: nat, newer: nat) {
    && Consistent(l)
    && (if id in l.active then l.active[id].cancelled else BuriedSince(l.order, id, born, newer))
  }

  /** The operation looks at the clock, if it does, at `born` or later and before the tombstone expires. */
  predicate Within(op: Operation, born: nat) {
    op.OpCancelConnection? || born <= op.now < born + CANCEL_TOMBSTONE_TTL
  }

  lemma PruneKeepsSince(order: seq<Tombstone>, id: RequestId, born: nat, newer: nat, now: nat)
    requires BuriedSince(order, id, born, newer) && now < born + CANCEL_TOMBSTONE_TTL
    ensures BuriedSince(Pruned(order, now), id, born, newer)
  {
    var i :| 0 <= i < |order| && order[i].id == id && order[i].created >= born && |order| - 1 - i <= newer;
    var behind := |order| - 1 - i;
    PruneKeepsYoung(order, order[i], behind, now);
    var p := Pruned(order, now);
    assert p[|p| - 1 - behind].id == id;
  }

  lemma InsertKeepsSince(order: seq<Tombstone>, id: RequestId, born: nat, newer: nat, other: RequestId, now: nat)
    requires BuriedSince(order, id, born, newer) && |order| <= MAX_CANCEL_TOMBSTONES
    requires newer + (if Buried(order, other) then 0 else 1) < MAX_CANCEL_TOMBSTONES
    ensures BuriedSince(Inserted(order, other, now), id, born, newer + (if Buried(order, other) then 0 else 1))
  {
    var i :| 0 <= i < |order| && order[i].id == id && order[i].created >= born && |order| - 1 - i <= newer;
    var behind := |order| - 1 - i;
    var longer := Inserted(order, other, now);
    if !Buried(order, other) {
      assert longer == Trimmed(order) + [Tombstone(other, now)];
      assert longer[|longer| - 1 - (behind + 1)] == order[i];
    }
  }

  /** The id's own tombstone, just inserted. */
  lemma InsertedIsSince(order: seq<Tombstone>, id: RequestId, now: nat)
    requires !Buried(order, id)
    ensures BuriedSince(Inserted(order, id, now), id, now, 0)
  {
    var longer := Inserted(order, id, now);
    assert longer[|longer| - 1] == Tombstone(id, now);
  }

  lemma SinceIsMonotone(order: seq<Tombstone>, id: RequestId, born: nat, newer: nat, later: nat, more: nat)
    requires BuriedSince(order, id, later, newer) && born <= later && newer <= more
    ensures BuriedSince(order, id, born, more)
  {
    var i :| 0 <= i < |order| && order[i].id == id && order[i].created >= later && |order| - 1 - i <= newer;
    assert order[i].created >= born;
  }

  /**
   Every operation in that time keeps a cancellation in force, as long as fewer than 4096 tombstones come behind it.
   */
  lemma ForceKept(l: Lifecycle, op: Operation, id: RequestId, born: nat, newer: nat)
    requires InForce(l, id, born, newer) && Within(op, born) && newer + Pushes(l, op) < MAX_CANCEL_TOMBSTONES
    ensures InForce(Apply(l, op), id, born, newer + Pushes(l, op))
  {
    ApplyIsConsistent(l, op);
    if !op.OpCancelConnection? {
      PrunedIsConsistent(l, op.now);
      if id in l.active {
        FinishKeepsForce(l, op, id, born, newer);
      } else {
        PruneKeepsSince(l.order, id, born, newer, op.now);
        BuriedKeepsForce(l, op, id, born, newer);
      }
    }
  }

  /** A running call: its token stays cancelled until it finishes, and then it leaves a tombstone. */
  lemma FinishKeepsForce(l: Lifecycle, op: Operation, id: RequestId, born: nat, newer: nat)
    requires InForce(l, id, born, newer) && Within(op, born) && id in l.active && !op.OpCancelConnection?
    ensures id in Apply(l, op).active ==> Apply(l, op).active[id].cancelled
    ensures id !in Apply(l, op).active ==> BuriedSince(Apply(l, op).order, id, born, newer + Pushes(l, op))
  {
    if op.OpFinish? && op.id == id {
      PrunedIsConsistent(l, op.now);
      assert !Buried(Pruned(l.order, op.now), id);
      InsertedIsSince(Pruned(l.order, op.now), id, op.now);
      SinceIsMonotone(Apply(l, op).order, id, born, 0, op.now, newer + 1);
    }
  }

  /** No running call: the tombstone keeps a new one from starting and stays where it is. */
  lemma BuriedKeepsForce(l: Lifecycle, op: Operation, id: RequestId, born: nat, newer: nat)
    requires Consistent(l) && id !in l.active && !op.OpCancelConnection?
    requires BuriedSince(l.order, id, born, newer) && BuriedSince(Pruned(l.order, op.now), id, born, newer)
    requires |Pruned(l.order, op.now)| <= MAX_CANCEL_TOMBSTONES
    requires newer + Pushes(l, op) < MAX_CANCEL_TOMBSTONES
    ensures id !in Apply(l, op).active && BuriedSince(Apply(l, op).order, id, born, newer + Pushes(l, op))
  {
    var order := Pruned(l.order, op.now);
    assert Buried(order, id);
    match op
    case OpBegin(_, _, _) =>
    case OpCancel(other, now) =>
      if other !in l.active { InsertKeepsSince(order, id, born, newer, other, now); }
    case OpFinish(other, now) =>
      if other in l.active && l.active[other].cancelled { InsertKeepsSince(order, id, born, newer, other, now); }
  }

  /** Where a cancellation that was just read stands: since when, and with how many tombstones behind it. */
  lemma CancelIsInForce(l: Lifecycle, id: RequestId, now: nat)
    requires Consistent(l)
    ensures id in l.active || !Buried(Pruned(l.order, now), id) ==> InForce(Cancel(l, id, now), id, now, 0)
    ensures forall born, newer :: id !in l.active && BuriedSince(Pruned(l.order, now), id, born, newer) ==>
      InForce(Cancel(l, id, now), id, born, newer)
  {
    ApplyIsConsistent(l, OpCancel(id, now));
    if id !in l.active && !Buried(Pruned(l.order, now), id) {
      InsertedIsSince(Pruned(l.order, now), id, now);
    }
    forall born, newer | id !in l.active && BuriedSince(Pruned(l.order, now), id, born, newer)
      ensures InForce(Cancel(l, id, now), id, born, newer)
    {
      assert Buried(Pruned(l.order, now), id);
    }
  }

  /** A repeated cancellation does not renew the tombstone: it ends when the first one does. */
  lemma RepeatedCancelDoesNotRenew(id: RequestId, first: nat, again: nat)
    requires first <= again < first + CANCEL_TOMBSTONE_TTL
    ensures var l := ApplyAll(IDLE, [OpCancel(id, first), OpCancel(id, again)]);
      && l.order == [Tombstone(id, first)]
      && !Buried(Pruned(l.order, first + CANCEL_TOMBSTONE_TTL), id)
  {
    var ops := [OpCancel(id, first), OpCancel(id, again)];
    var once := Cancel(IDLE, id, first);
    assert once.order == [Tombstone(id, first)];
    assert Pruned(once.order, again) == once.order;
    assert once.order[0].id == id;
    assert ops[..1] == [ops[0]] && [ops[0]][..0] == [];
    assert ApplyAll(IDLE, ops[..1]) == once;
  }
}

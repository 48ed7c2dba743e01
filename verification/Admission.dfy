/**
 Admission control: request reservation under interleaving. Every thread walks through the points of
 a reservation and of the guard's drop at which shared state changes; per-connection semaphores are
 held weakly by the capacity map and recreated when nobody holds one.
 */
module Admission {
  type ConnectionId = int

  /** The points of a reservation and of the drop of its guard. */
  datatype Phase =
    | Idle
    | Inserted                  // request id entered
    | Refused                   // no global permit; the entry is still there
    | HasGlobal
    | Holding(semaphore: nat)   // strong reference, no permit yet
    | Turned                    // no connection permit; the reference is gone
    | TurnedAway                // entry removed, global permit not yet returned
    | Guarded(semaphore: nat)   // reservation succeeded
    | Closing(semaphore: nat)   // entry removed
    | Closed(semaphore: nat)    // global permit returned
    | Returned(semaphore: nat)  // connection permit returned, reference not yet dropped

  datatype Thread = Thread(phase: Phase, id: string, connection: ConnectionId)

  datatype State = State(
    requests: map<string, nat>,            // request id -> thread that entered it
    globalFree: nat,
    free: seq<nat>,                        // free permits of every semaphore ever created
    capacities: map<ConnectionId, nat>,    // weak references
    threads: seq<Thread>)

  datatype Limits = Limits(global: nat, perConnection: nat)

  predicate OwnsEntry(t: Thread) {
    t.phase.Inserted? || t.phase.Refused? || t.phase.HasGlobal? || t.phase.Holding? || t.phase.Turned?
      || t.phase.Guarded?
  }

  predicate HoldsGlobal(t: Thread) {
    t.phase.HasGlobal? || t.phase.Holding? || t.phase.Turned? || t.phase.TurnedAway? || t.phase.Guarded?
      || t.phase.Closing?
  }

  predicate HoldsPermit(t: Thread) { t.phase.Guarded? || t.phase.Closing? || t.phase.Closed? }

  predicate HasReference(t: Thread) { t.phase.Holding? || HoldsPermit(t) || t.phase.Returned? }

  predicate Refers(t: Thread, semaphore: nat) { HasReference(t) && t.phase.semaphore == semaphore }

  /** `strong_count() > 0` */
  predicate Live(threads: seq<Thread>, semaphore: nat) {
    exists t :: 0 <= t < |threads| && Refers(threads[t], semaphore)
  }

  // ---------------------------------------------------------------- steps

  function Moved(s: State, t: nat, phase: Phase): State
    requires t < |s.threads|
  {
    s.(threads := s.threads[t := s.threads[t].(phase := phase)])
  }

  /** Dead entries are dropped from the capacity map; a live one is upgraded, otherwise a new semaphore is made. */
  function FindSemaphore(s: State, limits: Limits, t: nat): State
    requires t < |s.threads|
  {
    var connection := s.threads[t].connection;
    var live := map c | c in s.capacities && Live(s.threads, s.capacities[c]) :: s.capacities[c];
    if connection in live then Moved(s, t, Holding(live[connection])).(capacities := live)
    else Moved(s, t, Holding(|s.free|)).(capacities := live[connection := |s.free|],
      free := s.free + [limits.perConnection])
  }

  /** One step of thread `t`; the id and connection matter only when it begins a reservation. */
  function Advance(s: State, limits: Limits, t: nat, id: string, connection: ConnectionId): State {
    if t >= |s.threads| then s else
    var thread := s.threads[t];
    match thread.phase
    case Idle =>
      if id in s.requests then s
      else s.(requests := s.requests[id := t], threads := s.threads[t := Thread(Inserted, id, connection)])
    case Inserted =>
      if s.globalFree == 0 then Moved(s, t, Refused) else Moved(s, t, HasGlobal).(globalFree := s.globalFree - 1)
    case Refused => Moved(s, t, Idle).(requests := s.requests - {thread.id})
    case HasGlobal => FindSemaphore(s, limits, t)
    case Holding(semaphore) =>
      if semaphore >= |s.free| || s.free[semaphore] == 0 then Moved(s, t, Turned)
      else Moved(s, t, Guarded(semaphore)).(free := s.free[semaphore := s.free[semaphore] - 1])
    case Turned => Moved(s, t, TurnedAway).(requests := s.requests - {thread.id})
    case TurnedAway => Moved(s, t, Idle).(globalFree := s.globalFree + 1)
    case Guarded(semaphore) => Moved(s, t, Closing(semaphore)).(requests := s.requests - {thread.id})
    case Closing(semaphore) => Moved(s, t, Closed(semaphore)).(globalFree := s.globalFree + 1)
    case Closed(semaphore) =>
      if semaphore >= |s.free| then Moved(s, t, Returned(semaphore))
      else Moved(s, t, Returned(semaphore)).(free := s.free[semaphore := s.free[semaphore] + 1])
    case Returned(_) => Moved(s, t, Idle)
  }

  datatype Turn = Turn(thread: nat, id: string, connection: ConnectionId)

  function Execute(s: State, limits: Limits, turns: seq<Turn>): State {
    if turns == [] then s
    else
      var before := Execute(s, limits, turns[..|turns| - 1]);
      var turn := turns[|turns| - 1];
      Advance(before, limits, turn.thread, turn.id, turn.connection)
  }

  function Start(limits: Limits, count: nat): State {
    State(map[], limits.global, [], map[], seq(count, _ => Thread(Idle, "", 0)))
  }

  // ---------------------------------------------------------------- counting threads

  function Those(threads: seq<Thread>, p: Thread -> bool): (r: set<nat>)
    ensures forall t :: t in r <==> 0 <= t < |threads| && p(threads[t])
  {
    set t: nat | t < |threads| && p(threads[t])
  }

  function One(b: bool): nat { if b then 1 else 0 }

  /** Changing one thread changes the count by what it held before and holds now. */
  lemma CountAfter(threads: seq<Thread>, t: nat, now: Thread, p: Thread -> bool)
    requires t < |threads|
    ensures |Those(threads[t := now], p)| + One(p(threads[t])) == |Those(threads, p)| + One(p(now))
  {
    var before, after := Those(threads, p), Those(threads[t := now], p);
    var others := before - {t};
    assert others == after - {t};
    assert before == if p(threads[t]) then others + {t} else others;
    assert after == if p(now) then others + {t} else others;
  }

  // ---------------------------------------------------------------- invariant

  const HOLDS_GLOBAL: Thread -> bool := t => HoldsGlobal(t)

  function HoldsPermitOf(semaphore: nat): Thread -> bool { t => HoldsPermit(t) && t.phase.semaphore == semaphore }

  function HoldsPermitFor(connection: ConnectionId): Thread -> bool {
    t => HoldsPermit(t) && t.connection == connection
  }

  predicate GlobalConserved(s: State, limits: Limits) {
    s.globalFree + |Those(s.threads, HOLDS_GLOBAL)| == limits.global
  }

  predicate PermitsConserved(s: State, limits: Limits) {
    forall semaphore :: 0 <= semaphore < |s.free| ==>
      s.free[semaphore] + |Those(s.threads, HoldsPermitOf(semaphore))| == limits.perConnection
  }

  /** Everybody who refers to a semaphore refers to the one the map has for the connection. */
  predicate OneSemaphore(s: State) {
    forall t :: 0 <= t < |s.threads| && HasReference(s.threads[t]) ==> Mapped(s, s.threads[t])
  }

  predicate Mapped(s: State, t: Thread)
    requires HasReference(t)
  {
    t.connection in s.capacities && s.capacities[t.connection] == t.phase.semaphore && t.phase.semaphore < |s.free|
  }

  /** No two connections share a semaphore. */
  predicate OwnSemaphores(s: State) {
    && (forall c :: c in s.capacities ==> s.capacities[c] < |s.free|)
    && (forall c, d :: c in s.capacities && d in s.capacities && s.capacities[c] == s.capacities[d] ==> c == d)
  }

  predicate EntriesOwned(s: State) {
    && (forall t :: 0 <= t < |s.threads| && OwnsEntry(s.threads[t]) ==> Entered(s, t))
    && (forall id :: id in s.requests ==> Owned(s, id))
  }

  predicate Entered(s: State, t: nat)
    requires t < |s.threads|
  {
    s.threads[t].id in s.requests && s.requests[s.threads[t].id] == t
  }

  predicate Owned(s: State, id: string)
    requires id in s.requests
  {
    var owner := s.requests[id];
    owner < |s.threads| && OwnsEntry(s.threads[owner]) && s.threads[owner].id == id
  }

  predicate Inv(s: State, limits: Limits) {
    GlobalConserved(s, limits) && PermitsConserved(s, limits) && OneSemaphore(s) && OwnSemaphores(s) && EntriesOwned(s)
  }

  lemma InvHoldsAtStart(limits: Limits, count: nat)
    ensures Inv(Start(limits, count), limits)
  {
    assert Those(Start(limits, count).threads, HOLDS_GLOBAL) == {};
  }

  /** A step changes no other thread. */
  lemma OnlyOneMoves(s: State, limits: Limits, t: nat, id: string, connection: ConnectionId)
    requires t < |s.threads|
    ensures var after := Advance(s, limits, t, id, connection);
      |after.threads| == |s.threads| && after.threads == s.threads[t := after.threads[t]]
  {
  }

  lemma GlobalStep(s: State, limits: Limits, t: nat, id: string, connection: ConnectionId)
    requires GlobalConserved(s, limits)
    ensures GlobalConserved(Advance(s, limits, t, id, connection), limits)
  {
    if t < |s.threads| {
      OnlyOneMoves(s, limits, t, id, connection);
      CountAfter(s.threads, t, Advance(s, limits, t, id, connection).threads[t], HOLDS_GLOBAL);
    }
  }

  lemma NewSemaphoreIsUnused(s: State, limits: Limits)
    requires OneSemaphore(s)
    ensures |Those(s.threads, HoldsPermitOf(|s.free|))| == 0
  {
    assert Those(s.threads, HoldsPermitOf(|s.free|)) == {};
  }

  /** Free permits change by what the moving thread takes or gives back. */
  lemma FreeChange(s: State, limits: Limits, t: nat, id: string, connection: ConnectionId, semaphore: nat)
    requires t < |s.threads| && semaphore < |s.free| && (HasReference(s.threads[t]) ==> Mapped(s, s.threads[t]))
    ensures var after := Advance(s, limits, t, id, connection);
      && semaphore < |after.free|
      && after.free[semaphore] + One(HoldsPermitOf(semaphore)(after.threads[t]))
         == s.free[semaphore] + One(HoldsPermitOf(semaphore)(s.threads[t]))
  {
  }

  lemma FreeGrows(s: State, limits: Limits, t: nat, id: string, connection: ConnectionId)
    ensures var after := Advance(s, limits, t, id, connection);
      |after.free| == |s.free| || (after.free == s.free + [limits.perConnection] && t < |s.threads|
        && !HoldsPermit(after.threads[t]))
  {
  }

  lemma PermitsStep(s: State, limits: Limits, t: nat, id: string, connection: ConnectionId)
    requires Inv(s, limits)
    ensures PermitsConserved(Advance(s, limits, t, id, connection), limits)
  {
    if t < |s.threads| {
      var after := Advance(s, limits, t, id, connection);
      OnlyOneMoves(s, limits, t, id, connection);
      FreeGrows(s, limits, t, id, connection);
      NewSemaphoreIsUnused(s, limits);
      forall semaphore | 0 <= semaphore < |after.free|
        ensures after.free[semaphore] + |Those(after.threads, HoldsPermitOf(semaphore))| == limits.perConnection
      {
        CountAfter(s.threads, t, after.threads[t], HoldsPermitOf(semaphore));
        if semaphore < |s.free| {
          FreeChange(s, limits, t, id, connection, semaphore);
        }
      }
    }
  }

  /** A thread elsewhere keeps its semaphore mapped: its own reference keeps the map entry alive. */
  lemma OneSemaphoreStep(s: State, limits: Limits, t: nat, id: string, connection: ConnectionId)
    requires Inv(s, limits)
    ensures OneSemaphore(Advance(s, limits, t, id, connection))
  {
    if t < |s.threads| {
      var after := Advance(s, limits, t, id, connection);
      OnlyOneMoves(s, limits, t, id, connection);
      forall u | 0 <= u < |after.threads| && HasReference(after.threads[u]) ensures Mapped(after, after.threads[u]) {
        if u != t {
          assert after.threads[u] == s.threads[u];
          StaysMapped(s, limits, t, id, connection, u);
        } else {
          MoverIsMapped(s, limits, t, id, connection);
        }
      }
    }
  }

  lemma StaysMapped(s: State, limits: Limits, t: nat, id: string, connection: ConnectionId, u: nat)
    requires t < |s.threads| && u < |s.threads| && u != t && HasReference(s.threads[u]) && Mapped(s, s.threads[u])
    ensures Mapped(Advance(s, limits, t, id, connection), s.threads[u])
  {
    assert Refers(s.threads[u], s.threads[u].phase.semaphore);
  }

  lemma MoverIsMapped(s: State, limits: Limits, t: nat, id: string, connection: ConnectionId)
    requires t < |s.threads| && OwnSemaphores(s) && (HasReference(s.threads[t]) ==> Mapped(s, s.threads[t]))
    ensures var after := Advance(s, limits, t, id, connection);
      HasReference(after.threads[t]) ==> Mapped(after, after.threads[t])
  {
    if s.threads[t].phase.HasGlobal? {
      FoundIsMapped(s, limits, t);
    }
  }

  lemma FoundIsMapped(s: State, limits: Limits, t: nat)
    requires t < |s.threads| && OwnSemaphores(s)
    ensures var after := FindSemaphore(s, limits, t); after.threads[t].phase.Holding? && Mapped(after, after.threads[t])
  {
  }

  lemma OwnSemaphoresStep(s: State, limits: Limits, t: nat, id: string, connection: ConnectionId)
    requires OwnSemaphores(s)
    ensures OwnSemaphores(Advance(s, limits, t, id, connection))
  {
  }

  lemma EntriesStep(s: State, limits: Limits, t: nat, id: string, connection: ConnectionId)
    requires EntriesOwned(s)
    ensures EntriesOwned(Advance(s, limits, t, id, connection))
  {
    if t < |s.threads| {
      var after := Advance(s, limits, t, id, connection);
      OnlyOneMoves(s, limits, t, id, connection);
      EntryChange(s, limits, t, id, connection);
      forall u | 0 <= u < |after.threads| && OwnsEntry(after.threads[u]) ensures Entered(after, u) {
        if u != t {
          assert Entered(s, u);
        }
      }
      forall entry | entry in after.requests ensures Owned(after, entry) {
        if entry in s.requests {
          assert Owned(s, entry);
        }
      }
    }
  }

  /** The request map changes only at the id of the moving thread: entered when it begins, removed when it leaves. */
  lemma EntryChange(s: State, limits: Limits, t: nat, id: string, connection: ConnectionId)
    requires t < |s.threads| && (OwnsEntry(s.threads[t]) ==> Entered(s, t))
    ensures var after := Advance(s, limits, t, id, connection);
      var before, now := s.threads[t], after.threads[t];
      && (OwnsEntry(before) && OwnsEntry(now) ==> after.requests == s.requests && now.id == before.id)
      && (!OwnsEntry(before) && !OwnsEntry(now) ==> after.requests == s.requests)
      && (OwnsEntry(before) && !OwnsEntry(now) ==> after.requests == s.requests - {before.id})
      && (!OwnsEntry(before) && OwnsEntry(now) ==> now.id !in s.requests && after.requests == s.requests[now.id := t])
  {
  }

  lemma InvKept(s: State, limits: Limits, t: nat, id: string, connection: ConnectionId)
    requires Inv(s, limits)
    ensures Inv(Advance(s, limits, t, id, connection), limits)
  {
    GlobalStep(s, limits, t, id, connection);
    PermitsStep(s, limits, t, id, connection);
    OneSemaphoreStep(s, limits, t, id, connection);
    OwnSemaphoresStep(s, limits, t, id, connection);
    EntriesStep(s, limits, t, id, connection);
  }

  lemma {:induction false} InvAlways(limits: Limits, count: nat, turns: seq<Turn>)
    ensures Inv(Execute(Start(limits, count), limits, turns), limits)
  {
    if turns == [] {
      InvHoldsAtStart(limits, count);
    } else {
      var turn := turns[|turns| - 1];
      InvAlways(limits, count, turns[..|turns| - 1]);
      var before := Execute(Start(limits, count), limits, turns[..|turns| - 1]);
      InvKept(before, limits, turn.thread, turn.id, turn.connection);
    }
  }

  // ---------------------------------------------------------------- what admission control promises

  /** All permit holders of a connection draw on one semaphore. */
  lemma ConnectionHolders(s: State, limits: Limits, connection: ConnectionId)
    requires Inv(s, limits)
    ensures |Those(s.threads, HoldsPermitFor(connection))| <= limits.perConnection
    ensures connection in s.capacities ==>
      Those(s.threads, HoldsPermitFor(connection)) == Those(s.threads, HoldsPermitOf(s.capacities[connection]))
  {
    var holders := Those(s.threads, HoldsPermitFor(connection));
    forall t | t in holders ensures Mapped(s, s.threads[t]) {
      assert HasReference(s.threads[t]);
    }
    if connection in s.capacities {
      var semaphore := s.capacities[connection];
      forall t | t in Those(s.threads, HoldsPermitOf(semaphore)) ensures t in holders {
        assert Mapped(s, s.threads[t]);
      }
      assert holders == Those(s.threads, HoldsPermitOf(semaphore));
    } else {
      assert holders == {};
    }
  }

  /** Under every interleaving the permits held stay within the global and the per-connection limit. */
  lemma LimitsAlwaysHold(limits: Limits, count: nat, turns: seq<Turn>, connection: ConnectionId)
    ensures var s := Execute(Start(limits, count), limits, turns);
      && |Those(s.threads, HOLDS_GLOBAL)| <= limits.global
      && |Those(s.threads, HoldsPermitFor(connection))| <= limits.perConnection
  {
    InvAlways(limits, count, turns);
    ConnectionHolders(Execute(Start(limits, count), limits, turns), limits, connection);
  }

  /** A reservation is refused only when as many requests as the limit allows hold their permits at that moment. */
  lemma RefusalIsExact(limits: Limits, count: nat, turns: seq<Turn>, t: nat)
    ensures var s := Execute(Start(limits, count), limits, turns);
      var after := Advance(s, limits, t, "", 0);
      && (t < |s.threads| && s.threads[t].phase.Inserted? ==>
        (after.threads[t].phase.Refused? <==> |Those(s.threads, HOLDS_GLOBAL)| == limits.global))
      && (t < |s.threads| && s.threads[t].phase.Holding? ==>
        (after.threads[t].phase.Turned? <==>
          |Those(s.threads, HoldsPermitFor(s.threads[t].connection))| == limits.perConnection))
  {
    InvAlways(limits, count, turns);
    var s := Execute(Start(limits, count), limits, turns);
    if t < |s.threads| && s.threads[t].phase.Holding? {
      assert Mapped(s, s.threads[t]);
      ConnectionHolders(s, limits, s.threads[t].connection);
    }
  }

  /** Looking for a semaphore leaves none in the map that nobody holds. */
  lemma MapHoldsOnlyLive(s: State, limits: Limits, t: nat, c: ConnectionId)
    requires t < |s.threads| && s.threads[t].phase.HasGlobal?
    requires c in FindSemaphore(s, limits, t).capacities
    ensures var after := FindSemaphore(s, limits, t);
      exists u :: 0 <= u < |after.threads| && HasReference(after.threads[u])
        && after.threads[u].phase.semaphore == after.capacities[c]
  {
    var after := FindSemaphore(s, limits, t);
    if c == s.threads[t].connection {
      assert HasReference(after.threads[t]) && after.threads[t].phase.semaphore == after.capacities[c];
    } else {
      var u :| 0 <= u < |s.threads| && Refers(s.threads[u], s.capacities[c]);
      assert HasReference(after.threads[u]) && after.threads[u].phase.semaphore == after.capacities[c];
    }
  }

  /** Steps of one thread that no other thread comes between. */
  function Uninterrupted(s: State, limits: Limits, t: nat, id: string, connection: ConnectionId, steps: nat): State {
    if steps == 0 then s
    else Advance(Uninterrupted(s, limits, t, id, connection, steps - 1), limits, t, id, connection)
  }

  function Held(s: State): nat { |Those(s.threads, HOLDS_GLOBAL)| }

  function HeldFor(s: State, connection: ConnectionId): nat { |Those(s.threads, HoldsPermitFor(connection))| }

  predicate InUse(s: State, id: string) {
    exists t :: 0 <= t < |s.threads| && OwnsEntry(s.threads[t]) && s.threads[t].id == id
  }

  /** What each step of a reservation comes to. */
  predicate Outcome(s: State, after: State, limits: Limits, t: nat, id: string, connection: ConnectionId)
    requires t < |s.threads| && t < |after.threads|
  {
    var before, now := s.threads[t], after.threads[t];
    match before.phase
    case Idle =>
      && now == (if InUse(s, id) then before else Thread(Inserted, id, connection))
      && (InUse(s, id) ==> InUse(after, id))
      && Held(after) == Held(s) && HeldFor(after, connection) == HeldFor(s, connection)
    case Inserted =>
      && now == before.(phase := if Held(s) < limits.global then HasGlobal else Refused)
      && HeldFor(after, connection) == HeldFor(s, connection)
    case HasGlobal =>
      now.phase.Holding? && now.connection == before.connection && HeldFor(after, connection) == HeldFor(s, connection)
    case Holding(_) => now.phase.Guarded? <==> HeldFor(s, before.connection) < limits.perConnection
    case Refused => now.phase.Idle?
    case _ => true
  }

  lemma StepOutcome(s: State, limits: Limits, t: nat, id: string, connection: ConnectionId)
    requires Inv(s, limits) && t < |s.threads|
    ensures Inv(Advance(s, limits, t, id, connection), limits)
    ensures |Advance(s, limits, t, id, connection).threads| == |s.threads|
    ensures Outcome(s, Advance(s, limits, t, id, connection), limits, t, id, connection)
  {
    var before := s.threads[t];
    InvKept(s, limits, t, id, connection);
    OnlyOneMoves(s, limits, t, id, connection);
    if before.phase.Idle? || before.phase.Inserted? || before.phase.HasGlobal? {
      PermitsUntouched(s, limits, t, id, connection, connection);
      EntriesAreInUse(s, id);
      EntriesAreInUse(Advance(s, limits, t, id, connection), id);
    } else if before.phase.Holding? {
      assert Mapped(s, before);
      ConnectionHolders(s, limits, before.connection);
    }
  }

  lemma EntriesAreInUse(s: State, id: string)
    requires EntriesOwned(s)
    ensures InUse(s, id) <==> id in s.requests
  {
    if id in s.requests { assert Owned(s, id); }
    if t: nat :| t < |s.threads| && OwnsEntry(s.threads[t]) && s.threads[t].id == id { assert Entered(s, t); }
  }

  /** Up to the connection's permit nobody's permits change, and up to the global one no global permits either. */
  lemma PermitsUntouched(s: State, limits: Limits, t: nat, id: string, connection: ConnectionId, c: ConnectionId)
    requires t < |s.threads|
    requires s.threads[t].phase.Idle? || s.threads[t].phase.Inserted? || s.threads[t].phase.HasGlobal?
    ensures HeldFor(Advance(s, limits, t, id, connection), c) == HeldFor(s, c)
    ensures s.threads[t].phase.Idle? ==> Held(Advance(s, limits, t, id, connection)) == Held(s)
  {
    var after := Advance(s, limits, t, id, connection);
    OnlyOneMoves(s, limits, t, id, connection);
    CountAfter(s.threads, t, after.threads[t], HoldsPermitFor(c));
    CountAfter(s.threads, t, after.threads[t], HOLDS_GLOBAL);
  }

  /**
   A reservation without interruption succeeds, from every reachable state, if and only if no request is running
   under its id and fewer than both limits are held.
   */
  lemma ReservationSucceedsIff(limits: Limits, count: nat, turns: seq<Turn>, t: nat, id: string,
                               connection: ConnectionId)
    requires t < |Execute(Start(limits, count), limits, turns).threads|
    requires Execute(Start(limits, count), limits, turns).threads[t].phase.Idle?
    ensures var s := Execute(Start(limits, count), limits, turns);
      var after := Uninterrupted(s, limits, t, id, connection, 4);
      && |after.threads| == |s.threads|
      && (after.threads[t].phase.Guarded? <==>
           !InUse(s, id) && Held(s) < limits.global && HeldFor(s, connection) < limits.perConnection)
  {
    InvAlways(limits, count, turns);
    ReservationFrom(Execute(Start(limits, count), limits, turns), limits, t, id, connection);
  }

  lemma ReservationFrom(s: State, limits: Limits, t: nat, id: string, connection: ConnectionId)
    requires Inv(s, limits) && t < |s.threads| && s.threads[t].phase.Idle?
    ensures var after := Uninterrupted(s, limits, t, id, connection, 4);
      && |after.threads| == |s.threads|
      && (after.threads[t].phase.Guarded? <==>
           !InUse(s, id) && Held(s) < limits.global && HeldFor(s, connection) < limits.perConnection)
  {
    var a := NextOf(s, limits, t, id, connection, s, 0);
    var b := NextOf(s, limits, t, id, connection, a, 1);
    var c := NextOf(s, limits, t, id, connection, b, 2);
    var d := NextOf(s, limits, t, id, connection, c, 3);
    FourOutcomes(s, a, b, c, d, limits, t, id, connection);
  }

  lemma NextOf(s: State, limits: Limits, t: nat, id: string, connection: ConnectionId, now: State, steps: nat)
    returns (next: State)
    requires Inv(now, limits) && t < |now.threads| && now == Uninterrupted(s, limits, t, id, connection, steps)
    ensures next == Uninterrupted(s, limits, t, id, connection, steps + 1)
    ensures Inv(next, limits) && |next.threads| == |now.threads| && Outcome(now, next, limits, t, id, connection)
  {
    next := Advance(now, limits, t, id, connection);
    StepOutcome(now, limits, t, id, connection);
  }

  lemma FourOutcomes(s: State, a: State, b: State, c: State, d: State, limits: Limits, t: nat, id: string,
                     connection: ConnectionId)
    requires |s.threads| == |a.threads| == |b.threads| == |c.threads| == |d.threads|
    requires t < |s.threads| && s.threads[t].phase.Idle?
    requires Outcome(s, a, limits, t, id, connection) && Outcome(a, b, limits, t, id, connection)
    requires Outcome(b, c, limits, t, id, connection) && Outcome(c, d, limits, t, id, connection)
    ensures d.threads[t].phase.Guarded? <==>
      !InUse(s, id) && Held(s) < limits.global && HeldFor(s, connection) < limits.perConnection
  {
  }

  /** No step of one thread removes or replaces an entry that another thread made. */
  lemma EntriesOfOthersStay(limits: Limits, count: nat, turns: seq<Turn>, turn: Turn, id: string)
    requires var s := Execute(Start(limits, count), limits, turns); id in s.requests && s.requests[id] != turn.thread
    ensures var s := Execute(Start(limits, count), limits, turns);
      var after := Advance(s, limits, turn.thread, turn.id, turn.connection);
      id in after.requests && after.requests[id] == s.requests[id]
  {
    InvAlways(limits, count, turns);
    var s := Execute(Start(limits, count), limits, turns);
    if turn.thread < |s.threads| {
      EntryChange(s, limits, turn.thread, turn.id, turn.connection);
    }
  }

  predicate AtRest(s: State) { forall t :: 0 <= t < |s.threads| ==> s.threads[t].phase.Idle? }

  /** When every thread has come to rest, no entry is left over and every permit is back. */
  lemma NothingLeaks(limits: Limits, count: nat, turns: seq<Turn>)
    requires AtRest(Execute(Start(limits, count), limits, turns))
    ensures var s := Execute(Start(limits, count), limits, turns);
      && s.requests == map[] && s.globalFree == limits.global
      && forall semaphore :: 0 <= semaphore < |s.free| ==> s.free[semaphore] == limits.perConnection
  {
    InvAlways(limits, count, turns);
    RestingState(Execute(Start(limits, count), limits, turns), limits);
  }

  lemma RestingState(s: State, limits: Limits)
    requires Inv(s, limits) && AtRest(s)
    ensures s.requests == map[] && s.globalFree == limits.global
    ensures forall semaphore :: 0 <= semaphore < |s.free| ==> s.free[semaphore] == limits.perConnection
  {
    assert Those(s.threads, HOLDS_GLOBAL) == {};
    forall semaphore | 0 <= semaphore < |s.free| ensures s.free[semaphore] == limits.perConnection {
      assert Those(s.threads, HoldsPermitOf(semaphore)) == {};
    }
    assert forall id :: id !in s.requests;
  }
}

/** What a recorded cancellation guarantees: at the supervisor, across worker generations, and inside a worker. */
module CancelBarrier {
  import opened WorkerLifecycle
  import opened CancelProtocol

  // ---------------------------------------------------------------- the supervisor's barrier

  /** The latest cancellation of this id is younger than the TTL and has not made way at capacity. */
  predicate Barred(s: State, id: RequestId) {
    id in s.recorded && id !in s.evicted && s.now < s.recorded[id] + CANCEL_TOMBSTONE_TTL
  }

  ghost predicate TombstonesComplete(s: State) {
    forall id :: Barred(s, id) ==> id in s.tombs && s.tombs[id] == s.recorded[id] + CANCEL_TOMBSTONE_TTL
  }

  lemma CompleteAfterStart(s: State, kind: Kind, victim: RequestId)
    requires TombstonesComplete(s)
    ensures TombstonesComplete(TombstonesAfterStart(s, kind, victim))
  {
    var t := TombstonesAfterStart(s, kind, victim);
    forall id | Barred(t, id) ensures id in t.tombs && t.tombs[id] == t.recorded[id] + CANCEL_TOMBSTONE_TTL {
      if kind.Data? || s.stopping || id != kind.target { assert Barred(s, id); }
    }
  }

  /** Away from the start of a call, tombstones only lose expired entries. */
  lemma HistoryKept(s: State, step: Step)
    requires Enabled(s, step) && !step.StartCall?
    ensures var t := Around(s, step);
      t.recorded == s.recorded && t.evicted == s.evicted && t.now == s.now
        && (t.tombs == s.tombs || t.tombs == Unexpired(s.tombs, s.now))
  {}

  lemma CompleteKept(s: State, step: Step)
    requires TombstonesComplete(s)
    ensures TombstonesComplete(Next(s, step))
  {
    var t := Next(s, step);
    if Enabled(s, step) {
      if step.StartCall? { CompleteAfterStart(s, step.kind, step.victim); } else { HistoryKept(s, step); }
      assert Around(s, step).recorded == t.recorded && Around(s, step).evicted == t.evicted
        && Around(s, step).tombs == t.tombs
        && Around(s, step).now == t.now;
      forall id | Barred(t, id) ensures id in t.tombs && t.tombs[id] == t.recorded[id] + CANCEL_TOMBSTONE_TTL {
        assert Barred(Around(s, step), id);
        if !step.StartCall? { assert Barred(s, id); }
      }
    } else {
      forall id | Barred(t, id) ensures Barred(s, id) {}
    }
  }

  lemma {:induction false} CompleteAlways(steps: seq<Step>)
    ensures TombstonesComplete(Execute(INITIAL, steps))
  {
    if steps != [] {
      CompleteAlways(steps[..|steps| - 1]);
      CompleteKept(Execute(INITIAL, steps[..|steps| - 1]), steps[|steps| - 1]);
    }
  }

  predicate DataCallFor(s: State, c: nat, id: RequestId) {
    c in s.calls && s.calls[c].kind.Data? && s.calls[c].kind.id == id
  }

  /** A step changes no other call, and never what kind of call it is. */
  lemma CallsKeepKind(s: State, step: Step, c: nat)
    requires c in s.calls
    ensures c in Next(s, step).calls && Next(s, step).calls[c].kind == s.calls[c].kind
    ensures !(Enabled(s, step) && step.c == c) ==> Next(s, step).calls[c] == s.calls[c]
  {
    if Enabled(s, step) {
      AroundKeepsCalls(s, step);
      if step.c == c { NewCallKeepsKind(s, step); }
    }
  }

  lemma NewCallKeepsKind(s: State, step: Step)
    requires Enabled(s, step) && step.c in s.calls
    ensures NewCall(s, step).kind == s.calls[step.c].kind
  {}

  lemma NewCallPasses(s: State, step: Step)
    requires Enabled(s, step) && NewCall(s, step).phase.Passed?
    ensures
      || (step.StartCall? && !Barrier(s, step.kind))
      || (step.Retry? && !Barrier(s, s.calls[step.c].kind))
      || (step.c in s.calls && s.calls[step.c].phase == NewCall(s, step).phase)
  {}

  /** In one step no data call for a barred id is let through, first time or as a retry. */
  lemma BarrierHolds(s: State, step: Step, c: nat, id: RequestId)
    requires TombstonesComplete(s) && Barred(s, id)
    requires DataCallFor(Next(s, step), c, id) && Next(s, step).calls[c].phase.Passed?
    ensures c in s.calls && s.calls[c].phase == Next(s, step).calls[c].phase
  {
    if Enabled(s, step) {
      AroundKeepsCalls(s, step);
      if step.c == c {
        if c in s.calls { NewCallKeepsKind(s, step); }
        NewCallPasses(s, step);
        assert s.tombs[id] > s.now;
      }
    }
  }

  /** The states a run goes through, both ends included. */
  ghost predicate Throughout(s: State, more: seq<Step>, p: State -> bool) {
    forall n :: 0 <= n <= |more| ==> p(Execute(s, more[..n]))
  }

  lemma {:induction false} ExecuteConcat(s: State, a: seq<Step>, b: seq<Step>)
    ensures Execute(s, a + b) == Execute(Execute(s, a), b)
    decreases |b|
  {
    if b == [] {
      assert a + b == a;
    } else {
      assert (a + b)[..|a + b| - 1] == a + b[..|b| - 1];
      ExecuteConcat(s, a, b[..|b| - 1]);
    }
  }

  /**
   As long as an id is barred, a data call for it that is about to be given to a worker was let
   through before the cancellation was recorded: neither a first send nor a retry is let through
   afterwards, however many workers fail and are replaced meanwhile.
   */
  lemma {:induction false} BarrierAcrossGenerations(steps: seq<Step>, more: seq<Step>, c: nat, id: RequestId)
    requires Throughout(Execute(INITIAL, steps), more, s => Barred(s, id))
    requires var t := Execute(INITIAL, steps + more); DataCallFor(t, c, id) && t.calls[c].phase.Passed?
    ensures var s := Execute(INITIAL, steps);
      c in s.calls && s.calls[c].phase == Execute(INITIAL, steps + more).calls[c].phase
    decreases |more|
  {
    if more == [] {
      assert steps + more == steps;
    } else {
      var n := |more| - 1;
      var mid := steps + more[..n];
      assert (steps + more)[..|steps + more| - 1] == mid;
      ExecuteConcat(INITIAL, steps, more[..n]);
      CompleteAlways(mid);
      BarrierHolds(Execute(INITIAL, mid), more[n], c, id);
      CallsKeepKind(Execute(INITIAL, mid), more[n], c);
      forall k | 0 <= k <= |more[..n]| ensures Barred(Execute(Execute(INITIAL, steps), more[..n][..k]), id) {
        assert more[..n][..k] == more[..k];
      }
      BarrierAcrossGenerations(steps, more[..n], c, id);
    }
  }

  // ---------------------------------------------------------------- one replacement per generation

  ghost predicate ReplacedOnce(s: State) {
    s.generation < GENERATION_LIMIT ==>
      && (forall i :: 0 <= i < |s.replaced| ==> s.replaced[i] < s.generation)
      && (forall i, j :: 0 <= i < j < |s.replaced| ==> s.replaced[i] < s.replaced[j])
  }

  lemma ReplacedKept(s: State, step: Step)
    requires ReplacedOnce(s) && s.generation <= GENERATION_LIMIT
    ensures ReplacedOnce(Next(s, step)) && Next(s, step).generation <= GENERATION_LIMIT
  {
    if Enabled(s, step) { AroundReplaces(s, step); }
  }

  lemma AroundReplaces(s: State, step: Step)
    requires Enabled(s, step)
    ensures var t := Around(s, step); (t.generation == s.generation && t.replaced == s.replaced) || t == Replaced(s)
  {}

  lemma {:induction false} ReplacedAlways(steps: seq<Step>)
    ensures ReplacedOnce(Execute(INITIAL, steps)) && Execute(INITIAL, steps).generation <= GENERATION_LIMIT
  {
    if steps != [] {
      ReplacedAlways(steps[..|steps| - 1]);
      ReplacedKept(Execute(INITIAL, steps[..|steps| - 1]), steps[|steps| - 1]);
    }
  }

  /** However many calls report one generation as failed, it is successfully replaced at most once. */
  lemma OneReplacementPerGeneration(steps: seq<Step>, i: nat, j: nat)
    requires var s := Execute(INITIAL, steps);
      s.generation < GENERATION_LIMIT && i < |s.replaced| && j < |s.replaced| && i != j
    ensures Execute(INITIAL, steps).replaced[i] != Execute(INITIAL, steps).replaced[j]
  {
    ReplacedAlways(steps);
  }

  // ---------------------------------------------------------------- inside a worker

  /** The worker stops calls with this id: a running one has its token cancelled, any other meets a tombstone. */
  predicate Shielded(s: State, g: nat, id: RequestId) {
    Token(s, g, id) || (id !in Life(s, g).active && Buried(Pruned(Life(s, g).order, s.now), id))
  }

  lemma PrunedTwice(order: seq<Tombstone>, now: nat)
    ensures Pruned(Pruned(order, now), now) == Pruned(order, now)
  {}

  /** Once a worker has read a cancellation, it shields the id, whether the call came before it or comes later. */
  lemma CancelShields(s: State, c: nat, a: nat, busy: bool)
    requires Enabled(s, Deliver(c, a, busy)) && s.calls[c].kind.CancelCall?
    ensures Shielded(Next(s, Deliver(c, a, busy)), s.calls[c].WireOf(a).generation, s.calls[c].kind.target)
  {
    var g, id := s.calls[c].WireOf(a).generation, s.calls[c].kind.target;
    var order := Pruned(Life(s, g).order, s.now);
    assert Life(Next(s, Deliver(c, a, busy)), g) == Cancel(Life(s, g), id, s.now);
    if id !in Life(s, g).active {
      if Buried(order, id) {
        PrunedTwice(Life(s, g).order, s.now);
      } else {
        var longer := Inserted(order, id, s.now);
        PruneKeepsYoung(longer, Tombstone(id, s.now), 0, s.now);
        var p := Pruned(longer, s.now);
        assert p[|p| - 1].id == id;
      }
    }
  }

  /** This attempt of a data call for the id runs in this generation. */
  predicate RunsIn(s: State, c: nat, a: nat, g: nat, id: RequestId) {
    DataCallFor(s, c, id) && (a == 1 || a == 2) && s.calls[c].WireOf(a).Running? && s.calls[c].WireOf(a).generation == g
  }

  /** Running attempts are registered as active, one per id and generation. */
  ghost predicate Registered(s: State) {
    && (forall c, a, g, id :: RunsIn(s, c, a, g, id) ==> id in Life(s, g).active)
    && (forall c, a, d, b, g, id :: RunsIn(s, c, a, g, id) && RunsIn(s, d, b, g, id) ==> c == d && a == b)
  }

  /** How a step changes what runs: only a delivery that begins a call adds an attempt, registering it. */
  lemma NewCallRuns(s: State, step: Step, a: nat)
    requires Enabled(s, step) && Attempt(a) && NewCall(s, step).WireOf(a).Running?
    ensures
      || (step.c in s.calls && s.calls[step.c].WireOf(a).Running?
        && NewCall(s, step).WireOf(a).generation == s.calls[step.c].WireOf(a).generation
        && !((step.Poll? || step.Complete?) && step.attempt == a && Around(s, step) != s))
      || (step.Deliver? && step.attempt == a && s.calls[step.c].kind.Data?
        && NewCall(s, step).WireOf(a).generation == s.calls[step.c].WireOf(a).generation
        && Begin(Life(s, s.calls[step.c].WireOf(a).generation), s.calls[step.c].kind.id,
          s.calls[step.c].kind.connection, s.now).1 == Begun
          && !step.busy)
  {}

  /** Registrations go away only by the end of the attempt that holds them. */
  lemma WorkersKeepActive(s: State, step: Step, g: nat, id: RequestId)
    requires Enabled(s, step) && id in Life(s, g).active
    ensures
      || id in Life(Around(s, step), g).active
      || ((step.Poll? || step.Complete?) && Around(s, step) != s && RunsIn(s, step.c, step.attempt, g, id))
  {}

  lemma StepRuns(s: State, step: Step, c: nat, a: nat, g: nat, id: RequestId)
    requires Registered(s) && RunsIn(Next(s, step), c, a, g, id)
    ensures RunsIn(s, c, a, g, id)
      || (Enabled(s, step) && step.Deliver? && step.c == c && step.attempt == a && id !in Life(s, g).active)
    ensures id in Life(Next(s, step), g).active
  {
    var t := Next(s, step);
    if Enabled(s, step) {
      AroundKeepsCalls(s, step);
      if step.c == c {
        if c in s.calls { NewCallKeepsKind(s, step); }
        NewCallRuns(s, step, a);
      }
      if RunsIn(s, c, a, g, id) {
        WorkersKeepActive(s, step, g, id);
      }
      assert Life(t, g) == Life(Around(s, step), g);
    } else {
      assert t.calls == s.calls && RunsIn(s, c, a, g, id);
    }
  }

  lemma RegisteredKept(s: State, step: Step)
    requires Registered(s)
    ensures Registered(Next(s, step))
  {
    var t := Next(s, step);
    forall c, a, g, id | RunsIn(t, c, a, g, id) ensures id in Life(t, g).active { StepRuns(s, step, c, a, g, id); }
    forall c, a, d, b, g, id | RunsIn(t, c, a, g, id) && RunsIn(t, d, b, g, id) ensures c == d && a == b {
      StepRuns(s, step, c, a, g, id);
      StepRuns(s, step, d, b, g, id);
    }
  }

  lemma {:induction false} RegisteredAlways(steps: seq<Step>)
    ensures Registered(Execute(INITIAL, steps))
  {
    if steps != [] {
      RegisteredAlways(steps[..|steps| - 1]);
      RegisteredKept(Execute(INITIAL, steps[..|steps| - 1]), steps[|steps| - 1]);
    }
  }

  /**
   Every attempt of a data call for a shielded id: one that runs in this worker has its token
   cancelled and is ended by its next poll; one still in the pipe is refused on delivery; the rest
   are over, were never sent, or went to another generation.
   */
  lemma ShieldedAttemptIsStopped(steps: seq<Step>, c: nat, a: nat, g: nat, id: RequestId, busy: bool, raced: bool)
    requires var s := Execute(INITIAL, steps); Shielded(s, g, id) && DataCallFor(s, c, id) && (a == 1 || a == 2)
    ensures var s := Execute(INITIAL, steps);
      match s.calls[c].WireOf(a)
      case Unsent => true
      case Over => true
      case InPipe(h) => h == g ==> Next(s, Deliver(c, a, busy)).calls[c].WireOf(a) == Over
      case Running(h, handed) => h == g ==>
        Token(s, g, id) && (!handed ==> Next(s, Poll(c, a, raced)).calls[c].WireOf(a) == Over)
  {
    RegisteredAlways(steps);
    var s := Execute(INITIAL, steps);
    if s.calls[c].WireOf(a).Running? && s.calls[c].WireOf(a).generation == g { assert RunsIn(s, c, a, g, id); }
  }

  predicate HandedIn(s: State, c: nat, a: nat, g: nat, id: RequestId) {
    RunsIn(s, c, a, g, id) && s.calls[c].WireOf(a).handed
  }

  lemma NewCallHands(s: State, step: Step, a: nat)
    requires Enabled(s, step) && Attempt(a) && NewCall(s, step).WireOf(a).Running? && NewCall(s, step).WireOf(a).handed
    ensures step.c in s.calls && NewCall(s, step).WireOf(a).generation == s.calls[step.c].WireOf(a).generation
      && s.calls[step.c].WireOf(a).Running?
    ensures s.calls[step.c].WireOf(a).handed || (step.Poll? && step.attempt == a && s.calls[step.c].kind.Data?
      && !Token(s, s.calls[step.c].WireOf(a).generation, s.calls[step.c].kind.id))
  {}

  lemma NoHandoverInOneStep(s: State, step: Step, c: nat, a: nat, g: nat, id: RequestId)
    requires Registered(s) && Shielded(s, g, id) && HandedIn(Next(s, step), c, a, g, id)
    ensures HandedIn(s, c, a, g, id)
  {
    if Enabled(s, step) {
      AroundKeepsCalls(s, step);
      if step.c == c {
        NewCallHands(s, step, a);
        NewCallKeepsKind(s, step);
        assert RunsIn(s, c, a, g, id);
      }
    }
  }

  /** While a worker shields an id, its adapters are handed no further call for that id. */
  lemma {:induction false} NoHandoverWhileShielded(steps: seq<Step>, more: seq<Step>, c: nat, a: nat, g: nat,
    id: RequestId)
    requires Throughout(Execute(INITIAL, steps), more, s => Shielded(s, g, id))
    requires HandedIn(Execute(INITIAL, steps + more), c, a, g, id)
    ensures HandedIn(Execute(INITIAL, steps), c, a, g, id)
    decreases |more|
  {
    if more == [] {
      assert steps + more == steps;
    } else {
      var n := |more| - 1;
      var mid := steps + more[..n];
      assert (steps + more)[..|steps + more| - 1] == mid;
      ExecuteConcat(INITIAL, steps, more[..n]);
      RegisteredAlways(mid);
      assert Shielded(Execute(Execute(INITIAL, steps), more[..n]), g, id);
      NoHandoverInOneStep(Execute(INITIAL, mid), more[n], c, a, g, id);
      forall k | 0 <= k <= |more[..n]| ensures Shielded(Execute(Execute(INITIAL, steps), more[..n][..k]), g, id) {
        assert more[..n][..k] == more[..k];
      }
      NoHandoverWhileShielded(steps, more[..n], c, a, g, id);
    }
  }
}

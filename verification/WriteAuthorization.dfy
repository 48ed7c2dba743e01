/** Every write handed to a connector was confirmed by a grant of its own. */
module WriteAuthorization {
  import opened Options
  import opened Operations
  import opened Grants
  import opened AuditStore
  import opened WriteProtocol

  // ---------------------------------------------------------------- confirmed writes

  ghost predicate VerifiedBy(env: Environment, r: Request, now: nat) {
    r.grant.Some? && VerifiedFor(env, r.grant.value, r.Confirmable(), now)
  }

  ghost predicate VerifiedFor(env: Environment, grant: Grant, ctx: Context, now: nat) {
    exists t: nat :: t <= now && Verify(env.verifier, grant, ctx, t).Verified?
  }

  predicate In(s: State, id: nat, stage: Stage) { id in s.requests && s.requests[id].stage == stage }

  predicate PastSpending(stage: Stage) {
    stage.Granted? || stage.Ready? || stage.Dispatched? || stage.Reporting? || stage.Delivering?
  }

  /** A write past authorization was verified; one past spending, or ever handed over, spent its grant. */
  ghost predicate Confirmed(env: Environment, s: State, id: nat) {
    && (id in s.spent ==> id in s.requests && (PastSpending(s.requests[id].stage) || s.requests[id].Over()))
    && (id in s.effects ==> id in s.requests && (PastSpending(s.requests[id].stage) || s.requests[id].Over()))
    && (id in s.requests && WriteAction(s.requests[id].op) ==>
          && (!s.requests[id].stage.Admitted? && !s.requests[id].Over() ==> VerifiedBy(env, s.requests[id], s.now))
          && (PastSpending(s.requests[id].stage) ==> id in s.spent)
          && (id in s.effects ==> id in s.spent)
          && (id in s.spent ==>
                VerifiedBy(env, s.requests[id], s.now) && s.spent[id] == SpendableOf(env, s.requests[id])))
  }

  /** Unexpired spent grants are on file, and no two requests spent the same grant. */
  ghost predicate Ledger(s: State) {
    && (forall a :: a in s.spent && s.spent[a].expiresAt > s.now ==>
          s.spent[a].key in s.nonces && s.nonces[s.spent[a].key] == s.spent[a].expiresAt)
    && (forall a, b :: a in s.spent && b in s.spent && a != b ==> s.spent[a] != s.spent[b])
  }

  ghost predicate GrantInv(env: Environment, s: State) { (forall id :: Confirmed(env, s, id)) && Ledger(s) }

  // ---------------------------------------------------------------- one move

  /** Spending: the grant is new, because an earlier spending of it would still be on file. */
  lemma SpendKeepsLedger(s: State, id: nat, grant: Spendable)
    requires Ledger(s) && id !in s.spent
    ensures var (table, outcome) := Consume(s.nonces, grant, s.now);
      && Ledger(s.(nonces := table))
      && (outcome == Consumed ==> Ledger(s.(nonces := table, spent := s.spent[id := grant])))
  {
    var (table, outcome) := Consume(s.nonces, grant, s.now);
    forall a | a in s.spent && s.spent[a].expiresAt > s.now
      ensures s.spent[a].key in table && table[s.spent[a].key] == s.spent[a].expiresAt {}
    if outcome == Consumed {
      forall a | a in s.spent ensures s.spent[a] != grant {}
    }
  }

  lemma SpendMoveConfirms(env: Environment, s: State, id: nat, storeFails: bool, committed: bool)
    requires Confirmed(env, s, id) && Ledger(s) && In(s, id, Checked)
    ensures var t := Moved(s, id, SpendMove(env, s, s.requests[id], storeFails, committed));
      Confirmed(env, t, id) && Ledger(t)
  {
    var r := s.requests[id];
    var m := SpendMove(env, s, r, storeFails, committed);
    var t := Moved(s, id, m);
    if WriteAction(r.op) {
      assert VerifiedBy(env, t.requests[id], t.now);
      SpendKeepsLedger(s, id, SpendableOf(env, r));
    }
    assert Ledger(t.(requests := s.requests, effects := s.effects, records := s.records));
  }

  lemma AuthorizeMoveConfirms(env: Environment, s: State, id: nat)
    requires Confirmed(env, s, id) && In(s, id, Admitted)
    ensures Confirmed(env, Moved(s, id, AuthorizeMove(env, s, s.requests[id])), id)
  {
    var m := AuthorizeMove(env, s, s.requests[id]);
    if WriteAction(s.requests[id].op) && m.stage.Cleared? {
      assert VerifiedBy(env, Moved(s, id, m).requests[id], s.now);
    }
  }

  /** Every other move goes forward: it ends the request, stays past spending, or stays short of it. */
  predicate Forward(s: State, id: nat, m: Move)
    requires id in s.requests
  {
    var r := s.requests[id];
    && m.spend.None? && m.nonces == s.nonces
    && (m.effect.Some? ==> id in s.effects || PastSpending(r.stage))
    && (|| m.stage == r.stage
      || m.stage.Done? || m.stage.Crashed?
      || (PastSpending(r.stage) && PastSpending(m.stage))
      || (r.stage.Cleared? && m.stage.Active?) || (r.stage.Active? && m.stage.Checked?))
  }

  lemma ForwardMoveConfirms(env: Environment, s: State, id: nat, m: Move)
    requires id in s.requests && Confirmed(env, s, id) && Ledger(s) && Forward(s, id, m)
    ensures Confirmed(env, Moved(s, id, m), id) && Ledger(Moved(s, id, m))
  {
    var t := Moved(s, id, m);
    assert t.spent == s.spent && t.nonces == s.nonces && t.now == s.now;
    if VerifiedBy(env, s.requests[id], s.now) { assert VerifiedBy(env, t.requests[id], s.now); }
  }

  lemma MoveIsForward(env: Environment, s: State, id: nat, step: Step)
    requires id in s.requests && Confirmed(env, s, id)
    requires !step.Tick? && !step.Arrive? && !step.RequestCancel?
    requires !(step.Authorize? && In(s, id, Admitted)) && !(step.SpendGrant? && In(s, id, Checked))
    ensures Forward(s, id, MoveOf(env, s, id, step))
  {
    var r := s.requests[id];
    match step
    case ReserveKey(_, storeFails, committed) => if r.stage.Granted? { ReserveIsForward(s, id, storeFails, committed); }
    case Answer(_, answer) => if r.stage.Dispatched? && id in s.effects { AnswerIsForward(env, s, id, answer); }
    case SettleRecord(_, lost) => if r.stage.Reporting? { SettleIsForward(s, id, lost); }
    case _ =>
  }

  lemma ReserveIsForward(s: State, id: nat, storeFails: bool, committed: bool)
    requires id in s.requests && s.requests[id].stage.Granted?
    ensures Forward(s, id, ReserveMove(s, s.requests[id], storeFails, committed))
  {}

  lemma AnswerIsForward(env: Environment, s: State, id: nat, answer: ConnectorAnswer)
    requires id in s.requests && s.requests[id].stage.Dispatched? && id in s.effects
    ensures Forward(s, id, AnswerMove(env, s, s.requests[id], s.effects[id], answer))
  {}

  lemma SettleIsForward(s: State, id: nat, lost: bool)
    requires id in s.requests && s.requests[id].stage.Reporting?
    ensures Forward(s, id, SettleMove(s, s.requests[id], lost))
  {}

  // ---------------------------------------------------------------- every run

  lemma OthersStayConfirmed(env: Environment, s: State, id: nat, m: Move)
    requires id in s.requests && (forall x :: Confirmed(env, s, x)) && Confirmed(env, Moved(s, id, m), id)
    ensures forall x :: Confirmed(env, Moved(s, id, m), x)
  {
    forall x ensures Confirmed(env, Moved(s, id, m), x) {
      if x != id { assert Confirmed(env, s, x); }
    }
  }

  lemma MoveKeepsGrantInv(env: Environment, s: State, id: nat, step: Step)
    requires GrantInv(env, s) && id in s.requests
    requires !step.Tick? && !step.Arrive? && !step.RequestCancel?
    ensures GrantInv(env, Moved(s, id, MoveOf(env, s, id, step)))
  {
    assert Confirmed(env, s, id);
    if step.Authorize? && In(s, id, Admitted) {
      AuthorizeMoveConfirms(env, s, id);
    } else if step.SpendGrant? && In(s, id, Checked) {
      SpendMoveConfirms(env, s, id, step.storeFails, step.committed);
    } else {
      MoveIsForward(env, s, id, step);
      ForwardMoveConfirms(env, s, id, MoveOf(env, s, id, step));
    }
    OthersStayConfirmed(env, s, id, MoveOf(env, s, id, step));
  }

  lemma TickKeepsGrantInv(env: Environment, s: State)
    requires GrantInv(env, s)
    ensures GrantInv(env, s.(now := s.now + 1))
  {
    var t := s.(now := s.now + 1);
    forall x ensures Confirmed(env, t, x) { assert Confirmed(env, s, x); }
  }

  lemma RequestKeepsGrantInv(env: Environment, s: State, id: nat, r: Request)
    requires GrantInv(env, s)
    requires if id in s.requests then r == s.requests[id].(cancelRequested := true) else r.stage.Admitted?
    ensures GrantInv(env, s.(requests := s.requests[id := r]))
  {
    var t := s.(requests := s.requests[id := r]);
    forall x ensures Confirmed(env, t, x) {
      assert Confirmed(env, s, x);
      if x in s.requests && VerifiedBy(env, s.requests[x], s.now) { assert VerifiedBy(env, t.requests[x], t.now); }
    }
  }

  lemma GrantInvKept(env: Environment, s: State, step: Step)
    requires GrantInv(env, s)
    ensures GrantInv(env, Next(env, s, step))
  {
    match step
    case Tick => TickKeepsGrantInv(env, s);
    case Arrive(id, op, connection, hash, grant, context) =>
      if id !in s.requests {
        RequestKeepsGrantInv(env, s, id, Request(op, connection, hash, grant, context, false, Admitted));
      }
    case RequestCancel(id) =>
      if id in s.requests { RequestKeepsGrantInv(env, s, id, s.requests[id].(cancelRequested := true)); }
    case _ => if step.id in s.requests { MoveKeepsGrantInv(env, s, step.id, step); }
  }

  lemma {:induction false} GrantInvAlways(env: Environment, steps: seq<Step>)
    ensures GrantInv(env, Execute(env, INITIAL, steps))
  {
    if steps != [] {
      GrantInvAlways(env, steps[..|steps| - 1]);
      GrantInvKept(env, Execute(env, INITIAL, steps[..|steps| - 1]), steps[|steps| - 1]);
    }
  }

  /**
   In every run, honest connectors or not: a write that was handed to a connector had a signed grant made for this
   very request - its subject, session, connection, tool, arguments and policy version, within its limits - which
   it spent in time, and no other request ever spent it.
   */
  lemma EveryWriteSpentItsOwnGrant(env: Environment, steps: seq<Step>, id: nat)
    requires var s := Execute(env, INITIAL, steps);
      id in s.effects && id in s.requests && WriteAction(s.requests[id].op)
    ensures var s := Execute(env, INITIAL, steps);
      && VerifiedBy(env, s.requests[id], s.now)
      && MadeFor(env, s.requests[id], s.now)
      && id in s.spent
      && s.spent[id].key == ReplayKey(env.verifier.identity, s.requests[id].grant.value.claims.nonce)
      && s.spent[id].expiresAt == s.requests[id].grant.value.claims.expiresAt
      && forall other :: other in s.spent && other != id ==> s.spent[other] != s.spent[id]
  {
    GrantInvAlways(env, steps);
    var s := Execute(env, INITIAL, steps);
    assert Confirmed(env, s, id);
    VerifiedIsMadeFor(env, s.requests[id], s.now);
  }

  /** The grant is signed for exactly this request and was within its two minutes at some time so far. */
  ghost predicate MadeFor(env: Environment, r: Request, now: nat) {
    r.grant.Some? &&
      var c := r.grant.value.claims;
      && env.verifier.accepts(c, r.grant.value.signature)
      && c.subject == r.context.subject && c.session == r.context.session && c.tool == r.context.tool
      && c.connection == r.connection
      && c.argumentsHash == r.context.argumentsHash && c.policyVersion == r.context.policyVersion
      && c.maxRows <= r.context.maxRows && c.maxBytes <= r.context.maxBytes && c.maxAffected <= r.context.maxAffected
      && 0 < c.expiresAt <= now + 120_000
  }

  lemma VerifiedIsMadeFor(env: Environment, r: Request, now: nat)
    requires VerifiedBy(env, r, now)
    ensures MadeFor(env, r, now)
  {
    var t: nat :| t <= now && Verify(env.verifier, r.grant.value, r.Confirmable(), t).Verified?;
    VerifiedIff(env.verifier, r.grant.value, r.Confirmable(), t);
  }
}

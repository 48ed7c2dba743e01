/**
 Why at-most-once needs its hypothesis: a run in which a connector reports a definite error for a write it applied.
 */
module MisreportedWrite {
  import opened Options
  import opened Operations
  import opened Grants
  import opened AuditStore
  import opened WriteProtocol

  lemma Extended(env: Environment, steps: seq<Step>, step: Step)
    ensures Execute(env, INITIAL, steps + [step]) == Next(env, Execute(env, INITIAL, steps), step)
  {
    assert (steps + [step])[..|steps|] == steps;
  }

  /** What the issuer chose: a nonce and the signature over the claims. */
  datatype Ticket = Ticket(nonce: string, signature: string)

  function Confirmation(ticket: Ticket): Grant {
    Grant(Claims("", "", 0, "", "", 0, 0, 0, 0, 60_000, ticket.nonce), ticket.signature)
  }

  /** The issuer signed this confirmation. */
  predicate AcceptsConfirmation(env: Environment, ticket: Ticket) {
    env.verifier.accepts(Confirmation(ticket).claims, Confirmation(ticket).signature)
  }

  const CONTEXT := Context("", "", 0, "", "", 0, 0, 0, 0)

  /** A confirmed insert under key "k", somewhere on its way. */
  function Insertion(ticket: Ticket, stage: Stage): Request {
    Request(Insert(Some("k")), 0, "h", Some(Confirmation(ticket)), CONTEXT, false, stage)
  }

  function WithInsertion(s: State, id: nat, ticket: Ticket, stage: Stage): State {
    s.(requests := s.requests[id := Insertion(ticket, stage)])
  }

  lemma InsertionIsChecked(env: Environment, s: State, id: nat, ticket: Ticket)
    requires id !in s.requests && s.now == 0 && AcceptsConfirmation(env, ticket)
    ensures Next(env, s, Arrive(id, Insert(Some("k")), 0, "h", Some(Confirmation(ticket)), CONTEXT))
      == WithInsertion(s, id, ticket, Admitted)
    ensures Next(env, WithInsertion(s, id, ticket, Admitted), Authorize(id)) == WithInsertion(s, id, ticket, Cleared)
    ensures Next(env, WithInsertion(s, id, ticket, Cleared), Activate(id)) == WithInsertion(s, id, ticket, Active)
    ensures Next(env, WithInsertion(s, id, ticket, Active), CheckToken(id)) == WithInsertion(s, id, ticket, Checked)
  {}

  /** The tables once the insertion has spent its grant and reserved its key. */
  function Charged(env: Environment, s: State, id: nat, ticket: Ticket): State {
    var grant := SpendableOf(env, Insertion(ticket, Checked));
    s.(nonces := Purged(s.nonces, s.now)[grant.key := grant.expiresAt], spent := s.spent[id := grant],
       records := s.records[Slot(0, "k") := Record("h", InFlight)])
  }

  lemma InsertionIsCharged(env: Environment, s: State, id: nat, ticket: Ticket)
    requires s.now == 0 && ReplayKey(env.verifier.identity, ticket.nonce) !in s.nonces && Slot(0, "k") !in s.records
    ensures var t := Charged(env, s, id, ticket);
      && Next(env, WithInsertion(s, id, ticket, Checked), SpendGrant(id, false, false))
         == WithInsertion(t.(records := s.records), id, ticket, Granted)
      && Next(env, WithInsertion(t.(records := s.records), id, ticket, Granted), ReserveKey(id, false, false))
         == WithInsertion(t, id, ticket, Ready)
  {
    InsertionReserves(env, Charged(env, s, id, ticket).(records := s.records), id, ticket);
  }

  lemma InsertionReserves(env: Environment, s: State, id: nat, ticket: Ticket)
    requires Slot(0, "k") !in s.records
    ensures Next(env, WithInsertion(s, id, ticket, Granted), ReserveKey(id, false, false))
      == WithInsertion(s.(records := s.records[Slot(0, "k") := Record("h", InFlight)]), id, ticket, Ready)
  {}

  lemma InsertionIsApplied(env: Environment, s: State, id: nat, ticket: Ticket)
    ensures var live, fired := s.(effects := s.effects[id := Live]), s.(effects := s.effects[id := Fired]);
      && Next(env, WithInsertion(s, id, ticket, Ready), Start(id)) == WithInsertion(live, id, ticket, Dispatched)
      && Next(env, WithInsertion(live, id, ticket, Dispatched), ReachDatabase(id))
        == WithInsertion(fired, id, ticket, Dispatched)
  {}

  lemma InsertionReachesDatabase(env: Environment, steps: seq<Step>, id: nat, ticket: Ticket) returns (more: seq<Step>)
    requires AcceptsConfirmation(env, ticket)
    requires var s := Execute(env, INITIAL, steps);
      s.now == 0 && id !in s.requests && ReplayKey(env.verifier.identity, ticket.nonce) !in s.nonces
        && Slot(0, "k") !in s.records
    ensures var t := Charged(env, Execute(env, INITIAL, steps), id, ticket);
      Execute(env, INITIAL, more) == WithInsertion(t.(effects := t.effects[id := Fired]), id, ticket, Dispatched)
  {
    var s := Execute(env, INITIAL, steps);
    InsertionIsChecked(env, s, id, ticket);
    InsertionIsCharged(env, s, id, ticket);
    InsertionIsApplied(env, Charged(env, s, id, ticket), id, ticket);
    more := steps;
    var todo := [Arrive(id, Insert(Some("k")), 0, "h", Some(Confirmation(ticket)), CONTEXT), Authorize(id),
      Activate(id), CheckToken(id),
                 SpendGrant(id, false, false), ReserveKey(id, false, false), Start(id), ReachDatabase(id)];
    Extended(env, more, todo[0]); more := more + [todo[0]];
    Extended(env, more, todo[1]); more := more + [todo[1]];
    Extended(env, more, todo[2]); more := more + [todo[2]];
    Extended(env, more, todo[3]); more := more + [todo[3]];
    Extended(env, more, todo[4]); more := more + [todo[4]];
    Extended(env, more, todo[5]); more := more + [todo[5]];
    Extended(env, more, todo[6]); more := more + [todo[6]];
    Extended(env, more, todo[7]); more := more + [todo[7]];
  }

  /** A definite error releases the key of an applied insertion. */
  lemma ErrorReleasesKey(env: Environment, s: State, id: nat, ticket: Ticket)
    requires !env.honest && Slot(0, "k") in s.records && s.records[Slot(0, "k")] == Record("h", InFlight)
    requires id in s.effects
    ensures var r := Reporting(FinishRelease, OtherError);
      && Next(env, WithInsertion(s, id, ticket, Dispatched), Answer(id, AnswerError(OtherError)))
        == WithInsertion(s, id, ticket, r)
      && Next(env, WithInsertion(s, id, ticket, r), SettleRecord(id, false))
         == WithInsertion(s.(records := s.records - {Slot(0, "k")}), id, ticket, Done(OtherError))
  {
    InsertionReleases(env, s, id, ticket);
  }

  lemma InsertionReleases(env: Environment, s: State, id: nat, ticket: Ticket)
    requires Slot(0, "k") in s.records && s.records[Slot(0, "k")] == Record("h", InFlight)
    ensures Next(env, WithInsertion(s, id, ticket, Reporting(FinishRelease, OtherError)), SettleRecord(id, false))
      == WithInsertion(s.(records := s.records - {Slot(0, "k")}), id, ticket, Done(OtherError))
  {}

  /**
   Without the hypothesis at-most-once fails: a write that was applied but answered with a definite
   error releases its key, and a retry under the same key is applied again.
   */
  lemma MisreportedWriteIsAppliedTwice(env: Environment, one: Ticket, two: Ticket) returns (steps: seq<Step>)
    requires !env.honest && one.nonce != two.nonce && AcceptsConfirmation(env, one) && AcceptsConfirmation(env, two)
    ensures var s := Execute(env, INITIAL, steps);
      && Applied(s, 1) && Applied(s, 2) && 1 in s.requests && 2 in s.requests
      && s.requests[1].Keyed() && s.requests[2].Keyed() && s.requests[1].Slot() == s.requests[2].Slot()
  {
    assert Execute(env, INITIAL, []) == INITIAL;
    var first := InsertionReachesDatabase(env, [], 1, one);
    var charged := Charged(env, INITIAL, 1, one);
    var s := charged.(effects := map[1 := Fired]);
    assert charged.effects[1 := Fired] == map[1 := Fired];
    ErrorReleasesKey(env, s, 1, one);
    Extended(env, first, Answer(1, AnswerError(OtherError)));
    var answered := first + [Answer(1, AnswerError(OtherError))];
    Extended(env, answered, SettleRecord(1, false));
    var released := answered + [SettleRecord(1, false)];
    steps := InsertionReachesDatabase(env, released, 2, two);
  }
}

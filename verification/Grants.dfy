/**
 Write confirmations: verification of a signed grant against a request, and the persistent table
 that spends each verified grant once although it forgets expired entries.
 */
module Grants {

  // ---------------------------------------------------------------- verification

  const MAX_GRANT_LIFETIME_MILLIS: int := 120_000

  datatype Claims = Claims(
    subject: string, session: string, connection: nat, tool: string, argumentsHash: string,
    policyVersion: nat, maxRows: nat, maxBytes: nat, maxAffected: nat, expiresAt: int, nonce: string)

  datatype Grant = Grant(claims: Claims, signature: string)

  datatype Context = Context(
    subject: string, session: string, connection: nat, tool: string, argumentsHash: string,
    policyVersion: nat, maxRows: nat, maxBytes: nat, maxAffected: nat)

  /** The public key: who it belongs to, and which signatures it accepts. */
  datatype Verifier = Verifier(identity: nat, accepts: (Claims, string) -> bool)

  /** The digest of key identity and nonce, which is taken to be injective. */
  datatype ReplayKey = ReplayKey(identity: nat, nonce: string)

  datatype Spendable = Spendable(key: ReplayKey, expiresAt: int)

  datatype Failure = InvalidGrant | GrantExpired | GrantMismatch

  datatype Verdict = Verified(spendable: Spendable) | Refused(failure: Failure)

  function Verify(v: Verifier, grant: Grant, ctx: Context, now: int): Verdict {
    var c := grant.claims;
    if !v.accepts(c, grant.signature) then Refused(InvalidGrant)
    else if c.expiresAt <= now then Refused(GrantExpired)
    else if c.expiresAt > now + MAX_GRANT_LIFETIME_MILLIS then Refused(InvalidGrant)
    else if c.subject != ctx.subject || c.session != ctx.session || c.connection != ctx.connection || c.tool != ctx.tool
    then Refused(GrantMismatch)
    else if c.policyVersion != ctx.policyVersion then Refused(GrantMismatch)
    else if c.argumentsHash != ctx.argumentsHash then Refused(GrantMismatch)
    else if c.maxRows > ctx.maxRows || c.maxBytes > ctx.maxBytes || c.maxAffected > ctx.maxAffected
    then Refused(GrantMismatch)
    else Verified(Spendable(ReplayKey(v.identity, c.nonce), c.expiresAt))
  }

  /** The claims were made for this request: the same facts, and no more than its limits. */
  predicate Confirms(c: Claims, ctx: Context) {
    && c.subject == ctx.subject && c.session == ctx.session && c.connection == ctx.connection && c.tool == ctx.tool
    && c.policyVersion == ctx.policyVersion && c.argumentsHash == ctx.argumentsHash
    && c.maxRows <= ctx.maxRows && c.maxBytes <= ctx.maxBytes && c.maxAffected <= ctx.maxAffected
  }

  /** A grant verifies if and only if it is signed, in its two minutes, and made for this request. */
  lemma VerifiedIff(v: Verifier, grant: Grant, ctx: Context, now: int)
    ensures Verify(v, grant, ctx, now).Verified? <==>
      && v.accepts(grant.claims, grant.signature)
      && grant.claims.expiresAt - 120_000 <= now < grant.claims.expiresAt
      && Confirms(grant.claims, ctx)
    ensures Verify(v, grant, ctx, now).Verified? ==>
      Verify(v, grant, ctx, now).spendable
        == Spendable(ReplayKey(v.identity, grant.claims.nonce), grant.claims.expiresAt)
  {
  }

  /** One grant cannot confirm two different requests, whenever they come. */
  lemma OneGrantOneRequest(v: Verifier, grant: Grant, a: Context, s: int, b: Context, t: int)
    requires Verify(v, grant, a, s).Verified? && Verify(v, grant, b, t).Verified?
    ensures a.subject == b.subject && a.session == b.session && a.connection == b.connection && a.tool == b.tool
    ensures a.policyVersion == b.policyVersion && a.argumentsHash == b.argumentsHash
  {
    VerifiedIff(v, grant, a, s);
    VerifiedIff(v, grant, b, t);
  }

  /**
   Why a grant is refused: a bad signature or too long a life, its expiry, or another request than it was made for.
   */
  lemma RefusedBecause(v: Verifier, grant: Grant, ctx: Context, now: int)
    requires Verify(v, grant, ctx, now).Refused?
    ensures Verify(v, grant, ctx, now).failure == GrantExpired <==>
      v.accepts(grant.claims, grant.signature) && grant.claims.expiresAt <= now
    ensures Verify(v, grant, ctx, now).failure == GrantMismatch <==>
      && v.accepts(grant.claims, grant.signature)
      && grant.claims.expiresAt - 120_000 <= now < grant.claims.expiresAt
      && !Confirms(grant.claims, ctx)
  {
  }

  // ---------------------------------------------------------------- the nonce table

  datatype Consumption = Consumed | Replayed | Expired

  type NonceTable = map<ReplayKey, int>

  function Purged(table: NonceTable, now: int): NonceTable {
    map k | k in table && table[k] > now :: table[k]
  }

  function Consume(table: NonceTable, grant: Spendable, now: int): (NonceTable, Consumption) {
    var kept := Purged(table, now);
    if grant.expiresAt <= now then (kept, Expired)
    else if grant.key in kept then (kept, Replayed)
    else (kept[grant.key := grant.expiresAt], Consumed)
  }

  datatype Attempt = Attempt(grant: Spendable, now: int)

  ghost predicate Monotone(attempts: seq<Attempt>) {
    forall i, j :: 0 <= i < j < |attempts| ==> attempts[i].now <= attempts[j].now
  }

  function TableAfter(attempts: seq<Attempt>): NonceTable {
    if attempts == [] then map[]
    else Consume(TableAfter(attempts[..|attempts| - 1]), attempts[|attempts| - 1].grant, attempts[|attempts| - 1].now).0
  }

  function Decision(attempts: seq<Attempt>, i: nat): Consumption
    requires i < |attempts|
  {
    Consume(TableAfter(attempts[..i]), attempts[i].grant, attempts[i].now).1
  }

  /** Attempt i spent its grant on this key, and that grant is still unexpired at the given time. */
  ghost predicate SpentLive(attempts: seq<Attempt>, i: nat, key: ReplayKey, now: int) {
    i < |attempts| && Decision(attempts, i) == Consumed && attempts[i].grant.key == key
      && attempts[i].grant.expiresAt > now
  }

  lemma DecisionOfPrefix(attempts: seq<Attempt>, n: nat, i: nat)
    requires i < n <= |attempts|
    ensures Decision(attempts[..n], i) == Decision(attempts, i)
  {
    assert attempts[..n][..i] == attempts[..i];
  }

  /** Every table entry is a spent grant that had not expired at the latest attempt. */
  lemma {:induction false} EntryWasSpent(attempts: seq<Attempt>, key: ReplayKey) returns (i: nat)
    requires attempts != [] && Monotone(attempts) && key in TableAfter(attempts)
    ensures SpentLive(attempts, i, key, attempts[|attempts| - 1].now)
    decreases |attempts|
  {
    var n := |attempts| - 1;
    var earlier, last := attempts[..n], attempts[n];
    if key in Purged(TableAfter(earlier), last.now) {
      i := EntryWasSpent(earlier, key);
      DecisionOfPrefix(attempts, n, i);
      SpentIsEntry(earlier, i);
    } else {
      i := n;
    }
  }

  /** Every spent grant that had not expired at the latest attempt is a table entry. */
  lemma {:induction false} SpentIsEntry(attempts: seq<Attempt>, i: nat)
    requires Monotone(attempts) && i < |attempts|
    requires SpentLive(attempts, i, attempts[i].grant.key, attempts[|attempts| - 1].now)
    ensures attempts[i].grant.key in TableAfter(attempts)
    ensures TableAfter(attempts)[attempts[i].grant.key] == attempts[i].grant.expiresAt
    decreases |attempts|
  {
    var n := |attempts| - 1;
    if i < n {
      DecisionOfPrefix(attempts, n, i);
      SpentIsEntry(attempts[..n], i);
    }
  }

  /** Exact decision: a grant is accepted unless expired or its key was spent by a grant still unexpired. */
  lemma DecisionIsExact(attempts: seq<Attempt>, j: nat)
    requires Monotone(attempts) && j < |attempts|
    ensures Decision(attempts, j) ==
      if attempts[j].grant.expiresAt <= attempts[j].now then Expired
      else if exists i: nat :: i < j && SpentLive(attempts, i, attempts[j].grant.key, attempts[j].now) then Replayed
      else Consumed
  {
    var key, now := attempts[j].grant.key, attempts[j].now;
    var table := TableAfter(attempts[..j]);
    if key in Purged(table, now) {
      var i := EntryWasSpent(attempts[..j], key);
      SpentIsEntry(attempts[..j], i);
      DecisionOfPrefix(attempts, j, i);
      assert SpentLive(attempts, i, key, now);
    }
    if i: nat :| i < j && SpentLive(attempts, i, key, now) {
      DecisionOfPrefix(attempts, j, i);
      SpentIsEntry(attempts[..j], i);
    }
  }

  /** No grant is ever spent twice, although the table forgets. */
  lemma EachGrantSpentOnce(attempts: seq<Attempt>, i: nat, j: nat)
    requires Monotone(attempts) && i < j < |attempts|
    requires attempts[i].grant == attempts[j].grant
    requires Decision(attempts, i) == Consumed
    ensures Decision(attempts, j) != Consumed
  {
    DecisionIsExact(attempts, j);
    if attempts[j].grant.expiresAt > attempts[j].now {
      assert SpentLive(attempts, i, attempts[j].grant.key, attempts[j].now);
    }
  }

  /** The set of keys ever spent, which the program does not keep. */
  ghost predicate EverSpent(attempts: seq<Attempt>, j: nat, key: ReplayKey)
    requires j <= |attempts|
  {
    exists i: nat :: i < j && Decision(attempts, i) == Consumed && attempts[i].grant.key == key
  }

  /**
   When a nonce is issued with one expiry only, the purged table decides every unexpired grant as
   the ever-growing set of spent nonces would.
   */
  lemma PurgedTableActsLikeEverGrowingSet(attempts: seq<Attempt>, j: nat)
    requires Monotone(attempts) && j < |attempts|
    requires forall a, b ::
      0 <= a < |attempts| && 0 <= b < |attempts| && attempts[a].grant.key == attempts[b].grant.key ==>
      attempts[a].grant.expiresAt == attempts[b].grant.expiresAt
    requires attempts[j].grant.expiresAt > attempts[j].now
    ensures Decision(attempts, j) == if EverSpent(attempts, j, attempts[j].grant.key) then Replayed else Consumed
  {
    DecisionIsExact(attempts, j);
    if EverSpent(attempts, j, attempts[j].grant.key) {
      var i: nat :| i < j && Decision(attempts, i) == Consumed && attempts[i].grant.key == attempts[j].grant.key;
      assert SpentLive(attempts, i, attempts[j].grant.key, attempts[j].now);
    }
  }

  /** What a table that never forgets would decide. */
  ghost function EverGrowingDecision(attempts: seq<Attempt>, j: nat): Consumption
    requires j < |attempts|
  {
    if attempts[j].grant.expiresAt <= attempts[j].now then Expired
    else if EverSpent(attempts, j, attempts[j].grant.key) then Replayed
    else Consumed
  }

  /**
   Exactly when the purged table decides like the ever-growing set: the grant has expired, or if its nonce was
   ever spent then by a grant that is still unexpired.
   */
  lemma ActsLikeEverGrowingSetIff(attempts: seq<Attempt>, j: nat)
    requires Monotone(attempts) && j < |attempts|
    ensures Decision(attempts, j) == EverGrowingDecision(attempts, j) <==>
      || attempts[j].grant.expiresAt <= attempts[j].now
      || (EverSpent(attempts, j, attempts[j].grant.key) ==>
           exists i: nat :: i < j && SpentLive(attempts, i, attempts[j].grant.key, attempts[j].now))
  {
    DecisionIsExact(attempts, j);
    if i: nat :| i < j && SpentLive(attempts, i, attempts[j].grant.key, attempts[j].now) {
      assert EverSpent(attempts, j, attempts[j].grant.key);
    }
  }

  /** Reusing a nonce with any later expiry defeats the table once the first grant has expired. */
  lemma ReusedNonceIsSpentTwice(key: ReplayKey, first: int, second: int)
    requires first < second
    ensures var attempts := [Attempt(Spendable(key, first), first - 1), Attempt(Spendable(key, second), first)];
      && Monotone(attempts)
      && Decision(attempts, 0) == Consumed
      && Decision(attempts, 1) == Consumed
      && EverSpent(attempts, 1, key)
  {
    var attempts := [Attempt(Spendable(key, first), first - 1), Attempt(Spendable(key, second), first)];
    assert attempts[..0] == [];
    assert attempts[..1] == [attempts[0]];
    assert TableAfter([attempts[0]]) == map[key := first] by { assert [attempts[0]][..0] == []; }
    assert Decision(attempts, 0) == Consumed;
  }
}

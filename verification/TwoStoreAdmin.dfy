/**
 Administration of connections across two stores, profiles and credentials, that cannot be changed
 together: each operation writes them one after the other and compensates when a later step fails.
 */
module TwoStoreAdmin {
  import opened Options
  import Grants

  const VERSIONS: nat := 0x1_0000_0000_0000_0000

  datatype Policy = Policy(enabled: bool, rules: string)

  datatype Profile = Profile(id: nat, secretRef: string, authKind: string, policy: Policy, policyVersion: nat,
    settings: string)

  datatype Secret = Secret(kind: string, fields: map<string, string>)

  datatype Stores = Stores(profiles: map<nat, Profile>, credentials: map<string, Secret>)

  datatype Op =
    | Create(profile: Profile, secret: Secret)
    | UpdateProfile(profile: Profile)
    | SetPolicy(id: nat, policy: Policy)
    | SetEnabled(id: nat, enabled: bool)
    | ReplaceSecret(id: nat, secret: Secret)
    | ReplaceConnection(profile: Profile, secret: Secret)
    | Delete(id: nat)

  datatype AdminError =
    | AlreadyExists | NotFound | AuthenticationKindMismatch | CredentialReferenceInUse
    | ConnectionIdentityMismatch | InvalidProfile | StoreFailure

  /** The store accesses of one operation, any of which may fail; the last two are the compensating ones. */
  datatype Access =
    | GetProfile | ListProfiles | GetCredential | PutCredential | UpsertProfile | NotifyChanged
    | DeleteProfile | DeleteCredential | UndoCredential | UndoProfile

  type Validity = Profile -> bool

  /** The successor in 64 bits, wrapping around. */
  function NextVersion(version: nat): nat { if version + 1 == VERSIONS then 0 else version + 1 }

  /** The stored form of an edited profile: the caller's version is ignored and the stored one moves with the policy. */
  function Edited(existing: Profile, profile: Profile): Profile {
    profile.(policyVersion := if profile.policy == existing.policy then existing.policyVersion
      else NextVersion(existing.policyVersion))
  }

  function WithPolicy(existing: Profile, policy: Policy): Profile {
    existing.(policy := policy, policyVersion := NextVersion(existing.policyVersion))
  }

  function WithEnabled(existing: Profile, enabled: bool): Profile {
    if existing.policy.enabled == enabled then existing else WithPolicy(existing, existing.policy.(enabled := enabled))
  }

  // ---------------------------------------------------------------- what each operation is for

  predicate Accepts(s: Stores, valid: Validity, op: Op) {
    match op
    case Create(profile, secret) =>
      && profile.id !in s.profiles && profile.authKind == secret.kind && valid(profile)
      && (forall id :: id in s.profiles ==> s.profiles[id].secretRef != profile.secretRef)
    case UpdateProfile(profile) =>
      && profile.id in s.profiles
      && profile.secretRef == s.profiles[profile.id].secretRef && profile.authKind == s.profiles[profile.id].authKind
      && valid(Edited(s.profiles[profile.id], profile))
    case SetPolicy(id, policy) => id in s.profiles && valid(WithPolicy(s.profiles[id], policy))
    case SetEnabled(id, enabled) => id in s.profiles && valid(WithEnabled(s.profiles[id], enabled))
    case ReplaceSecret(id, secret) => id in s.profiles && s.profiles[id].authKind == secret.kind
    case ReplaceConnection(profile, secret) =>
      && profile.id in s.profiles && profile.secretRef == s.profiles[profile.id].secretRef
      && profile.authKind == secret.kind && valid(profile) && valid(Edited(s.profiles[profile.id], profile))
    case Delete(id) => id in s.profiles
  }

  /** The full effect on both stores. */
  function Effect(s: Stores, valid: Validity, op: Op): Stores
    requires Accepts(s, valid, op)
  {
    match op
    case Create(profile, secret) =>
      Stores(s.profiles[profile.id := profile], s.credentials[profile.secretRef := secret])
    case UpdateProfile(profile) => s.(profiles := s.profiles[profile.id := Edited(s.profiles[profile.id], profile)])
    case SetPolicy(id, policy) => s.(profiles := s.profiles[id := WithPolicy(s.profiles[id], policy)])
    case SetEnabled(id, enabled) => s.(profiles := s.profiles[id := WithEnabled(s.profiles[id], enabled)])
    case ReplaceSecret(id, secret) => s.(credentials := s.credentials[s.profiles[id].secretRef := secret])
    case ReplaceConnection(profile, secret) =>
      Stores(s.profiles[profile.id := Edited(s.profiles[profile.id], profile)],
        s.credentials[profile.secretRef := secret])
    case Delete(id) => Stores(s.profiles - {id}, s.credentials - {s.profiles[id].secretRef})
  }

  /** The profile this operation writes, if it writes one. */
  function Target(op: Op): Option<nat> {
    match op
    case Create(profile, _) => Some(profile.id)
    case UpdateProfile(profile) => Some(profile.id)
    case SetPolicy(id, _) => Some(id)
    case SetEnabled(id, _) => Some(id)
    case ReplaceSecret(_, _) => None
    case ReplaceConnection(profile, _) => Some(profile.id)
    case Delete(id) => Some(id)
  }

  /** The policy an operation asks for, given the one in force. */
  function Asked(op: Op, policy: Policy): Policy {
    match op
    case SetPolicy(_, asked) => asked
    case SetEnabled(_, enabled) => Policy(enabled, policy.rules)
    case UpdateProfile(profile) => profile.policy
    case ReplaceConnection(profile, _) => profile.policy
    case _ => policy
  }

  /**
   The stored profile afterwards, field by field: the policy asked for, the caller's settings where whole profiles
   are given, and the same identity, reference and kind, except that replacing a connection sets the kind.
   */
  predicate Rewritten(before: Profile, after: Profile, op: Op) {
    && after.policy == Asked(op, before.policy)
    && after.id == before.id && after.secretRef == before.secretRef
    && after.authKind == (if op.ReplaceConnection? then op.secret.kind else before.authKind)
    && after.settings == (if op.UpdateProfile? || op.ReplaceConnection? then op.profile.settings else before.settings)
  }

  /** The operation rewrote this profile, and no other. */
  predicate OnlyRewrites(before: map<nat, Profile>, after: map<nat, Profile>, op: Op, id: nat) {
    && id in before && after.Keys == before.Keys
    && Rewritten(before[id], after[id], op)
    && forall other :: other in before && other != id ==> after[other] == before[other]
  }

  /** An accepted change stores exactly what it was asked to, in the one profile it is about. */
  lemma StoresWhatWasAsked(s: Stores, valid: Validity, op: Op)
    requires Consistent(s, valid) && Accepts(s, valid, op)
    ensures var after := Effect(s, valid, op).profiles;
      match Target(op)
      case None => after == s.profiles
      case Some(id) =>
        if op.Create? then id !in s.profiles && after == s.profiles + map[id := op.profile]
        else if op.Delete? then id in s.profiles && after == s.profiles - {id}
        else OnlyRewrites(s.profiles, after, op, id)
  {
    if Target(op).Some? && !op.Create? && !op.Delete? {
      assert Sound(s, valid, Target(op).value);
    }
  }

  /** The accesses that must succeed for the operation to succeed. */
  function Needs(s: Stores, op: Op): set<Access> {
    match op
    case Create(_, _) => {GetProfile, ListProfiles, PutCredential, UpsertProfile}
    case UpdateProfile(_) => {GetProfile, UpsertProfile}
    case SetPolicy(_, _) => {GetProfile, UpsertProfile}
    case SetEnabled(id, enabled) =>
      if id in s.profiles && s.profiles[id].policy.enabled == enabled then {GetProfile} else {GetProfile, UpsertProfile}
    case ReplaceSecret(_, _) => {GetProfile, GetCredential, PutCredential, NotifyChanged}
    case ReplaceConnection(_, _) => {GetProfile, GetCredential, PutCredential, UpsertProfile}
    case Delete(_) => {GetProfile, GetCredential, DeleteProfile, DeleteCredential}
  }

  /**
   Whether a failed operation leaves both stores as they were: its compensation works, and a created reference was
   unused.
   */
  predicate Undoable(s: Stores, op: Op, failing: set<Access>) {
    match op
    case Create(profile, _) => UndoCredential !in failing && profile.secretRef !in s.credentials
    case ReplaceSecret(_, _) => UndoCredential !in failing
    case ReplaceConnection(_, _) => UndoCredential !in failing
    case Delete(_) => UndoCredential !in failing && UndoProfile !in failing
    case _ => true
  }

  /**
   Success exactly when the operation is acceptable and no needed access fails; then the full effect, otherwise none.
   */
  ghost predicate AllOrNothing(before: Stores, after: Stores, valid: Validity, op: Op, failing: set<Access>, ok: bool) {
    && (ok <==> Accepts(before, valid, op) && Needs(before, op) !! failing)
    && (ok ==> after == Effect(before, valid, op))
    && (!ok && Undoable(before, op, failing) ==> after == before)
  }

  // ---------------------------------------------------------------- invariant

  predicate Sound(s: Stores, valid: Validity, id: nat)
    requires id in s.profiles
  {
    var p := s.profiles[id];
    && p.id == id && valid(p) && p.policyVersion < VERSIONS
    && p.secretRef in s.credentials && s.credentials[p.secretRef].kind == p.authKind
  }

  /** Every profile is valid and has a credential of its kind under a reference of its own. */
  predicate Consistent(s: Stores, valid: Validity) {
    && (forall id :: id in s.profiles ==> Sound(s, valid, id))
    && (forall i, j :: i in s.profiles && j in s.profiles && s.profiles[i].secretRef == s.profiles[j].secretRef ==>
      i == j)
  }

  lemma EffectKeepsConsistency(s: Stores, valid: Validity, op: Op)
    requires Consistent(s, valid) && Accepts(s, valid, op) && (op.Create? ==> op.profile.policyVersion < VERSIONS)
    ensures Consistent(Effect(s, valid, op), valid)
  {
    var after := Effect(s, valid, op);
    forall id | id in after.profiles ensures Sound(after, valid, id) {
      if id in s.profiles {
        assert Sound(s, valid, id);
      }
    }
  }

  // ---------------------------------------------------------------- the manager

  class ConnectionManager {
    const valid: Validity
    var profiles: map<nat, Profile>
    var credentials: map<string, Secret>
    var revisions: map<nat, nat>

    constructor (valid: Validity)
      ensures this.valid == valid && Now() == Stores(map[], map[]) && revisions == map[]
    {
      this.valid, profiles, credentials, revisions := valid, map[], map[], map[];
    }

    ghost function Now(): Stores
      reads this
    {
      Stores(profiles, credentials)
    }

    function Revision(id: nat): nat
      reads this
    {
      if id in revisions then revisions[id] else 0
    }

    method BumpRevision(id: nat)
      modifies this`revisions
      ensures revisions == old(revisions)[id := old(Revision(id)) + 1]
    {
      revisions := revisions[id := Revision(id) + 1];
    }

    /** Validates, then writes the row and bumps the revision in one transaction. */
    method Upsert(profile: Profile, fails: bool) returns (error: Option<AdminError>)
      modifies this`profiles, this`revisions
      ensures error.None? <==> valid(profile) && !fails
      ensures error.None? ==>
        profiles == old(profiles)[profile.id := profile] && Revision(profile.id) == old(Revision(profile.id)) + 1
      ensures error.Some? ==> profiles == old(profiles) && revisions == old(revisions)
    {
      if !valid(profile) { return Some(InvalidProfile); }
      if fails { return Some(StoreFailure); }
      profiles := profiles[profile.id := profile];
      BumpRevision(profile.id);
      return None;
    }

    method Create(profile: Profile, secret: Secret, failing: set<Access>) returns (error: Option<AdminError>)
      requires Consistent(Now(), valid)
      modifies this
      ensures AllOrNothing(old(Now()), Now(), valid, Op.Create(profile, secret), failing, error.None?)
      ensures error.Some? ==> profiles == old(profiles) && revisions == old(revisions)
      ensures error.Some? ==> credentials - {profile.secretRef} == old(credentials) - {profile.secretRef}
      // a leftover credential under the same reference is lost exactly when the failure comes after the put
      ensures error.Some? && UndoCredential !in failing && profile.secretRef in old(credentials) ==>
        (credentials == old(credentials) <==>
          !(Accepts(old(Now()), valid, Op.Create(profile, secret))
            && {GetProfile, ListProfiles, PutCredential} !! failing))
    {
      if GetProfile in failing { return Some(StoreFailure); }
      if profile.id in profiles { return Some(AlreadyExists); }
      if profile.authKind != secret.kind { return Some(AuthenticationKindMismatch); }
      if !valid(profile) { return Some(InvalidProfile); }
      if ListProfiles in failing { return Some(StoreFailure); }
      if exists id :: id in profiles && profiles[id].secretRef == profile.secretRef {
        return Some(CredentialReferenceInUse);
      }
      if PutCredential in failing { return Some(StoreFailure); }
      credentials := credentials[profile.secretRef := secret];
      error := Upsert(profile, UpsertProfile in failing);
      if error.Some? && UndoCredential !in failing {
        credentials := credentials - {profile.secretRef};
      }
    }

    method UpdateProfile(profile: Profile, failing: set<Access>) returns (error: Option<AdminError>)
      requires Consistent(Now(), valid)
      modifies this`profiles, this`revisions
      ensures AllOrNothing(old(Now()), Now(), valid, Op.UpdateProfile(profile), failing, error.None?)
      ensures error.None? ==> OnlyRewrites(old(profiles), profiles, Op.UpdateProfile(profile), profile.id)
      ensures error.Some? ==> revisions == old(revisions)
    {
      if GetProfile in failing { return Some(StoreFailure); }
      if profile.id !in profiles { return Some(NotFound); }
      var existing := profiles[profile.id];
      if profile.secretRef != existing.secretRef || profile.authKind != existing.authKind {
        return Some(AuthenticationKindMismatch);
      }
      error := Upsert(Edited(existing, profile), UpsertProfile in failing);
    }

    method SetPolicy(id: nat, policy: Policy, failing: set<Access>) returns (error: Option<AdminError>)
      requires Consistent(Now(), valid)
      modifies this`profiles, this`revisions
      ensures AllOrNothing(old(Now()), Now(), valid, Op.SetPolicy(id, policy), failing, error.None?)
      ensures error.None? ==> OnlyRewrites(old(profiles), profiles, Op.SetPolicy(id, policy), id)
      ensures error.Some? ==> revisions == old(revisions)
    {
      if GetProfile in failing { return Some(StoreFailure); }
      if id !in profiles { return Some(NotFound); }
      assert Sound(Now(), valid, id);
      error := Upsert(WithPolicy(profiles[id], policy), UpsertProfile in failing);
    }

    method SetEnabled(id: nat, enabled: bool, failing: set<Access>) returns (error: Option<AdminError>)
      requires Consistent(Now(), valid)
      modifies this`profiles, this`revisions
      ensures AllOrNothing(old(Now()), Now(), valid, Op.SetEnabled(id, enabled), failing, error.None?)
      ensures error.None? ==> OnlyRewrites(old(profiles), profiles, Op.SetEnabled(id, enabled), id)
      ensures error.Some? ==> revisions == old(revisions)
    {
      if GetProfile in failing { return Some(StoreFailure); }
      if id !in profiles { return Some(NotFound); }
      assert Sound(Now(), valid, id);
      if profiles[id].policy.enabled == enabled {
        assert profiles[id := profiles[id]] == profiles;
        return None;
      }
      error := Upsert(WithEnabled(profiles[id], enabled), UpsertProfile in failing);
    }

    method ReplaceSecret(id: nat, secret: Secret, failing: set<Access>) returns (error: Option<AdminError>)
      requires Consistent(Now(), valid)
      modifies this`credentials, this`revisions
      ensures AllOrNothing(old(Now()), Now(), valid, Op.ReplaceSecret(id, secret), failing, error.None?)
      ensures Consistent(Now(), valid)
    {
      if GetProfile in failing { return Some(StoreFailure); }
      if id !in profiles { return Some(NotFound); }
      assert Sound(Now(), valid, id);
      var profile := profiles[id];
      if profile.authKind != secret.kind { return Some(AuthenticationKindMismatch); }
      if GetCredential in failing { return Some(StoreFailure); }
      var previous := if profile.secretRef in credentials then Some(credentials[profile.secretRef]) else None;
      if PutCredential in failing { return Some(StoreFailure); }
      credentials := credentials[profile.secretRef := secret];
      EffectKeepsConsistency(old(Now()), valid, Op.ReplaceSecret(id, secret));
      if NotifyChanged in failing {
        if UndoCredential !in failing {
          credentials := if previous.Some? then credentials[profile.secretRef := previous.value]
            else credentials - {profile.secretRef};
          assert credentials == old(credentials);
        }
        return Some(StoreFailure);
      }
      BumpRevision(id);
      return None;
    }

    method ReplaceConnection(profile: Profile, secret: Secret, failing: set<Access>) returns (error: Option<AdminError>)
      requires Consistent(Now(), valid)
      modifies this
      ensures AllOrNothing(old(Now()), Now(), valid, Op.ReplaceConnection(profile, secret), failing, error.None?)
      ensures error.None? ==> OnlyRewrites(old(profiles), profiles, Op.ReplaceConnection(profile, secret), profile.id)
      ensures error.Some? ==> profiles == old(profiles) && revisions == old(revisions)
    {
      if GetProfile in failing { return Some(StoreFailure); }
      if profile.id !in profiles { return Some(NotFound); }
      var existing := profiles[profile.id];
      assert Sound(Now(), valid, profile.id);
      if profile.id != existing.id || profile.secretRef != existing.secretRef {
        return Some(ConnectionIdentityMismatch);
      }
      if profile.authKind != secret.kind { return Some(AuthenticationKindMismatch); }
      if !valid(profile) { return Some(InvalidProfile); }
      var updated := Edited(existing, profile);
      if GetCredential in failing { return Some(StoreFailure); }
      if existing.secretRef !in credentials { return Some(NotFound); }
      var previous := credentials[existing.secretRef];
      if PutCredential in failing { return Some(StoreFailure); }
      credentials := credentials[updated.secretRef := secret];
      error := Upsert(updated, UpsertProfile in failing);
      if error.Some? && UndoCredential !in failing {
        credentials := credentials[existing.secretRef := previous];
        assert credentials == old(credentials);
      }
    }

    /** Even when the compensation fails, no profile is left without its credential. */
    method Delete(id: nat, failing: set<Access>) returns (error: Option<AdminError>)
      requires Consistent(Now(), valid)
      modifies this
      ensures AllOrNothing(old(Now()), Now(), valid, Op.Delete(id), failing, error.None?)
      ensures Consistent(Now(), valid)
    {
      if GetProfile in failing { return Some(StoreFailure); }
      if id !in profiles { return Some(NotFound); }
      assert Sound(Now(), valid, id);
      var profile := profiles[id];
      if GetCredential in failing { return Some(StoreFailure); }
      var secret := if profile.secretRef in credentials then Some(credentials[profile.secretRef]) else None;
      if DeleteProfile in failing { return Some(StoreFailure); }
      profiles := profiles - {id};
      BumpRevision(id);
      EffectKeepsConsistency(old(Now()), valid, Op.Delete(id));
      if secret.Some? {
        if DeleteCredential in failing {
          assert forall other :: other in profiles ==> Sound(old(Now()), valid, other);
          if UndoCredential !in failing {
            credentials := credentials[profile.secretRef := secret.value];
            assert credentials == old(credentials);
            var undone := Upsert(profile, UndoProfile in failing);
            assert undone.None? ==> profiles == old(profiles);
          }
          return Some(StoreFailure);
        }
        credentials := credentials - {profile.secretRef};
      }
      return None;
    }
  }

  // ---------------------------------------------------------------- sequential runs

  /** An operation together with the store accesses that fail during it. */
  datatype Event = Event(op: Op, failing: set<Access>)

  predicate Succeeds(before: Stores, valid: Validity, event: Event) {
    Accepts(before, valid, event.op) && Needs(before, event.op) !! event.failing
  }

  function Outcome(before: Stores, valid: Validity, event: Event): Stores {
    if Succeeds(before, valid, event) then Effect(before, valid, event.op) else before
  }

  function After(s: Stores, valid: Validity, events: seq<Event>): Stores {
    if events == [] then s else Outcome(After(s, valid, events[..|events| - 1]), valid, events[|events| - 1])
  }

  /**
   What the manager's methods do to the stores, call by call: each step is all or nothing in the sense of their
   contracts, and failures are compensated for.
   */
  ghost predicate Run(states: seq<Stores>, valid: Validity, events: seq<Event>) {
    && |states| == |events| + 1
    && forall i :: 0 <= i < |events| ==> RunStep(states[i], states[i + 1], valid, events[i])
  }

  ghost predicate RunStep(before: Stores, after: Stores, valid: Validity, event: Event) {
    && Undoable(before, event.op, event.failing)
    && exists ok :: AllOrNothing(before, after, valid, event.op, event.failing, ok)
  }

  /** Runs of the manager go through exactly the specified stores: no failure leaves a trace. */
  lemma {:induction false} RunsFollowEvents(states: seq<Stores>, valid: Validity, events: seq<Event>, n: nat)
    requires Run(states, valid, events) && n <= |events|
    ensures states[n] == After(states[0], valid, events[..n])
  {
    if n > 0 {
      RunsFollowEvents(states, valid, events, n - 1);
      assert RunStep(states[n - 1], states[n - 1 + 1], valid, events[n - 1]);
      assert events[..n][..n - 1] == events[..n - 1];
    }
  }

  predicate CreatesInRange(events: seq<Event>) {
    forall i :: 0 <= i < |events| && events[i].op.Create? ==> events[i].op.profile.policyVersion < VERSIONS
  }

  lemma {:induction false} ConsistentAlways(s: Stores, valid: Validity, events: seq<Event>)
    requires Consistent(s, valid) && CreatesInRange(events)
    ensures Consistent(After(s, valid, events), valid)
  {
    if events != [] {
      ConsistentAlways(s, valid, events[..|events| - 1]);
      var before := After(s, valid, events[..|events| - 1]);
      var last := events[|events| - 1];
      if Succeeds(before, valid, last) {
        EffectKeepsConsistency(before, valid, last.op);
      }
    }
  }

  /** The stores stay consistent over every run of the manager whose failures are compensated for. */
  lemma RunsStayConsistent(states: seq<Stores>, valid: Validity, events: seq<Event>, n: nat)
    requires Run(states, valid, events) && n <= |events| && Consistent(states[0], valid) && CreatesInRange(events)
    ensures Consistent(states[n], valid)
  {
    RunsFollowEvents(states, valid, events, n);
    ConsistentAlways(states[0], valid, events[..n]);
  }

  // ---------------------------------------------------------------- policy versions

  /** The operation moves the version of this connection's policy. */
  predicate Bumps(s: Stores, valid: Validity, op: Op, id: nat)
    requires id in s.profiles
  {
    && Accepts(s, valid, op)
    && match op
       case UpdateProfile(profile) => profile.id == id && profile.policy != s.profiles[id].policy
       case ReplaceConnection(profile, _) => profile.id == id && profile.policy != s.profiles[id].policy
       case SetPolicy(i, _) => i == id
       case SetEnabled(i, enabled) => i == id && s.profiles[id].policy.enabled != enabled
       case _ => false
  }

  /**
   A connection that is neither deleted nor created stays, its version moves by one exactly when the operation
   bumps it, and its policy is the one the operation asks for.
   */
  lemma OneStep(s: Stores, valid: Validity, op: Op, id: nat)
    requires Consistent(s, valid) && Accepts(s, valid, op) && id in s.profiles
    requires !(op.Create? && op.profile.id == id) && op != Op.Delete(id)
    ensures var after := Effect(s, valid, op);
      && id in after.profiles
      && (Bumps(s, valid, op, id) ==> after.profiles[id].policyVersion == NextVersion(s.profiles[id].policyVersion))
      && (!Bumps(s, valid, op, id) ==>
        after.profiles[id].policyVersion == s.profiles[id].policyVersion
          && after.profiles[id].policy == s.profiles[id].policy)
      && after.profiles[id].policy ==
        if Target(op) == Some(id) then Asked(op, s.profiles[id].policy) else s.profiles[id].policy
  {
  }

  /** The version after a number of changes. */
  function Later(version: nat, changes: nat): nat {
    if changes == 0 then version else NextVersion(Later(version, changes - 1))
  }

  /** Versions come back after 2^64 changes and not before. */
  lemma {:induction false} LaterWraps(version: nat, changes: nat)
    requires version < 0x1_0000_0000_0000_0000 && changes <= 0x1_0000_0000_0000_0000
    ensures Later(version, changes) == if version + changes < 0x1_0000_0000_0000_0000 then version + changes
      else version + changes - 0x1_0000_0000_0000_0000
    ensures Later(version, changes) == version <==> changes == 0 || changes == 0x1_0000_0000_0000_0000
  {
    if changes > 0 {
      LaterWraps(version, changes - 1);
    }
  }

  /**
   Where a connection's version and policy come from: what it was when the connection last came to be, the changes
   since, and the policy asked for last.
   */
  datatype Lineage = Lineage(profile: Profile, changes: nat, policy: Policy)

  function LineageAfter(before: Stores, valid: Validity, lineage: Option<Lineage>, event: Event,
    id: nat): Option<Lineage> {
    if !Succeeds(before, valid, event) then lineage
    else if event.op.Create? && event.op.profile.id == id then
      Some(Lineage(event.op.profile, 0, event.op.profile.policy))
    else if event.op == Op.Delete(id) then None
    else if lineage.None? then None
    else Some(Lineage(lineage.value.profile,
      lineage.value.changes + (if id in before.profiles && Bumps(before, valid, event.op, id) then 1 else 0),
      if Target(event.op) == Some(id) then Asked(event.op, lineage.value.policy) else lineage.value.policy))
  }

  function LineageOf(s: Stores, valid: Validity, events: seq<Event>, id: nat): Option<Lineage> {
    if events == [] then (if id in s.profiles then Some(Lineage(s.profiles[id], 0, s.profiles[id].policy)) else None)
    else
      var shorter := events[..|events| - 1];
      LineageAfter(After(s, valid, shorter), valid, LineageOf(s, valid, shorter, id), events[|events| - 1], id)
  }

  /** The stored profile descends from this lineage. */
  predicate Descends(s: Stores, id: nat, lineage: Option<Lineage>) {
    && (id in s.profiles <==> lineage.Some?)
    && (lineage.Some? ==>
      && s.profiles[id].policyVersion == Later(lineage.value.profile.policyVersion, lineage.value.changes)
      && s.profiles[id].policy == lineage.value.policy
      && (lineage.value.changes == 0 ==> lineage.value.policy == lineage.value.profile.policy))
  }

  lemma EventKeepsLineage(before: Stores, valid: Validity, lineage: Option<Lineage>, event: Event, id: nat)
    requires Consistent(before, valid) && Descends(before, id, lineage)
    ensures Descends(Outcome(before, valid, event), id, LineageAfter(before, valid, lineage, event, id))
  {
    if Succeeds(before, valid, event) && id in before.profiles
      && !(event.op.Create? && event.op.profile.id == id) && event.op != Op.Delete(id)
    {
      OneStep(before, valid, event.op, id);
    }
  }

  /**
   Over every run, with any number of deletions and creations: the stored version is the one the connection had
   when it last came to be, moved once per change since, and the policy in force is the one asked for last.
   */
  lemma {:induction false} VersionCountsChanges(s: Stores, valid: Validity, events: seq<Event>, id: nat)
    requires Consistent(s, valid) && CreatesInRange(events)
    ensures Descends(After(s, valid, events), id, LineageOf(s, valid, events, id))
  {
    if events != [] {
      var shorter, last := events[..|events| - 1], events[|events| - 1];
      VersionCountsChanges(s, valid, shorter, id);
      ConsistentAlways(s, valid, shorter);
      EventKeepsLineage(After(s, valid, shorter), valid, LineageOf(s, valid, shorter, id), last, id);
    }
  }

  // ---------------------------------------------------------------- grants and versions

  lemma VersionDecides(verifier: Grants.Verifier, grant: Grants.Grant, ctx: Grants.Context, now: int)
    ensures Grants.Verify(verifier, grant, ctx, now).Verified? <==>
      && ctx.policyVersion == grant.claims.policyVersion
      && Grants.Verify(verifier, grant, ctx.(policyVersion := grant.claims.policyVersion), now).Verified?
  {
  }

  /**
   Exactly when a grant verifies after a run: it verifies apart from the version, and the version it claims is
   the one the connection last came to be with, moved once per change since.
   */
  lemma GrantMatchesIff(s: Stores, valid: Validity, events: seq<Event>, id: nat,
                        verifier: Grants.Verifier, grant: Grants.Grant, ctx: Grants.Context, now: int)
    requires Consistent(s, valid) && CreatesInRange(events) && id in After(s, valid, events).profiles
    requires ctx.policyVersion == After(s, valid, events).profiles[id].policyVersion
    ensures LineageOf(s, valid, events, id).Some?
    ensures
      var lineage := LineageOf(s, valid, events, id).value;
      Grants.Verify(verifier, grant, ctx, now).Verified? <==>
        && Later(lineage.profile.policyVersion, lineage.changes) == grant.claims.policyVersion
        && Grants.Verify(verifier, grant, ctx.(policyVersion := grant.claims.policyVersion), now).Verified?
  {
    VersionCountsChanges(s, valid, events, id);
    VersionDecides(verifier, grant, ctx, now);
  }

  predicate Keeps(events: seq<Event>, id: nat) {
    forall i :: 0 <= i < |events| ==>
      !(events[i].op.Create? && events[i].op.profile.id == id) && events[i].op != Op.Delete(id)
  }

  lemma {:induction false} KeptLineage(s: Stores, valid: Validity, events: seq<Event>, id: nat)
    requires Keeps(events, id) && id in s.profiles
    ensures LineageOf(s, valid, events, id).Some? && LineageOf(s, valid, events, id).value.profile == s.profiles[id]
  {
    if events != [] {
      KeptLineage(s, valid, events[..|events| - 1], id);
    }
  }

  /**
   A grant issued before a policy change does not verify after it, as long as fewer than 2^64 changes
   lie between and the connection was not deleted and created anew.
   */
  lemma EarlierGrantsStopVerifying(s: Stores, valid: Validity, events: seq<Event>, id: nat,
                                   verifier: Grants.Verifier, grant: Grants.Grant, ctx: Grants.Context, now: int)
    requires Consistent(s, valid) && CreatesInRange(events) && id in s.profiles && Keeps(events, id)
    requires LineageOf(s, valid, events, id).Some? ==> LineageOf(s, valid, events, id).value.changes < VERSIONS
    requires grant.claims.policyVersion == s.profiles[id].policyVersion
    ensures id in After(s, valid, events).profiles && LineageOf(s, valid, events, id).Some?
    ensures
      var later := After(s, valid, events).profiles[id];
      ctx.policyVersion == later.policyVersion && Grants.Verify(verifier, grant, ctx, now).Verified? ==>
        LineageOf(s, valid, events, id).value.changes == 0 && later.policy == s.profiles[id].policy
  {
    KeptLineage(s, valid, events, id);
    VersionCountsChanges(s, valid, events, id);
    if ctx.policyVersion == After(s, valid, events).profiles[id].policyVersion
      && Grants.Verify(verifier, grant, ctx, now).Verified? {
      GrantMatchesIff(s, valid, events, id, verifier, grant, ctx, now);
      assert Sound(s, valid, id);
      LaterWraps(s.profiles[id].policyVersion, LineageOf(s, valid, events, id).value.changes);
    }
  }

  /**
   A connection deleted and created anew may carry an old version with another policy; a grant of the old one then
   matches again.
   */
  lemma RecreationReusesVersions(first: Profile, secret: Secret, policy: Policy, valid: Validity)
    requires valid(first) && valid(first.(policy := policy)) && first.authKind == secret.kind && policy != first.policy
    ensures
      var s := Stores(map[first.id := first], map[first.secretRef := secret]);
      var after := After(s, valid, [Event(Op.Delete(first.id), {}),
        Event(Op.Create(first.(policy := policy), secret), {})]);
      && first.id in after.profiles
      && after.profiles[first.id].policyVersion == first.policyVersion
      && after.profiles[first.id].policy != first.policy
  {
    var s := Stores(map[first.id := first], map[first.secretRef := secret]);
    var events := [Event(Op.Delete(first.id), {}), Event(Op.Create(first.(policy := policy), secret), {})];
    assert events[..1] == [events[0]] && events[..1][..0] == [];
    assert After(s, valid, events[..1]) == Outcome(s, valid, events[0]);
  }
}

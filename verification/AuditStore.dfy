/** The persistent audit database: idempotency records and spent grant nonces, one transaction per call. */
module AuditStore {
  import opened Grants

  /** What an idempotency record is filed under. */
  datatype Slot = Slot(connection: nat, key: string)

  datatype RecordState = InFlight | Succeeded | Unknown

  datatype Record = Record(hash: string, state: RecordState)

  type Records = map<Slot, Record>

  datatype Reservation = Reserved | Existing(state: RecordState) | KeyConflict

  function Reserve(records: Records, slot: Slot, hash: string): (Records, Reservation) {
    if slot !in records then (records[slot := Record(hash, InFlight)], Reserved)
    else if records[slot].hash == hash then (records, Existing(records[slot].state))
    else (records, KeyConflict)
  }

  /** The record a finishing write may change: its own hash, and still in flight. */
  predicate Open(records: Records, slot: Slot, hash: string) {
    slot in records && records[slot] == Record(hash, InFlight)
  }

  function Settle(records: Records, slot: Slot, hash: string, state: RecordState): Records {
    if Open(records, slot, hash) then records[slot := Record(hash, state)] else records
  }

  function Release(records: Records, slot: Slot, hash: string): Records {
    if Open(records, slot, hash) then records - {slot} else records
  }

  class AuditRepository {
    var records: Records
    var nonces: NonceTable

    constructor ()
      ensures records == map[] && nonces == map[]
    {
      records, nonces := map[], map[];
    }

    method ConsumeGrantNonce(grant: Spendable, now: int) returns (outcome: Consumption)
      modifies this`nonces
      ensures (nonces, outcome) == Consume(old(nonces), grant, now)
      ensures outcome == Consumed ==> grant.key in nonces && nonces[grant.key] == grant.expiresAt > now
      ensures forall k :: k in old(nonces) && old(nonces)[k] > now ==> k in nonces && nonces[k] == old(nonces)[k]
    {
      nonces := map k | k in nonces && nonces[k] > now :: nonces[k];
      if grant.expiresAt <= now { return Expired; }
      if grant.key in nonces { return Replayed; }
      nonces := nonces[grant.key := grant.expiresAt];
      return Consumed;
    }

    method ReserveIdempotency(slot: Slot, hash: string) returns (outcome: Reservation)
      modifies this`records
      ensures (records, outcome) == Reserve(old(records), slot, hash)
      ensures outcome == Reserved <==> slot !in old(records)
      ensures outcome == Reserved ==> records == old(records)[slot := Record(hash, InFlight)]
      ensures outcome != Reserved ==> records == old(records)
      ensures outcome.Existing? <==>
        slot in old(records) && old(records)[slot] == Record(hash, old(records)[slot].state)
      ensures outcome.Existing? ==> outcome.state == old(records)[slot].state
      ensures Open(records, slot, hash) <==> outcome == Reserved || outcome == Existing(InFlight)
    {
      if slot !in records {
        records := records[slot := Record(hash, InFlight)];
        return Reserved;
      }
      if records[slot].hash == hash { return Existing(records[slot].state); }
      return KeyConflict;
    }

    method UpdateIdempotencyState(slot: Slot, hash: string, state: RecordState) returns (ok: bool)
      modifies this`records
      ensures records == Settle(old(records), slot, hash, state)
      ensures ok <==> Open(old(records), slot, hash)
      ensures records == if ok then old(records)[slot := Record(hash, state)] else old(records)
    {
      if slot in records && records[slot].hash == hash && records[slot].state == InFlight {
        records := records[slot := Record(hash, state)];
        return true;
      }
      return false;
    }

    method ReleaseIdempotency(slot: Slot, hash: string) returns (ok: bool)
      modifies this`records
      ensures records == Release(old(records), slot, hash)
      ensures ok <==> Open(old(records), slot, hash)
      ensures ok <==> slot in old(records) && slot !in records
      ensures records == if ok then old(records) - {slot} else old(records)
    {
      if slot in records && records[slot].hash == hash && records[slot].state == InFlight {
        records := records - {slot};
        return true;
      }
      return false;
    }
  }
}

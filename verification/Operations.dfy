/** Data operations, how the policy layer classifies them, and which of them are writes. */
module Operations {
  import opened Options

  datatype Operation =
    | Read
    | Search
    | VectorSearch
    | NativeQuery
    | Insert(key: Option<string>)
    | Update(key: Option<string>)
    | Delete(key: Option<string>)
    | NativeExecute(key: Option<string>)
    | VectorUpsert(key: Option<string>)
    | TimeSeriesWrite(key: Option<string>)

  datatype Action = ReadAction | InsertAction | UpdateAction | DeleteAction | NativeReadAction | NativeWriteAction

  function Classify(op: Operation): Action {
    match op
    case Read => ReadAction
    case Search => ReadAction
    case VectorSearch => ReadAction
    case Insert(_) => InsertAction
    case VectorUpsert(_) => InsertAction
    case TimeSeriesWrite(_) => InsertAction
    case Update(_) => UpdateAction
    case Delete(_) => DeleteAction
    case NativeQuery => NativeReadAction
    case NativeExecute(_) => NativeWriteAction
  }

  /** The runtime's notion of a write, by policy action. */
  predicate WriteAction(op: Operation) {
    Classify(op) in {InsertAction, UpdateAction, DeleteAction, NativeWriteAction}
  }

  // Each layer below the runtime has its own list of writes.

  /** The supervisor's list, which decides what may be sent again. */
  predicate SupervisorSeesWrite(op: Operation) {
    op.Insert? || op.Update? || op.Delete? || op.NativeExecute? || op.VectorUpsert? || op.TimeSeriesWrite?
  }

  /** The proxy's list, which decides how a client error is reported. */
  predicate ProxySeesWrite(op: Operation) {
    op.Insert? || op.Update? || op.Delete? || op.NativeExecute? || op.VectorUpsert? || op.TimeSeriesWrite?
  }

  /** The worker's list, which decides how an interruption is reported. */
  predicate WorkerSeesWrite(op: Operation) {
    op.Insert? || op.Update? || op.Delete? || op.NativeExecute? || op.VectorUpsert? || op.TimeSeriesWrite?
  }

  /** What each operation needs permission for. */
  lemma ActionsByKind(op: Operation)
    ensures Classify(op) == ReadAction <==> op.Read? || op.Search? || op.VectorSearch?
    ensures Classify(op) == InsertAction <==> op.Insert? || op.VectorUpsert? || op.TimeSeriesWrite?
    ensures Classify(op) == UpdateAction <==> op.Update?
    ensures Classify(op) == DeleteAction <==> op.Delete?
    ensures Classify(op) == NativeReadAction <==> op.NativeQuery?
    ensures Classify(op) == NativeWriteAction <==> op.NativeExecute?
  {}

  /** Exactly the writes have a key, and it is the one they carry. */
  lemma KeyIsTheWritesOwn(op: Operation)
    ensures WriteAction(op) ==> WriteKey(op) == op.key
    ensures !WriteAction(op) ==> WriteKey(op) == None
  {}

  /** The idempotency key of a write; reads have none. */
  function WriteKey(op: Operation): Option<string> {
    match op
    case Insert(key) => key
    case Update(key) => key
    case Delete(key) => key
    case NativeExecute(key) => key
    case VectorUpsert(key) => key
    case TimeSeriesWrite(key) => key
    case _ => None
  }

  /** Every layer agrees with the policy on what a write is, so no layer resends or relabels another layer's write. */
  lemma WritePredicatesAgree(op: Operation)
    ensures WriteAction(op) <==> SupervisorSeesWrite(op)
    ensures WriteAction(op) <==> ProxySeesWrite(op)
    ensures WriteAction(op) <==> WorkerSeesWrite(op)
    ensures WriteKey(op).Some? ==> WriteAction(op)
  {}
}

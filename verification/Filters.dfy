/** The portable filter language shared by the document connectors. */
module Filters {
  import opened Options

  datatype DbValue = Null | Bool(b: bool) | Int(n: int) | Text(s: string) | Doc(entries: map<string, DbValue>)

  datatype Comparison = EqOp | NeOp | LtOp | LteOp | GtOp | GteOp

  datatype Filter =
    | Compare(op: Comparison, field: string, value: DbValue)
    | In(field: string, values: seq<DbValue>)
    | Contains(field: string, value: DbValue)
    | And(filters: seq<Filter>)
    | Or(filters: seq<Filter>)
    | Not(filter: Filter)

  /** Conversion of a list of values, which fails as a whole when one of them is rejected. */
  function ConvertAll<T>(convert: DbValue -> Option<T>, values: seq<DbValue>): (r: Option<seq<T>>)
    ensures r.Some? ==> |r.value| == |values|
    ensures r.Some? ==> forall i :: 0 <= i < |values| ==> convert(values[i]) == Some(r.value[i])
  {
    if values == [] then Some([]) else
      match (convert(values[0]), ConvertAll(convert, values[1..]))
      case (Some(first), Some(rest)) => Some([first] + rest)
      case _ => None
  }
}

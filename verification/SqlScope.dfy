/**
 Reference definitions of what the read-policy analysis should compute, by plain recursion over
 the whole query: which queries are read-only at every depth, and which base relations are free
 (not bound by a common table expression in scope).
 */
module SqlScope {
  import opened SqlSyntax

  // ---------------------------------------------------------------- read-only at every depth

  predicate OkQuery(q: Query) {
    !q.locked && !q.piped && OkCtes(q.ctes) && OkSet(q.body) && OkExprs(q.tail)
  }

  predicate OkCtes(ctes: seq<Cte>) {
    ctes == [] ||
    (OkCte(ctes[0]) && OkCtes(ctes[1..]))
  }

  predicate OkCte(cte: Cte) {
    !cte.hasFrom && KeyOk(cte.alias) && OkQuery(cte.query)
  }

  predicate OkSet(s: SetExpr) {
    match s
    case Select(into, lateralViews, _, projection, from, selection) =>
      !into && !lateralViews && OkExprs(projection) && OkJoins(from) && OkExprs(selection)
    case Nested(q) => OkQuery(q)
    case SetOperation(_, left, right) => OkSet(left) && OkSet(right)
    case Values(cells) => OkExprs(cells)
    case Mutation(_) => false
    case TableBody(_) => false
  }

  predicate OkJoins(joins: seq<Join>) {
    joins == [] || (OkFactor(joins[0].factor) && OkExprs(joins[0].on) && OkJoins(joins[1..]))
  }

  predicate OkFactor(factor: TableFactor) {
    match factor
    case Table(name, plain, hints) => plain && RelationOk(name) && OkExprs(hints)
    case Derived(_, q) => OkQuery(q)
    case NestedJoin(joins) => OkJoins(joins)
    case Unsupported(_, _, _) => false
  }

  predicate OkExprs(exprs: seq<Expr>) {
    exprs == [] || (OkExpr(exprs[0]) && OkExprs(exprs[1..]))
  }

  predicate OkExpr(expr: Expr) {
    match expr
    case Column(_) => true
    case Call(_, arguments) => OkExprs(arguments)
    case SubQuery(_, arguments, q) => OkExprs(arguments) && OkQuery(q)
  }

  // ---------------------------------------------------------------- free base relations

  /** The resource one relation name stands for, unless a common table expression captures it. */
  function FreeRelation(name: ObjectName, bound: set<string>, sem: Semantics): set<string> {
    var parts := Parts(name, sem);
    if |parts| == 1 && parts[0] in bound then {} else {Dotted(parts)}
  }

  function FreeQuery(q: Query, bound: set<string>, sem: Semantics): set<string>
    decreases q
  {
    var inner := BoundCtes(q.ctes, bound, sem);
    FreeCtes(q.recursive, q.ctes, bound, sem) + FreeSet(q.body, inner, sem) + FreeExprs(q.tail, inner, sem)
  }

  function BoundCtes(ctes: seq<Cte>, bound: set<string>, sem: Semantics): set<string> {
    if ctes == [] then bound else BoundCtes(ctes[1..], bound + {Folded(ctes[0].alias, sem)}, sem)
  }

  function FreeCtes(recursive: bool, ctes: seq<Cte>, bound: set<string>, sem: Semantics): set<string>
    decreases ctes
  {
    if ctes == [] then {} else
      var extended := bound + {Folded(ctes[0].alias, sem)};
      FreeCte(ctes[0], if recursive then extended else bound, sem) + FreeCtes(recursive, ctes[1..], extended, sem)
  }

  function FreeCte(cte: Cte, bound: set<string>, sem: Semantics): set<string>
    decreases cte
  {
    FreeQuery(cte.query, bound, sem)
  }

  function FreeSet(s: SetExpr, bound: set<string>, sem: Semantics): set<string>
    decreases s
  {
    match s
    case Select(_, _, _, projection, from, selection) =>
      FreeExprs(projection, bound, sem) + FreeJoins(from, bound, sem) + FreeExprs(selection, bound, sem)
    case Nested(q) => FreeQuery(q, bound, sem)
    case SetOperation(_, left, right) => FreeSet(left, bound, sem) + FreeSet(right, bound, sem)
    case Values(cells) => FreeExprs(cells, bound, sem)
    case Mutation(_) => {}
    case TableBody(_) => {}
  }

  function FreeJoins(joins: seq<Join>, bound: set<string>, sem: Semantics): set<string>
    decreases joins
  {
    if joins == [] then {} else
      FreeFactor(joins[0].factor, bound, sem) + FreeExprs(joins[0].on, bound, sem) + FreeJoins(joins[1..], bound, sem)
  }

  function FreeFactor(factor: TableFactor, bound: set<string>, sem: Semantics): set<string>
    decreases factor
  {
    match factor
    case Table(name, _, hints) => FreeRelation(name, bound, sem) + FreeExprs(hints, bound, sem)
    case Derived(_, q) => FreeQuery(q, bound, sem)
    case NestedJoin(joins) => FreeJoins(joins, bound, sem)
    case Unsupported(_, inner, arguments) => FreeJoins(inner, bound, sem) + FreeExprs(arguments, bound, sem)
  }

  function FreeExprs(exprs: seq<Expr>, bound: set<string>, sem: Semantics): set<string>
    decreases exprs
  {
    if exprs == [] then {} else FreeExpr(exprs[0], bound, sem) + FreeExprs(exprs[1..], bound, sem)
  }

  function FreeExpr(expr: Expr, bound: set<string>, sem: Semantics): set<string>
    decreases expr
  {
    match expr
    case Column(_) => {}
    case Call(_, arguments) => FreeExprs(arguments, bound, sem)
    case SubQuery(_, arguments, q) => FreeExprs(arguments, bound, sem) + FreeQuery(q, bound, sem)
  }
}

/**
 What a query evaluates to: lexically scoped common table expressions (recursive ones by
 iteration), correlated sub-queries, lateral derived tables and joins, with every operator left to
 an arbitrary interpretation. The analysis is sound for this meaning: an accepted query's result
 is a function of the relations the analysis returned.
 */
module SqlSemantics {
  import opened SqlSyntax
  import opened SqlScope

  datatype Value = Null | Number(n: int) | Text(s: string)
  type Row = seq<Value>
  type Rows = seq<Row>
  type Context = seq<Row>               // rows of the enclosing queries, outermost first
  type Database = map<seq<string>, Rows>  // base relations by the parts of their stored name
  type Environment = map<string, Rows>  // common table expressions in scope

  /** Everything a database engine decides for itself. */
  datatype Engine = Engine(
    column: (string, Context) -> Value,
    call: (string, seq<Value>) -> Value,
    subquery: (string, seq<Value>, Rows) -> Value,
    holds: seq<Value> -> bool,
    combine: (string, Row, Rows) -> Rows,          // join kind, left row, matching right rows
    finish: (string, Rows, seq<seq<Value>>) -> Rows, // grouping, aggregation, DISTINCT
    setOperation: (string, Rows, Rows) -> Rows,
    order: (Rows, seq<seq<Value>>) -> Rows,        // ORDER BY, OFFSET, LIMIT
    unanalysed: (string, Database) -> Rows)        // table functions and the like may read anything

  /** One evaluation: the engine, the data, how names are folded, and how often a recursive CTE iterates. */
  datatype World = World(engine: Engine, data: Database, sem: Semantics, rounds: nat)

  function Stored(data: Database, parts: seq<string>): Rows {
    if parts in data then data[parts] else []
  }

  function Lookup(name: ObjectName, w: World, env: Environment): Rows {
    if exists i :: 0 <= i < |name| && name[i].Computed? then w.engine.unanalysed("computed name", w.data) else
      var parts := Parts(name, w.sem);
      if |parts| == 1 && parts[0] in env then env[parts[0]] else Stored(w.data, parts)
  }

  function Kept(engine: Engine, rows: Rows, conditions: seq<seq<Value>>): Rows
    requires |rows| == |conditions|
  {
    if rows == [] then []
    else (if engine.holds(conditions[0]) then [rows[0]] else []) + Kept(engine, rows[1..], conditions[1..])
  }

  function EvalQuery(q: Query, w: World, env: Environment, ctx: Context): Rows
    decreases q, 0, 0
  {
    var inner := Bind(q.recursive, q.ctes, w, env, ctx);
    var rows := EvalSet(q.body, w, inner, ctx);
    var ordered := w.engine.order(rows, EvalPerRow(q.tail, rows, w, inner, ctx));
    if q.piped then w.engine.unanalysed("pipe operator", w.data) else ordered
  }

  function Bind(recursive: bool, ctes: seq<Cte>, w: World, env: Environment, ctx: Context): Environment
    decreases ctes, 0, 0
  {
    if ctes == [] then env else
      var name := Folded(ctes[0].alias, w.sem);
      var rows := if recursive then Iterate(ctes[0], w, env, ctx, w.rounds) else EvalCte(ctes[0], w, env, ctx);
      Bind(recursive, ctes[1..], w, env[name := rows], ctx)
  }

  function EvalCte(cte: Cte, w: World, env: Environment, ctx: Context): Rows
    decreases cte, 0, 0
  {
    EvalQuery(cte.query, w, env, ctx)
  }

  /** A recursive CTE: its query evaluated again and again, each time over its previous rows. */
  function Iterate(cte: Cte, w: World, env: Environment, ctx: Context, rounds: nat): Rows
    decreases cte, 1, rounds
  {
    if rounds == 0 then [] else
      EvalCte(cte, w, env[Folded(cte.alias, w.sem) := Iterate(cte, w, env, ctx, rounds - 1)], ctx)
  }

  function EvalSet(s: SetExpr, w: World, env: Environment, ctx: Context): Rows
    decreases s, 0, 0
  {
    match s
    case Select(_, lateralViews, shape, projection, from, selection) =>
      var joined := EvalJoins(from, [[]], w, env, ctx);
      var kept := Kept(w.engine, joined, EvalPerRow(selection, joined, w, env, ctx));
      if lateralViews then w.engine.unanalysed("lateral view", w.data)
      else w.engine.finish(shape, kept, EvalPerRow(projection, kept, w, env, ctx))
    case Nested(q) => EvalQuery(q, w, env, ctx)
    case SetOperation(operator, left, right) =>
      w.engine.setOperation(operator, EvalSet(left, w, env, ctx), EvalSet(right, w, env, ctx))
    case Values(cells) => [EvalExprs(cells, w, env, ctx)]
    case Mutation(kind) => w.engine.unanalysed(kind, w.data)
    case TableBody(table) => w.engine.unanalysed(table, w.data)
  }

  function EvalJoins(joins: seq<Join>, rows: Rows, w: World, env: Environment, ctx: Context): Rows
    decreases joins, 0, 0
  {
    if joins == [] then rows else EvalJoins(joins[1..], EvalJoin(joins[0], rows, w, env, ctx), w, env, ctx)
  }

  function EvalJoin(join: Join, rows: Rows, w: World, env: Environment, ctx: Context): Rows
    decreases join, 0, |rows|
  {
    if rows == [] then [] else
      var right := EvalFactor(join.factor, rows[0], w, env, ctx);
      var pairs := seq(|right|, i requires 0 <= i < |right| => rows[0] + right[i]);
      var matches := Kept(w.engine, right, EvalPerRow(join.on, pairs, w, env, ctx));
      w.engine.combine(join.kind, rows[0], matches) + EvalJoin(join, rows[1..], w, env, ctx)
  }

  function EvalFactor(factor: TableFactor, left: Row, w: World, env: Environment, ctx: Context): Rows
    decreases factor, 0, 0
  {
    match factor
    case Table(name, plain, hints) =>
      if !plain then w.engine.unanalysed("table function", w.data) else
        Kept(w.engine, Lookup(name, w, env), EvalPerRow(hints, Lookup(name, w, env), w, env, ctx))
    case Derived(lateral, q) => EvalQuery(q, w, env, if lateral then ctx + [left] else ctx)
    case NestedJoin(joins) => EvalJoins(joins, [[]], w, env, ctx)
    case Unsupported(kind, _, _) => w.engine.unanalysed(kind, w.data)
  }

  function EvalPerRow(exprs: seq<Expr>, rows: Rows, w: World, env: Environment, ctx: Context): (values: seq<seq<Value>>)
    ensures |values| == |rows|
    decreases exprs, 1, |rows|
  {
    if rows == [] then [] else
      [EvalExprs(exprs, w, env, ctx + [rows[0]])] + EvalPerRow(exprs, rows[1..], w, env, ctx)
  }

  function EvalExprs(exprs: seq<Expr>, w: World, env: Environment, ctx: Context): seq<Value>
    decreases exprs, 0, 0
  {
    if exprs == [] then [] else [EvalExpr(exprs[0], w, env, ctx)] + EvalExprs(exprs[1..], w, env, ctx)
  }

  function EvalExpr(expr: Expr, w: World, env: Environment, ctx: Context): Value
    decreases expr, 0, 0
  {
    match expr
    case Column(name) => w.engine.column(name, ctx)
    case Call(function_, arguments) => w.engine.call(function_, EvalExprs(arguments, w, env, ctx))
    case SubQuery(kind, arguments, q) =>
      w.engine.subquery(kind, EvalExprs(arguments, w, env, ctx), EvalQuery(q, w, env, ctx))
  }

  // ---------------------------------------------------------------- soundness

  /** Two databases store the same rows in every relation named by one of the resources. */
  ghost predicate Agree(a: Database, b: Database, resources: set<string>) {
    forall parts: seq<string> :: SafeParts(parts) && Dotted(parts) in resources ==> Stored(a, parts) == Stored(b, parts)
  }

  /** The same engine and settings over two databases. */
  ghost predicate Twins(w1: World, w2: World) {
    w1.engine == w2.engine && w1.sem == w2.sem && w1.rounds == w2.rounds
  }

  ghost predicate Alike(w1: World, w2: World, free: set<string>) {
    Twins(w1, w2) && Agree(w1.data, w2.data, free)
  }

  lemma {:induction false} SameQuery(q: Query, w1: World, w2: World, env: Environment, ctx: Context)
    requires OkQuery(q) && Alike(w1, w2, FreeQuery(q, env.Keys, w1.sem))
    ensures EvalQuery(q, w1, env, ctx) == EvalQuery(q, w2, env, ctx)
    decreases q, 0, 0
  {
    SameBind(q.recursive, q.ctes, w1, w2, env, ctx);
    var inner := Bind(q.recursive, q.ctes, w1, env, ctx);
    SameSet(q.body, w1, w2, inner, ctx);
    SamePerRow(q.tail, EvalSet(q.body, w1, inner, ctx), w1, w2, inner, ctx);
  }

  lemma {:induction false} SameBind(recursive: bool, ctes: seq<Cte>, w1: World, w2: World, env: Environment,
    ctx: Context)
    requires OkCtes(ctes) && Alike(w1, w2, FreeCtes(recursive, ctes, env.Keys, w1.sem))
    ensures Bind(recursive, ctes, w1, env, ctx) == Bind(recursive, ctes, w2, env, ctx)
    ensures Bind(recursive, ctes, w1, env, ctx).Keys == BoundCtes(ctes, env.Keys, w1.sem)
    decreases ctes, 0, 0
  {
    if ctes != [] {
      var name := Folded(ctes[0].alias, w1.sem);
      if recursive {
        SameIterate(ctes[0], w1, w2, env, ctx, w1.rounds);
      } else {
        SameCte(ctes[0], w1, w2, env, ctx);
      }
      var rows := if recursive then Iterate(ctes[0], w1, env, ctx, w1.rounds) else EvalCte(ctes[0], w1, env, ctx);
      assert env[name := rows].Keys == env.Keys + {name};
      SameBind(recursive, ctes[1..], w1, w2, env[name := rows], ctx);
    }
  }

  lemma {:induction false} SameCte(cte: Cte, w1: World, w2: World, env: Environment, ctx: Context)
    requires OkCte(cte) && Alike(w1, w2, FreeCte(cte, env.Keys, w1.sem))
    ensures EvalCte(cte, w1, env, ctx) == EvalCte(cte, w2, env, ctx)
    decreases cte, 0, 0
  {
    SameQuery(cte.query, w1, w2, env, ctx);
  }

  lemma {:induction false} SameIterate(cte: Cte, w1: World, w2: World, env: Environment, ctx: Context, rounds: nat)
    requires OkCte(cte) && Alike(w1, w2, FreeCte(cte, env.Keys + {Folded(cte.alias, w1.sem)}, w1.sem))
    ensures Iterate(cte, w1, env, ctx, rounds) == Iterate(cte, w2, env, ctx, rounds)
    decreases cte, 1, rounds
  {
    if rounds > 0 {
      SameIterate(cte, w1, w2, env, ctx, rounds - 1);
      var name := Folded(cte.alias, w1.sem);
      var next := env[name := Iterate(cte, w1, env, ctx, rounds - 1)];
      assert next.Keys == env.Keys + {name};
      SameCte(cte, w1, w2, next, ctx);
    }
  }

  lemma {:induction false} SameSet(s: SetExpr, w1: World, w2: World, env: Environment, ctx: Context)
    requires OkSet(s) && Alike(w1, w2, FreeSet(s, env.Keys, w1.sem))
    ensures EvalSet(s, w1, env, ctx) == EvalSet(s, w2, env, ctx)
    decreases s, 0, 0
  {
    match s
    case Select(_, _, _, projection, from, selection) =>
      SameJoins(from, [[]], w1, w2, env, ctx);
      var joined := EvalJoins(from, [[]], w1, env, ctx);
      SamePerRow(selection, joined, w1, w2, env, ctx);
      SamePerRow(projection, Kept(w1.engine, joined, EvalPerRow(selection, joined, w1, env, ctx)), w1, w2, env, ctx);
    case Nested(q) => SameQuery(q, w1, w2, env, ctx);
    case SetOperation(_, left, right) =>
      SameSet(left, w1, w2, env, ctx);
      SameSet(right, w1, w2, env, ctx);
    case Values(cells) => SameExprs(cells, w1, w2, env, ctx);
  }

  lemma {:induction false} SameJoins(joins: seq<Join>, rows: Rows, w1: World, w2: World, env: Environment, ctx: Context)
    requires OkJoins(joins) && Alike(w1, w2, FreeJoins(joins, env.Keys, w1.sem))
    ensures EvalJoins(joins, rows, w1, env, ctx) == EvalJoins(joins, rows, w2, env, ctx)
    decreases joins, 0, 0
  {
    if joins != [] {
      SameJoin(joins[0], rows, w1, w2, env, ctx);
      SameJoins(joins[1..], EvalJoin(joins[0], rows, w1, env, ctx), w1, w2, env, ctx);
    }
  }

  lemma {:induction false} SameJoin(join: Join, rows: Rows, w1: World, w2: World, env: Environment, ctx: Context)
    requires OkFactor(join.factor) && OkExprs(join.on)
    requires Alike(w1, w2, FreeFactor(join.factor, env.Keys, w1.sem) + FreeExprs(join.on, env.Keys, w1.sem))
    ensures EvalJoin(join, rows, w1, env, ctx) == EvalJoin(join, rows, w2, env, ctx)
    decreases join, 0, |rows|
  {
    if rows != [] {
      SameFactor(join.factor, rows[0], w1, w2, env, ctx);
      var right := EvalFactor(join.factor, rows[0], w1, env, ctx);
      var pairs := seq(|right|, i requires 0 <= i < |right| => rows[0] + right[i]);
      SamePerRow(join.on, pairs, w1, w2, env, ctx);
      SameJoin(join, rows[1..], w1, w2, env, ctx);
    }
  }

  lemma {:induction false} SameFactor(factor: TableFactor, left: Row, w1: World, w2: World, env: Environment,
    ctx: Context)
    requires OkFactor(factor) && Alike(w1, w2, FreeFactor(factor, env.Keys, w1.sem))
    ensures EvalFactor(factor, left, w1, env, ctx) == EvalFactor(factor, left, w2, env, ctx)
    decreases factor, 0, 0
  {
    match factor
    case Table(name, _, hints) =>
      assert Lookup(name, w1, env) == Lookup(name, w2, env) by {
        var parts := Parts(name, w1.sem);
        assert SafeParts(parts);
      }
      SamePerRow(hints, Lookup(name, w1, env), w1, w2, env, ctx);
    case Derived(lateral, q) => SameQuery(q, w1, w2, env, if lateral then ctx + [left] else ctx);
    case NestedJoin(joins) => SameJoins(joins, [[]], w1, w2, env, ctx);
  }

  lemma {:induction false} SamePerRow(exprs: seq<Expr>, rows: Rows, w1: World, w2: World, env: Environment,
    ctx: Context)
    requires OkExprs(exprs) && Alike(w1, w2, FreeExprs(exprs, env.Keys, w1.sem))
    ensures EvalPerRow(exprs, rows, w1, env, ctx) == EvalPerRow(exprs, rows, w2, env, ctx)
    decreases exprs, 1, |rows|
  {
    if rows != [] {
      SameExprs(exprs, w1, w2, env, ctx + [rows[0]]);
      SamePerRow(exprs, rows[1..], w1, w2, env, ctx);
    }
  }

  lemma {:induction false} SameExprs(exprs: seq<Expr>, w1: World, w2: World, env: Environment, ctx: Context)
    requires OkExprs(exprs) && Alike(w1, w2, FreeExprs(exprs, env.Keys, w1.sem))
    ensures EvalExprs(exprs, w1, env, ctx) == EvalExprs(exprs, w2, env, ctx)
    decreases exprs, 0, 0
  {
    if exprs != [] {
      SameExpr(exprs[0], w1, w2, env, ctx);
      SameExprs(exprs[1..], w1, w2, env, ctx);
    }
  }

  lemma {:induction false} SameExpr(expr: Expr, w1: World, w2: World, env: Environment, ctx: Context)
    requires OkExpr(expr) && Alike(w1, w2, FreeExpr(expr, env.Keys, w1.sem))
    ensures EvalExpr(expr, w1, env, ctx) == EvalExpr(expr, w2, env, ctx)
    decreases expr, 0, 0
  {
    match expr
    case Column(_) =>
    case Call(_, arguments) => SameExprs(arguments, w1, w2, env, ctx);
    case SubQuery(_, arguments, q) =>
      SameExprs(arguments, w1, w2, env, ctx);
      SameQuery(q, w1, w2, env, ctx);
  }
}

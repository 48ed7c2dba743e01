/**
 The analyser as it is written: a visitor with a depth counter that looks at one query level only,
 collects the queries nested directly inside that level, and is restarted on each of them.
 */
module SqlAnalyzer {
  import opened Options
  import opened SqlSyntax
  import opened SqlScope
  import opened SqlNames

  /** What a traversal of one level finds: acceptance, relations, and the queries left for later. */
  datatype Level = Level(ok: bool, resources: set<string>, queries: seq<Query>)
  {
    function Then(next: Level): Level {
      Level(ok && next.ok, resources + next.resources, queries + next.queries)
    }
  }

  const EMPTY := Level(true, {}, [])

  function LevelSet(s: SetExpr, bound: set<string>, sem: Semantics): Level
    decreases s
  {
    match s
    case Select(_, _, _, projection, from, selection) =>
      LevelExprs(projection, bound, sem).Then(LevelJoins(from, bound, sem)).Then(LevelExprs(selection, bound, sem))
    case Nested(q) => Level(true, {}, [q])
    case SetOperation(_, left, right) => LevelSet(left, bound, sem).Then(LevelSet(right, bound, sem))
    case Values(cells) => LevelExprs(cells, bound, sem)
    case Mutation(_) => EMPTY
    case TableBody(_) => EMPTY
  }

  function LevelJoins(joins: seq<Join>, bound: set<string>, sem: Semantics): Level
    decreases joins
  {
    if joins == [] then EMPTY else
      LevelFactor(joins[0].factor, bound, sem)
        .Then(LevelExprs(joins[0].on, bound, sem))
        .Then(LevelJoins(joins[1..], bound, sem))
  }

  function LevelFactor(factor: TableFactor, bound: set<string>, sem: Semantics): Level
    decreases factor
  {
    match factor
    case Table(name, plain, hints) =>
      Level(plain && RelationOk(name), FreeRelation(name, bound, sem), []).Then(LevelExprs(hints, bound, sem))
    case Derived(_, q) => Level(true, {}, [q])
    case NestedJoin(joins) => LevelJoins(joins, bound, sem)
    case Unsupported(_, _, _) => Level(false, {}, [])
  }

  function LevelExprs(exprs: seq<Expr>, bound: set<string>, sem: Semantics): Level
    decreases exprs
  {
    if exprs == [] then EMPTY else LevelExpr(exprs[0], bound, sem).Then(LevelExprs(exprs[1..], bound, sem))
  }

  function LevelExpr(expr: Expr, bound: set<string>, sem: Semantics): Level
    decreases expr
  {
    match expr
    case Column(_) => EMPTY
    case Call(_, arguments) => LevelExprs(arguments, bound, sem)
    case SubQuery(_, arguments, q) => LevelExprs(arguments, bound, sem).Then(Level(true, {}, [q]))
  }

  function LevelCtes(ctes: seq<Cte>): Level {
    if ctes == [] then EMPTY else Level(true, {}, [ctes[0].query]).Then(LevelCtes(ctes[1..]))
  }

  // ---------------------------------------------------------------- the visitor

  datatype VisitorState = VisitorState(rootSeen: bool, depth: nat, resources: set<string>, nested: seq<Query>)

  /** At depth zero a visited node contributes its level; below that it contributes nothing. */
  ghost predicate Advanced(before: VisitorState, level: Level, broke: bool, after: VisitorState) {
    if before.depth > 0 then !broke && after == before
    else
      && broke == !level.ok
      && (!broke ==> after == before.(resources := before.resources + level.resources,
        nested := before.nested + level.queries))
  }

  lemma AdvancedThen(before: VisitorState, l: Level, mid: VisitorState, m: Level, broke: bool, after: VisitorState)
    requires Advanced(before, l, false, mid)
    requires Advanced(mid, m, broke, after)
    ensures Advanced(before, l.Then(m), broke, after)
  {
    assert before.depth == 0 ==> before.nested + (l.queries + m.queries) == (before.nested + l.queries) + m.queries;
  }

  class CurrentQueryVisitor {
    const sem: Semantics
    const visible: set<string>
    var rootSeen: bool
    var depth: nat
    var resources: set<string>
    var nested: seq<Query>

    ghost function State(): VisitorState reads this { VisitorState(rootSeen, depth, resources, nested) }

    constructor (sem: Semantics, visible: set<string>)
      ensures this.sem == sem && this.visible == visible
      ensures State() == VisitorState(false, 0, {}, [])
    {
      this.sem, this.visible := sem, visible;
      rootSeen, depth, resources, nested := false, 0, {}, [];
    }

    method PreVisitQuery(q: Query)
      modifies this
      ensures State() ==
        if !old(rootSeen) then old(State()).(rootSeen := true)
        else if old(depth) == 0 then old(State()).(nested := old(nested) + [q], depth := 1)
        else old(State()).(depth := old(depth) + 1)
    {
      if rootSeen {
        if depth == 0 { nested := nested + [q]; }
        depth := depth + 1;
      } else {
        rootSeen := true;
      }
    }

    method PostVisitQuery()
      modifies this
      ensures State() == old(State()).(depth := if old(depth) > 0 then old(depth) - 1 else 0)
    {
      if depth > 0 { depth := depth - 1; }
    }

    method PreVisitTableFactor(factor: TableFactor) returns (broke: bool)
      ensures broke <==> depth == 0 && (factor.Unsupported? || (factor.Table? && !factor.plain))
    {
      if depth > 0 { return false; }
      match factor
      case Table(_, plain, _) => return !plain;
      case Derived(_, _) => return false;
      case NestedJoin(_) => return false;
      case Unsupported(_, _, _) => return true;
    }

    method PreVisitRelation(name: ObjectName) returns (broke: bool)
      modifies this
      ensures Advanced(old(State()), Level(RelationOk(name), FreeRelation(name, visible, sem), []), broke, State())
    {
      if depth > 0 { return false; }
      if name == [] || exists i :: 0 <= i < |name| && !name[i].Named? { return true; }
      if |name| == 1 {
        var key := NormalizedIdentifier(name[0].ident, sem);
        if key.None? { return true; }
        if key.value in visible {
          assert Parts(name, sem) == [key.value];
          return false;
        }
      }
      if exists i :: 0 <= i < |name| && NormalizedIdentifier(name[i].ident, sem).None? { return true; }
      assert RelationOk(name);
      resources := resources + {Dotted(Parts(name, sem))};
      return false;
    }
  }

  // The traversal that drives the visitor: every node's children, in order.

  method VisitQuery(q: Query, v: CurrentQueryVisitor) returns (broke: bool)
    modifies v
    ensures old(v.rootSeen) ==> Advanced(old(v.State()), Level(true, {}, [q]), broke, v.State())
    ensures !old(v.rootSeen) && old(v.depth) == 0 ==>
      Advanced(old(v.State()).(rootSeen := true),
               LevelCtes(q.ctes).Then(LevelSet(q.body, v.visible, v.sem)).Then(LevelExprs(q.tail, v.visible, v.sem)),
               broke, v.State())
    decreases q
  {
    v.PreVisitQuery(q);
    ghost var s0 := v.State();
    broke := VisitCtes(q.ctes, v);
    if broke { return; }
    ghost var s1 := v.State();
    broke := VisitSet(q.body, v);
    AdvancedThen(s0, LevelCtes(q.ctes), s1, LevelSet(q.body, v.visible, v.sem), broke, v.State());
    if broke { return; }
    ghost var s2 := v.State();
    broke := VisitExprs(q.tail, v);
    AdvancedThen(s0, LevelCtes(q.ctes).Then(LevelSet(q.body, v.visible, v.sem)), s2,
      LevelExprs(q.tail, v.visible, v.sem), broke, v.State());
    if broke { return; }
    v.PostVisitQuery();
  }

  method VisitCtes(ctes: seq<Cte>, v: CurrentQueryVisitor) returns (broke: bool)
    requires v.rootSeen
    modifies v
    ensures Advanced(old(v.State()), LevelCtes(ctes), broke, v.State())
    decreases ctes
  {
    if ctes == [] { return false; }
    broke := VisitCte(ctes[0], v);
    if broke { return; }
    ghost var s1 := v.State();
    broke := VisitCtes(ctes[1..], v);
    AdvancedThen(old(v.State()), Level(true, {}, [ctes[0].query]), s1, LevelCtes(ctes[1..]), broke, v.State());
  }

  method VisitCte(cte: Cte, v: CurrentQueryVisitor) returns (broke: bool)
    requires v.rootSeen
    modifies v
    ensures Advanced(old(v.State()), Level(true, {}, [cte.query]), broke, v.State())
    decreases cte
  {
    broke := VisitQuery(cte.query, v);
  }

  method VisitSet(s: SetExpr, v: CurrentQueryVisitor) returns (broke: bool)
    requires v.rootSeen
    modifies v
    ensures Advanced(old(v.State()), LevelSet(s, v.visible, v.sem), broke, v.State())
    decreases s
  {
    broke := false;
    ghost var s0 := v.State();
    match s
    case Select(_, _, _, projection, from, selection) =>
      broke := VisitExprs(projection, v);
      if broke { return; }
      ghost var s1 := v.State();
      broke := VisitJoins(from, v);
      AdvancedThen(s0, LevelExprs(projection, v.visible, v.sem), s1, LevelJoins(from, v.visible, v.sem), broke,
        v.State());
      if broke { return; }
      ghost var s2 := v.State();
      broke := VisitExprs(selection, v);
      AdvancedThen(s0, LevelExprs(projection, v.visible, v.sem).Then(LevelJoins(from, v.visible, v.sem)),
                   s2, LevelExprs(selection, v.visible, v.sem), broke, v.State());
    case Nested(q) =>
      broke := VisitQuery(q, v);
    case SetOperation(_, left, right) =>
      broke := VisitSet(left, v);
      if broke { return; }
      ghost var s1 := v.State();
      broke := VisitSet(right, v);
      AdvancedThen(s0, LevelSet(left, v.visible, v.sem), s1, LevelSet(right, v.visible, v.sem), broke, v.State());
    case Values(cells) =>
      broke := VisitExprs(cells, v);
    case Mutation(_) =>
    case TableBody(_) =>
  }

  method VisitJoins(joins: seq<Join>, v: CurrentQueryVisitor) returns (broke: bool)
    requires v.rootSeen
    modifies v
    ensures Advanced(old(v.State()), LevelJoins(joins, v.visible, v.sem), broke, v.State())
    decreases joins
  {
    if joins == [] { return false; }
    var head := joins[0];
    ghost var s0 := v.State();
    broke := VisitFactor(head.factor, v);
    if broke { return; }
    ghost var s1 := v.State();
    broke := VisitExprs(head.on, v);
    ghost var first := LevelFactor(head.factor, v.visible, v.sem);
    AdvancedThen(s0, first, s1, LevelExprs(head.on, v.visible, v.sem), broke, v.State());
    if broke { return; }
    ghost var s2 := v.State();
    broke := VisitJoins(joins[1..], v);
    AdvancedThen(s0, first.Then(LevelExprs(head.on, v.visible, v.sem)), s2, LevelJoins(joins[1..], v.visible, v.sem),
      broke, v.State());
  }

  method VisitFactor(factor: TableFactor, v: CurrentQueryVisitor) returns (broke: bool)
    requires v.rootSeen
    modifies v
    ensures Advanced(old(v.State()), LevelFactor(factor, v.visible, v.sem), broke, v.State())
    decreases factor
  {
    broke := v.PreVisitTableFactor(factor);
    if broke { return; }
    ghost var s0 := v.State();
    match factor
    case Table(name, plain, hints) =>
      broke := v.PreVisitRelation(name);
      if broke { return; }
      ghost var s1 := v.State();
      broke := VisitExprs(hints, v);
      AdvancedThen(s0, Level(plain && RelationOk(name), FreeRelation(name, v.visible, v.sem), []),
                   s1, LevelExprs(hints, v.visible, v.sem), broke, v.State());
    case Derived(_, q) =>
      broke := VisitQuery(q, v);
    case NestedJoin(joins) =>
      broke := VisitJoins(joins, v);
    case Unsupported(_, inner, arguments) =>
      broke := VisitJoins(inner, v);
      if broke { return; }
      broke := VisitExprs(arguments, v);
  }

  method VisitExprs(exprs: seq<Expr>, v: CurrentQueryVisitor) returns (broke: bool)
    requires v.rootSeen
    modifies v
    ensures Advanced(old(v.State()), LevelExprs(exprs, v.visible, v.sem), broke, v.State())
    decreases exprs
  {
    if exprs == [] { return false; }
    broke := VisitExpr(exprs[0], v);
    if broke { return; }
    ghost var s1 := v.State();
    broke := VisitExprs(exprs[1..], v);
    AdvancedThen(old(v.State()), LevelExpr(exprs[0], v.visible, v.sem), s1, LevelExprs(exprs[1..], v.visible, v.sem),
      broke, v.State());
  }

  method VisitExpr(expr: Expr, v: CurrentQueryVisitor) returns (broke: bool)
    requires v.rootSeen
    modifies v
    ensures Advanced(old(v.State()), LevelExpr(expr, v.visible, v.sem), broke, v.State())
    decreases expr
  {
    broke := false;
    match expr
    case Column(_) =>
    case Call(_, arguments) =>
      broke := VisitExprs(arguments, v);
    case SubQuery(_, arguments, q) =>
      broke := VisitExprs(arguments, v);
      if broke { return; }
      ghost var s1 := v.State();
      broke := VisitQuery(q, v);
      AdvancedThen(old(v.State()), LevelExprs(arguments, v.visible, v.sem), s1, Level(true, {}, [q]), broke, v.State());
  }

  // ---------------------------------------------------------------- the level shape check

  /** Body checks made before a level is visited; they do not look inside nested queries. */
  predicate ReadOnlySetExpr(s: SetExpr) {
    match s
    case Select(into, lateralViews, _, _, _, _) => !into && !lateralViews
    case Nested(_) => true
    case Values(_) => true
    case SetOperation(_, left, right) => ReadOnlySetExpr(left) && ReadOnlySetExpr(right)
    case Mutation(_) => false
    case TableBody(_) => false
  }

  // ---------------------------------------------------------------- levels add up to the whole query

  predicate OkAll(queries: seq<Query>) {
    queries == [] || (OkQuery(queries[0]) && OkAll(queries[1..]))
  }

  function FreeAll(queries: seq<Query>, bound: set<string>, sem: Semantics): set<string> {
    if queries == [] then {} else FreeQuery(queries[0], bound, sem) + FreeAll(queries[1..], bound, sem)
  }

  lemma {:induction false} AllConcat(a: seq<Query>, b: seq<Query>, bound: set<string>, sem: Semantics)
    ensures OkAll(a + b) <==> OkAll(a) && OkAll(b)
    ensures FreeAll(a + b, bound, sem) == FreeAll(a, bound, sem) + FreeAll(b, bound, sem)
  {
    if a == [] {
      assert a + b == b;
    } else {
      AllConcat(a[1..], b, bound, sem);
      assert (a + b)[1..] == a[1..] + b;
    }
  }

  /** A level accounts for a node: its own findings plus those of the queries it left for later. */
  ghost predicate Accounts(level: Level, ok: bool, free: set<string>, bound: set<string>, sem: Semantics) {
    && (ok <==> level.ok && OkAll(level.queries))
    && (ok ==> free == level.resources + FreeAll(level.queries, bound, sem))
  }

  lemma AccountsThen(l: Level, ok1: bool, free1: set<string>, m: Level, ok2: bool, free2: set<string>,
    bound: set<string>, sem: Semantics)
    requires Accounts(l, ok1, free1, bound, sem) && Accounts(m, ok2, free2, bound, sem)
    ensures Accounts(l.Then(m), ok1 && ok2, free1 + free2, bound, sem)
  {
    AllConcat(l.queries, m.queries, bound, sem);
  }

  lemma AccountsQuery(q: Query, bound: set<string>, sem: Semantics)
    ensures Accounts(Level(true, {}, [q]), OkQuery(q), FreeQuery(q, bound, sem), bound, sem)
  {
    assert [q][1..] == [];
  }

  lemma {:induction false} SetAccounts(s: SetExpr, bound: set<string>, sem: Semantics)
    requires ReadOnlySetExpr(s)
    ensures Accounts(LevelSet(s, bound, sem), OkSet(s), FreeSet(s, bound, sem), bound, sem)
    decreases s
  {
    match s
    case Select(_, _, _, projection, from, selection) =>
      ExprsAccount(projection, bound, sem);
      JoinsAccount(from, bound, sem);
      ExprsAccount(selection, bound, sem);
      AccountsThen(LevelExprs(projection, bound, sem), OkExprs(projection), FreeExprs(projection, bound, sem),
                   LevelJoins(from, bound, sem), OkJoins(from), FreeJoins(from, bound, sem), bound, sem);
      AccountsThen(LevelExprs(projection, bound, sem).Then(LevelJoins(from, bound, sem)),
                   OkExprs(projection) && OkJoins(from),
                   FreeExprs(projection, bound, sem) + FreeJoins(from, bound, sem),
                   LevelExprs(selection, bound, sem), OkExprs(selection), FreeExprs(selection, bound, sem), bound, sem);
    case Nested(q) => AccountsQuery(q, bound, sem);
    case SetOperation(_, left, right) =>
      SetAccounts(left, bound, sem);
      SetAccounts(right, bound, sem);
      AccountsThen(LevelSet(left, bound, sem), OkSet(left), FreeSet(left, bound, sem),
                   LevelSet(right, bound, sem), OkSet(right), FreeSet(right, bound, sem), bound, sem);
    case Values(cells) => ExprsAccount(cells, bound, sem);
  }

  lemma {:induction false} JoinsAccount(joins: seq<Join>, bound: set<string>, sem: Semantics)
    ensures Accounts(LevelJoins(joins, bound, sem), OkJoins(joins), FreeJoins(joins, bound, sem), bound, sem)
    decreases joins
  {
    if joins != [] {
      var f, on, rest := joins[0].factor, joins[0].on, joins[1..];
      FactorAccounts(f, bound, sem);
      ExprsAccount(on, bound, sem);
      JoinsAccount(rest, bound, sem);
      AccountsThen(LevelFactor(f, bound, sem), OkFactor(f), FreeFactor(f, bound, sem),
                   LevelExprs(on, bound, sem), OkExprs(on), FreeExprs(on, bound, sem), bound, sem);
      AccountsThen(LevelFactor(f, bound, sem).Then(LevelExprs(on, bound, sem)), OkFactor(f) && OkExprs(on),
                   FreeFactor(f, bound, sem) + FreeExprs(on, bound, sem),
                   LevelJoins(rest, bound, sem), OkJoins(rest), FreeJoins(rest, bound, sem), bound, sem);
    }
  }

  lemma {:induction false} FactorAccounts(factor: TableFactor, bound: set<string>, sem: Semantics)
    ensures Accounts(LevelFactor(factor, bound, sem), OkFactor(factor), FreeFactor(factor, bound, sem), bound, sem)
    decreases factor
  {
    match factor
    case Table(name, plain, hints) =>
      ExprsAccount(hints, bound, sem);
      var own := Level(plain && RelationOk(name), FreeRelation(name, bound, sem), []);
      AccountsThen(own, plain && RelationOk(name), FreeRelation(name, bound, sem),
                   LevelExprs(hints, bound, sem), OkExprs(hints), FreeExprs(hints, bound, sem), bound, sem);
    case Derived(_, q) => AccountsQuery(q, bound, sem);
    case NestedJoin(joins) => JoinsAccount(joins, bound, sem);
    case Unsupported(_, _, _) =>
  }

  lemma {:induction false} ExprsAccount(exprs: seq<Expr>, bound: set<string>, sem: Semantics)
    ensures Accounts(LevelExprs(exprs, bound, sem), OkExprs(exprs), FreeExprs(exprs, bound, sem), bound, sem)
    decreases exprs
  {
    if exprs != [] {
      ExprAccounts(exprs[0], bound, sem);
      ExprsAccount(exprs[1..], bound, sem);
      AccountsThen(LevelExpr(exprs[0], bound, sem), OkExpr(exprs[0]), FreeExpr(exprs[0], bound, sem),
                   LevelExprs(exprs[1..], bound, sem), OkExprs(exprs[1..]), FreeExprs(exprs[1..], bound, sem),
                   bound, sem);
    }
  }

  lemma {:induction false} ExprAccounts(expr: Expr, bound: set<string>, sem: Semantics)
    ensures Accounts(LevelExpr(expr, bound, sem), OkExpr(expr), FreeExpr(expr, bound, sem), bound, sem)
    decreases expr
  {
    match expr
    case Column(_) =>
    case Call(_, arguments) => ExprsAccount(arguments, bound, sem);
    case SubQuery(_, arguments, q) =>
      ExprsAccount(arguments, bound, sem);
      AccountsQuery(q, bound, sem);
      AccountsThen(LevelExprs(arguments, bound, sem), OkExprs(arguments), FreeExprs(arguments, bound, sem),
                   Level(true, {}, [q]), OkQuery(q), FreeQuery(q, bound, sem), bound, sem);
  }

  // ---------------------------------------------------------------- nested queries are smaller

  function QuerySize(q: Query): nat { 1 + CtesSize(q.ctes) + SetSize(q.body) + ExprsSize(q.tail) }

  function CtesSize(ctes: seq<Cte>): nat { if ctes == [] then 0 else CteSize(ctes[0]) + CtesSize(ctes[1..]) }

  function CteSize(cte: Cte): nat { QuerySize(cte.query) }

  function SetSize(s: SetExpr): nat {
    match s
    case Select(_, _, _, projection, from, selection) => ExprsSize(projection) + JoinsSize(from) + ExprsSize(selection)
    case Nested(q) => QuerySize(q)
    case SetOperation(_, left, right) => SetSize(left) + SetSize(right)
    case Values(cells) => ExprsSize(cells)
    case Mutation(_) => 0
    case TableBody(_) => 0
  }

  function JoinsSize(joins: seq<Join>): nat {
    if joins == [] then 0 else FactorSize(joins[0].factor) + ExprsSize(joins[0].on) + JoinsSize(joins[1..])
  }

  function FactorSize(factor: TableFactor): nat {
    match factor
    case Table(_, _, hints) => ExprsSize(hints)
    case Derived(_, q) => QuerySize(q)
    case NestedJoin(joins) => JoinsSize(joins)
    case Unsupported(_, inner, arguments) => JoinsSize(inner) + ExprsSize(arguments)
  }

  function ExprsSize(exprs: seq<Expr>): nat { if exprs == [] then 0 else ExprSize(exprs[0]) + ExprsSize(exprs[1..]) }

  function ExprSize(expr: Expr): nat {
    match expr
    case Column(_) => 0
    case Call(_, arguments) => ExprsSize(arguments)
    case SubQuery(_, arguments, q) => ExprsSize(arguments) + QuerySize(q)
  }

  ghost predicate AllWithin(queries: seq<Query>, size: nat) {
    forall i :: 0 <= i < |queries| ==> QuerySize(queries[i]) <= size
  }

  lemma SetWithin(s: SetExpr, bound: set<string>, sem: Semantics)
    ensures AllWithin(LevelSet(s, bound, sem).queries, SetSize(s))
    decreases s
  {
    match s
    case Select(_, _, _, projection, from, selection) =>
      ExprsWithin(projection, bound, sem);
      JoinsWithin(from, bound, sem);
      ExprsWithin(selection, bound, sem);
    case Nested(q) =>
    case SetOperation(_, left, right) =>
      SetWithin(left, bound, sem);
      SetWithin(right, bound, sem);
    case Values(cells) => ExprsWithin(cells, bound, sem);
    case Mutation(_) =>
    case TableBody(_) =>
  }

  lemma JoinsWithin(joins: seq<Join>, bound: set<string>, sem: Semantics)
    ensures AllWithin(LevelJoins(joins, bound, sem).queries, JoinsSize(joins))
    decreases joins
  {
    if joins != [] {
      FactorWithin(joins[0].factor, bound, sem);
      ExprsWithin(joins[0].on, bound, sem);
      JoinsWithin(joins[1..], bound, sem);
    }
  }

  lemma FactorWithin(factor: TableFactor, bound: set<string>, sem: Semantics)
    ensures AllWithin(LevelFactor(factor, bound, sem).queries, FactorSize(factor))
    decreases factor
  {
    match factor
    case Table(_, _, hints) => ExprsWithin(hints, bound, sem);
    case Derived(_, q) =>
    case NestedJoin(joins) => JoinsWithin(joins, bound, sem);
    case Unsupported(_, _, _) =>
  }

  lemma ExprsWithin(exprs: seq<Expr>, bound: set<string>, sem: Semantics)
    ensures AllWithin(LevelExprs(exprs, bound, sem).queries, ExprsSize(exprs))
    decreases exprs
  {
    if exprs != [] {
      ExprWithin(exprs[0], bound, sem);
      ExprsWithin(exprs[1..], bound, sem);
    }
  }

  lemma ExprWithin(expr: Expr, bound: set<string>, sem: Semantics)
    ensures AllWithin(LevelExpr(expr, bound, sem).queries, ExprSize(expr))
    decreases expr
  {
    match expr
    case Column(_) =>
    case Call(_, arguments) => ExprsWithin(arguments, bound, sem);
    case SubQuery(_, arguments, q) => ExprsWithin(arguments, bound, sem);
  }

  // ---------------------------------------------------------------- the analyser

  /** One run of the visitor over a query whose WITH clause has been taken off. */
  method VisitLevel(q: Query, visible: set<string>, sem: Semantics) returns (found: Level)
    ensures var level := LevelSet(q.body, visible, sem).Then(LevelExprs(q.tail, visible, sem));
            found.ok == level.ok && (found.ok ==> found == level)
  {
    var visitor := new CurrentQueryVisitor(sem, visible);
    var broke := VisitQuery(q.(ctes := [], recursive := false), visitor);
    ghost var l := LevelSet(q.body, visible, sem);
    assert LevelCtes([]).Then(l) == l by { assert [] + l.queries == l.queries; }
    found := Level(!broke, visitor.resources, visitor.nested);
  }

  class SqlReadAnalyzer {
    const sem: Semantics
    var resources: set<string>

    constructor (sem: Semantics)
      ensures this.sem == sem && resources == {}
    {
      this.sem, resources := sem, {};
    }

    /** Accepts exactly the queries that are read-only throughout, and adds exactly their free relations. */
    method AnalyzeQuery(q: Query, inherited: set<string>) returns (ok: bool)
      modifies this
      ensures ok <==> OkQuery(q)
      ensures ok ==> resources == old(resources) + FreeQuery(q, inherited, sem)
      decreases QuerySize(q), 1
    {
      if q.locked || q.piped || !ReadOnlySetExpr(q.body) {
        if !ReadOnlySetExpr(q.body) { NotReadOnly(q.body); }
        return false;
      }
      var visible;
      ok, visible := AnalyzeCtes(q, inherited);
      if !ok { return; }
      LevelAccounts(q, visible, sem);
      var found := VisitLevel(q, visible, sem);
      if !found.ok { return false; }
      resources := resources + found.resources;
      ok := AnalyzeNested(found.queries, visible, QuerySize(q));
    }

    /** The WITH clause: each expression sees the ones before it, and itself when recursive. */
    method AnalyzeCtes(q: Query, inherited: set<string>) returns (ok: bool, visible: set<string>)
      modifies this
      ensures ok <==> OkCtes(q.ctes)
      ensures ok ==> visible == BoundCtes(q.ctes, inherited, sem)
      ensures ok ==> resources == old(resources) + FreeCtes(q.recursive, q.ctes, inherited, sem)
      decreases QuerySize(q), 0
    {
      visible := inherited;
      var i := 0;
      while i < |q.ctes|
        invariant 0 <= i <= |q.ctes|
        invariant OkCtes(q.ctes) <==> OkCtes(q.ctes[i..])
        invariant BoundCtes(q.ctes, inherited, sem) == BoundCtes(q.ctes[i..], visible, sem)
        invariant old(resources) + FreeCtes(q.recursive, q.ctes, inherited, sem)
               == resources + FreeCtes(q.recursive, q.ctes[i..], visible, sem)
        invariant CtesSize(q.ctes[i..]) <= CtesSize(q.ctes)
      {
        var cte := q.ctes[i];
        assert q.ctes[i..][0] == cte && q.ctes[i..][1..] == q.ctes[i + 1..];
        if cte.hasFrom { return false, visible; }
        var key := NormalizedIdentifier(cte.alias, sem);
        if key.None? { return false, visible; }
        if q.recursive { visible := visible + {key.value}; }
        var nestedOk := AnalyzeQuery(cte.query, visible);
        if !nestedOk { return false, visible; }
        visible := visible + {key.value};
        i := i + 1;
      }
      assert q.ctes[i..] == [];
      ok := true;
    }

    /** The queries a visited level left for later. */
    method AnalyzeNested(nested: seq<Query>, visible: set<string>, ghost size: nat) returns (ok: bool)
      requires forall i :: 0 <= i < |nested| ==> QuerySize(nested[i]) < size
      modifies this
      ensures ok <==> OkAll(nested)
      ensures ok ==> resources == old(resources) + FreeAll(nested, visible, sem)
      decreases size, 0
    {
      var j := 0;
      while j < |nested|
        invariant 0 <= j <= |nested|
        invariant OkAll(nested) <==> OkAll(nested[j..])
        invariant old(resources) + FreeAll(nested, visible, sem) == resources + FreeAll(nested[j..], visible, sem)
      {
        assert nested[j..][0] == nested[j] && nested[j..][1..] == nested[j + 1..];
        var nestedOk := AnalyzeQuery(nested[j], visible);
        if !nestedOk { return false; }
        j := j + 1;
      }
      assert nested[j..] == [];
      ok := true;
    }
  }

  lemma NotReadOnly(s: SetExpr)
    requires !ReadOnlySetExpr(s)
    ensures !OkSet(s)
  {
    match s
    case SetOperation(_, left, right) => if !ReadOnlySetExpr(left) { NotReadOnly(left); } else { NotReadOnly(right); }
    case _ =>
  }

  lemma LevelAccounts(q: Query, visible: set<string>, sem: Semantics)
    requires ReadOnlySetExpr(q.body)
    ensures var found := LevelSet(q.body, visible, sem).Then(LevelExprs(q.tail, visible, sem));
      && Accounts(found, OkSet(q.body) && OkExprs(q.tail),
        FreeSet(q.body, visible, sem) + FreeExprs(q.tail, visible, sem), visible, sem)
      && forall i :: 0 <= i < |found.queries| ==> QuerySize(found.queries[i]) < QuerySize(q)
  {
    SetAccounts(q.body, visible, sem);
    ExprsAccount(q.tail, visible, sem);
    AccountsThen(LevelSet(q.body, visible, sem), OkSet(q.body), FreeSet(q.body, visible, sem),
                 LevelExprs(q.tail, visible, sem), OkExprs(q.tail), FreeExprs(q.tail, visible, sem), visible, sem);
    SetWithin(q.body, visible, sem);
    ExprsWithin(q.tail, visible, sem);
  }

  /** A statement whose body holds no SELECT at all is refused before any analysis. */
  predicate ContainsSelect(s: SetExpr) {
    match s
    case Select(_, _, _, _, _, _) => true
    case Nested(q) => ContainsSelect(q.body)
    case SetOperation(_, left, right) => ContainsSelect(left) || ContainsSelect(right)
    case _ => false
  }

  /** The bodies that a body is put together from by parentheses and set operations. */
  function Branches(s: SetExpr): seq<SetExpr> {
    match s
    case Nested(q) => Branches(q.body)
    case SetOperation(_, left, right) => Branches(left) + Branches(right)
    case _ => [s]
  }

  lemma {:induction false} SelectIsABranch(s: SetExpr)
    ensures ContainsSelect(s) <==> exists b :: b in Branches(s) && b.Select?
  {
    match s
    case Nested(q) => SelectIsABranch(q.body);
    case SetOperation(_, left, right) =>
      SelectIsABranch(left);
      SelectIsABranch(right);
    case _ => assert s in Branches(s);
  }

  method AnalyzeParsedSqlQuery(q: Query, sem: Semantics) returns (result: Option<set<string>>)
    ensures result.Some? <==> (exists b :: b in Branches(q.body) && b.Select?) && OkQuery(q)
    ensures result.Some? ==> result.value == FreeQuery(q, {}, sem)
    ensures result.Some? ==> AllNamedIn(NamesInQuery(q), sem, result.value)
  {
    SelectIsABranch(q.body);
    if OkQuery(q) { FreeIsNamed(q, {}, sem); }
    if !ContainsSelect(q.body) { return None; }
    var analyzer := new SqlReadAnalyzer(sem);
    var ok := analyzer.AnalyzeQuery(q, {});
    if !ok { return None; }
    return Some(analyzer.resources);
  }
}

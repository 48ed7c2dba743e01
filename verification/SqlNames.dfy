/**
 What the names in a query stand for, character by character: the key of an identifier under each database's case
 rule, and the resources of a query as the keys of relation names that occur in it.
 */
module SqlNames {
  import opened Options
  import opened SqlSyntax
  import opened SqlScope

  // ---------------------------------------------------------------- keys

  /** The character of a key that stands for a character of the identifier. */
  predicate KeyChar(quoted: bool, sem: Semantics, c: char, k: char) {
    if quoted || sem.Preserve? then k == c
    else if sem.LowercaseUnquoted? then !('A' <= k <= 'Z') && (k == c || ('A' <= c <= 'Z' && k as int == c as int + 32))
    else !('a' <= k <= 'z') && (k == c || ('a' <= c <= 'z' && k as int + 32 == c as int))
  }

  predicate KeyOf(ident: Ident, sem: Semantics, key: string) {
    |key| == |ident.value| && forall i :: 0 <= i < |key| ==> KeyChar(ident.quoted, sem, ident.value[i], key[i])
  }

  /** Quoted identifiers keep their text; unquoted ones lose exactly the case the database does not distinguish. */
  lemma FoldedIsKey(ident: Ident, sem: Semantics)
    ensures KeyOf(ident, sem, Folded(ident, sem))
  {
  }

  /** An identifier has a key exactly when it is not empty and free of the characters that separate or match names. */
  lemma NormalizedIffPlain(ident: Ident, sem: Semantics)
    ensures NormalizedIdentifier(ident, sem).Some? <==>
      ident.value != "" && forall i :: 0 <= i < |ident.value| ==> ident.value[i] !in ".*?[]{}\\"
    ensures NormalizedIdentifier(ident, sem).Some? ==> KeyOf(ident, sem, NormalizedIdentifier(ident, sem).value)
  {
    assert forall c: char :: c in UNSAFE <==> c in ".*?[]{}\\";
    FoldedIsKey(ident, sem);
  }

  /** There is one key only. */
  lemma KeyIsUnique(ident: Ident, sem: Semantics, a: string, b: string)
    requires KeyOf(ident, sem, a) && KeyOf(ident, sem, b)
    ensures a == b
  {
    forall i | 0 <= i < |a| ensures a[i] == b[i] {
      assert KeyChar(ident.quoted, sem, ident.value[i], a[i]) && KeyChar(ident.quoted, sem, ident.value[i], b[i]);
    }
  }

  // ---------------------------------------------------------------- resources

  /** The resource is made of the keys of the name's parts, in order, with dots between them. */
  ghost predicate Names(name: ObjectName, sem: Semantics, resource: string) {
    exists keys: seq<string> :: |keys| == |name| > 0 && resource == Dotted(keys) && Spells(name, sem, keys)
  }

  predicate Spells(name: ObjectName, sem: Semantics, keys: seq<string>)
    requires |keys| == |name|
  {
    forall i :: 0 <= i < |name| ==> name[i].Named? && KeyOf(name[i].ident, sem, keys[i])
  }

  ghost predicate NamedIn(names: set<ObjectName>, sem: Semantics, resource: string) {
    exists name :: name in names && Names(name, sem, resource)
  }

  ghost predicate AllNamedIn(names: set<ObjectName>, sem: Semantics, resources: set<string>) {
    forall r :: r in resources ==> NamedIn(names, sem, r)
  }

  // The relation names that occur anywhere in a query.

  function NamesInQuery(q: Query): set<ObjectName>
    decreases q
  {
    NamesInCtes(q.ctes) + NamesInSet(q.body) + NamesInExprs(q.tail)
  }

  function NamesInCtes(ctes: seq<Cte>): set<ObjectName>
    decreases ctes
  {
    if ctes == [] then {} else NamesInCte(ctes[0]) + NamesInCtes(ctes[1..])
  }

  function NamesInCte(cte: Cte): set<ObjectName>
    decreases cte
  {
    NamesInQuery(cte.query)
  }

  function NamesInSet(s: SetExpr): set<ObjectName>
    decreases s
  {
    match s
    case Select(_, _, _, projection, from, selection) =>
      NamesInExprs(projection) + NamesInJoins(from) + NamesInExprs(selection)
    case Nested(q) => NamesInQuery(q)
    case SetOperation(_, left, right) => NamesInSet(left) + NamesInSet(right)
    case Values(cells) => NamesInExprs(cells)
    case Mutation(_) => {}
    case TableBody(_) => {}
  }

  function NamesInJoins(joins: seq<Join>): set<ObjectName>
    decreases joins
  {
    if joins == [] then {} else NamesInFactor(joins[0].factor) + NamesInExprs(joins[0].on) + NamesInJoins(joins[1..])
  }

  function NamesInFactor(factor: TableFactor): set<ObjectName>
    decreases factor
  {
    match factor
    case Table(name, _, hints) => {name} + NamesInExprs(hints)
    case Derived(_, q) => NamesInQuery(q)
    case NestedJoin(joins) => NamesInJoins(joins)
    case Unsupported(_, inner, arguments) => NamesInJoins(inner) + NamesInExprs(arguments)
  }

  function NamesInExprs(exprs: seq<Expr>): set<ObjectName>
    decreases exprs
  {
    if exprs == [] then {} else NamesInExpr(exprs[0]) + NamesInExprs(exprs[1..])
  }

  function NamesInExpr(expr: Expr): set<ObjectName>
    decreases expr
  {
    match expr
    case Column(_) => {}
    case Call(_, arguments) => NamesInExprs(arguments)
    case SubQuery(_, arguments, q) => NamesInExprs(arguments) + NamesInQuery(q)
  }

  // Every free relation is named by one of them.

  lemma RelationIsNamed(name: ObjectName, bound: set<string>, sem: Semantics)
    requires RelationOk(name)
    ensures AllNamedIn({name}, sem, FreeRelation(name, bound, sem))
  {
    var keys := Parts(name, sem);
    forall i | 0 <= i < |name| ensures name[i].Named? && KeyOf(name[i].ident, sem, keys[i]) {
      FoldedIsKey(name[i].ident, sem);
    }
    assert Names(name, sem, Dotted(keys));
  }

  lemma BothNamed(a: set<ObjectName>, x: set<string>, b: set<ObjectName>, y: set<string>, sem: Semantics)
    requires AllNamedIn(a, sem, x) && AllNamedIn(b, sem, y)
    ensures AllNamedIn(a + b, sem, x + y)
  {
    forall r | r in x + y ensures NamedIn(a + b, sem, r) {
      if r in x { assert NamedIn(a, sem, r); } else { assert NamedIn(b, sem, r); }
    }
  }

  /** Every resource of an acceptable query is spelled by a relation name that occurs in it. */
  lemma {:induction false} FreeIsNamed(q: Query, bound: set<string>, sem: Semantics)
    requires OkQuery(q)
    ensures AllNamedIn(NamesInQuery(q), sem, FreeQuery(q, bound, sem))
    decreases q
  {
    var inner := BoundCtes(q.ctes, bound, sem);
    CtesAreNamed(q.recursive, q.ctes, bound, sem);
    SetIsNamed(q.body, inner, sem);
    ExprsAreNamed(q.tail, inner, sem);
    var names, free := NamesInCtes(q.ctes), FreeCtes(q.recursive, q.ctes, bound, sem);
    BothNamed(names, free, NamesInSet(q.body), FreeSet(q.body, inner, sem), sem);
    BothNamed(names + NamesInSet(q.body), free + FreeSet(q.body, inner, sem),
              NamesInExprs(q.tail), FreeExprs(q.tail, inner, sem), sem);
  }

  lemma {:induction false} CtesAreNamed(recursive: bool, ctes: seq<Cte>, bound: set<string>, sem: Semantics)
    requires OkCtes(ctes)
    ensures AllNamedIn(NamesInCtes(ctes), sem, FreeCtes(recursive, ctes, bound, sem))
    decreases ctes
  {
    if ctes != [] {
      var extended := bound + {Folded(ctes[0].alias, sem)};
      CteIsNamed(ctes[0], if recursive then extended else bound, sem);
      CtesAreNamed(recursive, ctes[1..], extended, sem);
    }
  }

  lemma {:induction false} CteIsNamed(cte: Cte, bound: set<string>, sem: Semantics)
    requires OkCte(cte)
    ensures AllNamedIn(NamesInCte(cte), sem, FreeCte(cte, bound, sem))
    decreases cte
  {
    FreeIsNamed(cte.query, bound, sem);
  }

  lemma {:induction false} SetIsNamed(s: SetExpr, bound: set<string>, sem: Semantics)
    requires OkSet(s)
    ensures AllNamedIn(NamesInSet(s), sem, FreeSet(s, bound, sem))
    decreases s
  {
    match s
    case Select(_, _, _, projection, from, selection) =>
      ExprsAreNamed(projection, bound, sem);
      JoinsAreNamed(from, bound, sem);
      ExprsAreNamed(selection, bound, sem);
      var names, free := NamesInExprs(projection), FreeExprs(projection, bound, sem);
      BothNamed(names, free, NamesInJoins(from), FreeJoins(from, bound, sem), sem);
      BothNamed(names + NamesInJoins(from), free + FreeJoins(from, bound, sem),
                NamesInExprs(selection), FreeExprs(selection, bound, sem), sem);
    case Nested(q) => FreeIsNamed(q, bound, sem);
    case SetOperation(_, left, right) =>
      SetIsNamed(left, bound, sem);
      SetIsNamed(right, bound, sem);
      BothNamed(NamesInSet(left), FreeSet(left, bound, sem), NamesInSet(right), FreeSet(right, bound, sem), sem);
    case Values(cells) => ExprsAreNamed(cells, bound, sem);
  }

  lemma {:induction false} JoinsAreNamed(joins: seq<Join>, bound: set<string>, sem: Semantics)
    requires OkJoins(joins)
    ensures AllNamedIn(NamesInJoins(joins), sem, FreeJoins(joins, bound, sem))
    decreases joins
  {
    if joins != [] {
      FactorIsNamed(joins[0].factor, bound, sem);
      ExprsAreNamed(joins[0].on, bound, sem);
      JoinsAreNamed(joins[1..], bound, sem);
      var names, free := NamesInFactor(joins[0].factor), FreeFactor(joins[0].factor, bound, sem);
      var ons := FreeExprs(joins[0].on, bound, sem);
      BothNamed(names, free, NamesInExprs(joins[0].on), ons, sem);
      BothNamed(names + NamesInExprs(joins[0].on), free + ons,
                NamesInJoins(joins[1..]), FreeJoins(joins[1..], bound, sem), sem);
    }
  }

  lemma {:induction false} FactorIsNamed(factor: TableFactor, bound: set<string>, sem: Semantics)
    requires OkFactor(factor)
    ensures AllNamedIn(NamesInFactor(factor), sem, FreeFactor(factor, bound, sem))
    decreases factor
  {
    match factor
    case Table(name, _, hints) =>
      RelationIsNamed(name, bound, sem);
      ExprsAreNamed(hints, bound, sem);
    case Derived(_, q) => FreeIsNamed(q, bound, sem);
    case NestedJoin(joins) => JoinsAreNamed(joins, bound, sem);
  }

  lemma {:induction false} ExprsAreNamed(exprs: seq<Expr>, bound: set<string>, sem: Semantics)
    requires OkExprs(exprs)
    ensures AllNamedIn(NamesInExprs(exprs), sem, FreeExprs(exprs, bound, sem))
    decreases exprs
  {
    if exprs != [] {
      ExprIsNamed(exprs[0], bound, sem);
      ExprsAreNamed(exprs[1..], bound, sem);
    }
  }

  lemma {:induction false} ExprIsNamed(expr: Expr, bound: set<string>, sem: Semantics)
    requires OkExpr(expr)
    ensures AllNamedIn(NamesInExpr(expr), sem, FreeExpr(expr, bound, sem))
    decreases expr
  {
    match expr
    case Column(_) =>
    case Call(_, arguments) => ExprsAreNamed(arguments, bound, sem);
    case SubQuery(_, arguments, q) =>
      ExprsAreNamed(arguments, bound, sem);
      FreeIsNamed(q, bound, sem);
  }

  // ---------------------------------------------------------------- names that cannot be captured

  /** The only relations left out are single names that a common table expression of the same key captures. */
  lemma OnlyCapturedNamesAreLeftOut(name: ObjectName, bound: set<string>, sem: Semantics)
    requires RelationOk(name)
    ensures FreeRelation(name, bound, sem) == {} <==>
      |name| == 1 && exists k :: k in bound && KeyOf(name[0].ident, sem, k)
  {
    FoldedIsKey(name[0].ident, sem);
    if k :| k in bound && KeyOf(name[0].ident, sem, k) {
      KeyIsUnique(name[0].ident, sem, k, Folded(name[0].ident, sem));
    }
  }
}

/**
 Reduced syntax of one parsed SQL statement, and the names its relations and common table
 expressions are looked up by.

 Only what decides the read-policy analysis is kept: where queries, relations and expressions
 occur inside each other, and the flags the analysis inspects.
 */
module SqlSyntax {
  import opened Options

  datatype Ident = Ident(value: string, quoted: bool)

  /** One part of an object name; `Computed` is any part that is not a plain identifier. */
  datatype NamePart = Named(ident: Ident) | Computed(text: string)

  type ObjectName = seq<NamePart>

  datatype Query = Query(
    recursive: bool,
    ctes: seq<Cte>,
    body: SetExpr,
    tail: seq<Expr>,       // ORDER BY, LIMIT and the other clauses after the body
    locked: bool,          // FOR UPDATE / FOR SHARE
    piped: bool)           // pipe operators

  datatype Cte = Cte(alias: Ident, hasFrom: bool, query: Query)

  datatype SetExpr =
    | Select(
      into: bool,
      lateralViews: bool,
      shape: string,       // DISTINCT, GROUP BY, aggregates: how kept rows become results
      projection: seq<Expr>,
      from: seq<Join>,
      selection: seq<Expr>)
    | Nested(query: Query)
    | SetOperation(operator: string, left: SetExpr, right: SetExpr)
    | Values(cells: seq<Expr>)
    | Mutation(kind: string)  // INSERT, UPDATE, DELETE, MERGE used as a query body
    | TableBody(table: string)

  /** One item of a FROM clause with the conditions that join it to the items on its left. */
  datatype Join = Join(kind: string, factor: TableFactor, on: seq<Expr>)

  datatype TableFactor =
    | Table(name: ObjectName, plain: bool, hints: seq<Expr>)  // plain: no arguments, ordinality or JSON path
    | Derived(lateral: bool, query: Query)
    | NestedJoin(joins: seq<Join>)
    | Unsupported(kind: string, inner: seq<Join>, arguments: seq<Expr>)

  datatype Expr =
    | Column(name: string)
    | Call(function_: string, arguments: seq<Expr>)
    | SubQuery(kind: string, arguments: seq<Expr>, query: Query)  // EXISTS, IN, ANY, scalar

  // ---------------------------------------------------------------- identifiers

  datatype Semantics = Preserve | LowercaseUnquoted | UppercaseUnquoted

  const UNSAFE: set<char> := {'.', '*', '?', '[', ']', '{', '}', '\\'}

  predicate SafeText(text: string) {
    text != [] && forall i :: 0 <= i < |text| ==> text[i] !in UNSAFE
  }

  function LowerChar(c: char): char {
    if 'A' <= c <= 'Z' then c + 32 as char else c
  }

  function UpperChar(c: char): char {
    if 'a' <= c <= 'z' then c - 32 as char else c
  }

  /** The name a database with these semantics stores an identifier under. */
  function Folded(ident: Ident, semantics: Semantics): (name: string)
    ensures |name| == |ident.value|
    ensures SafeText(ident.value) ==> SafeText(name)
  {
    if ident.quoted then ident.value else
    match semantics
    case Preserve => ident.value
    case LowercaseUnquoted => seq(|ident.value|, i requires 0 <= i < |ident.value| => LowerChar(ident.value[i]))
    case UppercaseUnquoted => seq(|ident.value|, i requires 0 <= i < |ident.value| => UpperChar(ident.value[i]))
  }

  /** The key an identifier is authorised by, or nothing when it could be read as a pattern. */
  function NormalizedIdentifier(ident: Ident, semantics: Semantics): (key: Option<string>)
    ensures key.Some? <==> SafeText(ident.value)
    ensures key.Some? ==> SafeText(key.value)
  {
    if SafeText(ident.value) then Some(Folded(ident, semantics)) else None
  }

  predicate KeyOk(ident: Ident) { SafeText(ident.value) }

  // ---------------------------------------------------------------- relation names

  predicate RelationOk(name: ObjectName) {
    name != [] && forall i :: 0 <= i < |name| ==> name[i].Named? && KeyOk(name[i].ident)
  }

  function Parts(name: ObjectName, semantics: Semantics): (parts: seq<string>)
    ensures |parts| == |name|
    ensures RelationOk(name) ==> SafeParts(parts)
  {
    seq(|name|, i requires 0 <= i < |name| =>
      match name[i]
      case Named(ident) => Folded(ident, semantics)
      case Computed(text) => text)
  }

  predicate SafeParts(parts: seq<string>) {
    parts != [] && forall i :: 0 <= i < |parts| ==> SafeText(parts[i])
  }

  function Dotted(parts: seq<string>): string {
    if parts == [] then []
    else if |parts| == 1 then parts[0]
    else parts[0] + "." + Dotted(parts[1..])
  }

  /** Position of the first dot, which ends the first part. */
  lemma DottedHead(parts: seq<string>)
    requires SafeParts(parts)
    ensures |parts[0]| <= |Dotted(parts)|
    ensures Dotted(parts)[..|parts[0]|] == parts[0]
    ensures |parts| > 1 ==> |Dotted(parts)| > |parts[0]| && Dotted(parts)[|parts[0]|] == '.'
    ensures |parts| > 1 ==> Dotted(parts)[|parts[0]| + 1..] == Dotted(parts[1..])
    ensures |parts| == 1 ==> Dotted(parts) == parts[0]
  {}

  /** A resource string names one relation only: no part can contain the separator. */
  lemma {:induction false} DottedInjective(a: seq<string>, b: seq<string>)
    requires SafeParts(a) && SafeParts(b)
    requires Dotted(a) == Dotted(b)
    ensures a == b
    decreases |a|
  {
    DottedHead(a);
    DottedHead(b);
    var m, n := |a[0]|, |b[0]|;
    assert !(m < n) && !(n < m);
    assert a[0] == b[0];
    if |a| > 1 && |b| > 1 {
      assert SafeParts(a[1..]) && SafeParts(b[1..]);
      DottedInjective(a[1..], b[1..]);
      assert a == [a[0]] + a[1..];
      assert b == [b[0]] + b[1..];
    }
  }
}

/**
 Bounded MongoDB writes: a syntactic bound on the listed `_id` values bounds the documents that the
 compiled filter can match, so an update or delete touches no more than was asked for, unless a
 listed value is a regular expression, which the server takes as a pattern.
 */
module MongoBound {
  import opened Options
  import opened Filters
  import opened Common

  // ---------------------------------------------------------------- stored documents and server filters

  datatype Bson = Plain(kind: string, text: string) | Regex(pattern: string, options: string)

  datatype StoredDocument = StoredDocument(id: Bson, fields: map<string, Bson>)

  datatype Operator = CompareWith(op: Comparison) | InList | ElemMatch

  /** What the driver sends: a condition on one field path, or a logical combination. */
  datatype Selector =
    | Condition(field: string, operator: Operator, operands: seq<Bson>)
    | AndAll(selectors: seq<Selector>)
    | OrAny(selectors: seq<Selector>)
    | NorAll(selectors: seq<Selector>)

  /**
   The server: values compare equal on a key (so 1 and 1.0 are one id), and every condition other
   than equality with `_id` or membership among plain values is decided in some way of its own.
   */
  datatype Server = Server(key: Bson -> int, holds: (StoredDocument, string, Operator, seq<Bson>) -> bool)

  /** Conversion of portable values, which rejects some of them. */
  type Converter = DbValue -> Option<Bson>

  predicate Matches(server: Server, document: StoredDocument, selector: Selector) {
    match selector
    case Condition(field, operator, operands) =>
      if field == "_id" && (operator == CompareWith(EqOp) || operator == InList)
      then exists i :: 0 <= i < |operands| && MatchesId(server, document, operator, operands[i])
      else server.holds(document, field, operator, operands)
    case AndAll(selectors) => forall i :: 0 <= i < |selectors| ==> Matches(server, document, selectors[i])
    case OrAny(selectors) => exists i :: 0 <= i < |selectors| && Matches(server, document, selectors[i])
    case NorAll(selectors) => forall i :: 0 <= i < |selectors| ==> !Matches(server, document, selectors[i])
  }

  /** A regular expression among listed ids is a pattern; compared with `$eq` it is a value like any other. */
  predicate MatchesId(server: Server, document: StoredDocument, operator: Operator, operand: Bson) {
    if operator == InList && operand.Regex? then server.holds(document, "_id", operator, [operand])
    else server.key(operand) == server.key(document.id)
  }

  // ---------------------------------------------------------------- compilation

  predicate EmptySegment(field: string) {
    field == [] || field[0] == '.' || field[|field| - 1] == '.' || DoubleDot(field)
  }

  predicate ValidField(field: string) {
    field != [] && '\0' !in field && field[0] != '$' && !EmptySegment(field)
  }

  function CompileFilter(convert: Converter, f: Filter): Option<Selector>
    decreases f, 1
  {
    match f
    case Compare(op, field, value) =>
      if !ValidField(field) || convert(value).None? then None
      else Some(Condition(field, CompareWith(op), [convert(value).value]))
    case In(field, values) =>
      if !ValidField(field) || values == [] || ConvertAll(convert, values).None? then None
      else Some(Condition(field, InList, ConvertAll(convert, values).value))
    case Contains(field, value) =>
      if !ValidField(field) || convert(value).None? then None
      else Some(Condition(field, ElemMatch, [convert(value).value]))
    case And(filters) =>
      if filters == [] || CompileAll(convert, filters).None? then None
      else Some(AndAll(CompileAll(convert, filters).value))
    case Or(filters) =>
      if filters == [] || CompileAll(convert, filters).None? then None
      else Some(OrAny(CompileAll(convert, filters).value))
    case Not(inner) =>
      if CompileFilter(convert, inner).None? then None else Some(NorAll([CompileFilter(convert, inner).value]))
  }

  function CompileAll(convert: Converter, filters: seq<Filter>): (r: Option<seq<Selector>>)
    ensures r.Some? ==> |r.value| == |filters|
    ensures r.Some? ==> forall i :: 0 <= i < |filters| ==> CompileFilter(convert, filters[i]) == Some(r.value[i])
    decreases filters, 0
  {
    if filters == [] then Some([]) else
      match (CompileFilter(convert, filters[0]), CompileAll(convert, filters[1..]))
      case (Some(first), Some(rest)) => Some([first] + rest)
      case _ => None
  }

  /** The segments of a field path between its dots. */
  function Segments(field: string): (segments: seq<string>)
    ensures segments != []
  {
    if field == [] then [[]]
    else
      var rest := Segments(field[1..]);
      if field[0] == '.' then [[]] + rest else [[field[0]] + rest[0]] + rest[1..]
  }

  lemma {:induction false} EmptySegmentIsASegment(field: string)
    ensures EmptySegment(field) <==> [] in Segments(field)
  {
    if field != [] && field[0] != '.' && field[1..] != [] {
      var rest := field[1..];
      var r := Segments(rest);
      assert r == [r[0]] + r[1..];
      ShiftedDots(field);
      if rest[0] == '.' {
        EmptySegmentIsASegment(rest[1..]);
        if |rest| > 1 { ShiftedDots(rest); }
        assert r[1..] == Segments(rest[1..]);
      } else {
        EmptySegmentIsASegment(rest);
      }
    }
  }

  predicate DoubleDot(field: string) { exists i :: 0 <= i < |field| - 1 && field[i] == '.' && field[i + 1] == '.' }

  lemma ShiftedDots(field: string)
    requires |field| > 1
    ensures DoubleDot(field) <==> (field[0] == '.' && field[1] == '.') || DoubleDot(field[1..])
  {
    if i :| 0 <= i < |field| - 1 && field[i] == '.' && field[i + 1] == '.' {
      assert i > 0 ==> field[1..][i - 1] == '.' && field[1..][i - 1 + 1] == '.';
    }
    if i :| 0 <= i < |field[1..]| - 1 && field[1..][i] == '.' && field[1..][i + 1] == '.' {
      assert field[i + 1] == '.' && field[i + 1 + 1] == '.';
    }
  }

  lemma {:induction false} SegmentsRejoin(field: string)
    ensures Dotted(Segments(field)) == field
    ensures forall i :: 0 <= i < |Segments(field)| ==> '.' !in Segments(field)[i]
  {
    if field != [] {
      var rest := Segments(field[1..]);
      SegmentsRejoin(field[1..]);
      assert rest == [rest[0]] + rest[1..];
      if field[0] == '.' {
        assert ([[]] + rest)[1..] == rest;
      } else {
        assert ([[field[0]] + rest[0]] + rest[1..])[1..] == rest[1..];
      }
    }
  }

  function Dotted(segments: seq<string>): string {
    if segments == [] then [] else if |segments| == 1 then segments[0] else segments[0] + ['.'] + Dotted(segments[1..])
  }

  /** A field path is accepted if and only if it is not empty, has no NUL, no leading dollar and no empty segment. */
  lemma ValidFieldIff(field: string)
    ensures ValidField(field) <==>
      field != "" && (forall i :: 0 <= i < |field| ==> field[i] != '\0') && field[0] != '$' && "" !in Segments(field)
  {
    EmptySegmentIsASegment(field);
  }

  // ---------------------------------------------------------------- what a filter means

  /**
   The truth of a portable filter on a document, by its own structure: an equality or a list of `_id` values goes by
   the id, every other condition is the server's, with the filter's own operator and values.
   */
  predicate Satisfies(server: Server, convert: Converter, d: StoredDocument, f: Filter) {
    match f
    case Compare(op, field, value) =>
      convert(value).Some? &&
      (if field == "_id" && op == EqOp then server.key(convert(value).value) == server.key(d.id)
       else server.holds(d, field, CompareWith(op), [convert(value).value]))
    case In(field, values) =>
      ConvertAll(convert, values).Some? &&
      (if field == "_id" then exists i :: 0 <= i < |values| && ListedIdMatches(server, convert, d, values[i])
       else server.holds(d, field, InList, ConvertAll(convert, values).value))
    case Contains(field, value) => convert(value).Some? && server.holds(d, field, ElemMatch, [convert(value).value])
    case And(filters) => forall i :: 0 <= i < |filters| ==> Satisfies(server, convert, d, filters[i])
    case Or(filters) => exists i :: 0 <= i < |filters| && Satisfies(server, convert, d, filters[i])
    case Not(inner) => !Satisfies(server, convert, d, inner)
  }

  predicate ListedIdMatches(server: Server, convert: Converter, d: StoredDocument, value: DbValue) {
    convert(value).Some? &&
    if convert(value).value.Regex? then server.holds(d, "_id", InList, [convert(value).value])
    else server.key(convert(value).value) == server.key(d.id)
  }

  /** What is sent to the server selects exactly the documents that satisfy the filter. */
  lemma {:induction false} CompiledMeansFilter(server: Server, convert: Converter, d: StoredDocument, f: Filter)
    requires CompileFilter(convert, f).Some?
    ensures Matches(server, d, CompileFilter(convert, f).value) <==> Satisfies(server, convert, d, f)
  {
    var selector := CompileFilter(convert, f).value;
    match f
    case Compare(op, field, value) =>
      if field == "_id" && op == EqOp { assert selector.operands[0] == convert(value).value; }
    case Contains(_, _) =>
    case In(field, values) => if field == "_id" { ListMeansList(server, convert, d, values); }
    case And(filters) =>
      forall i | 0 <= i < |filters|
        ensures Matches(server, d, selector.selectors[i]) <==> Satisfies(server, convert, d, filters[i])
      {
        CompiledMeansFilter(server, convert, d, filters[i]);
      }
    case Or(filters) =>
      forall i | 0 <= i < |filters|
        ensures Matches(server, d, selector.selectors[i]) <==> Satisfies(server, convert, d, filters[i])
      {
        CompiledMeansFilter(server, convert, d, filters[i]);
      }
    case Not(inner) =>
      CompiledMeansFilter(server, convert, d, inner);
      assert selector.selectors[0] == CompileFilter(convert, inner).value;
  }

  lemma ListMeansList(server: Server, convert: Converter, d: StoredDocument, values: seq<DbValue>)
    requires ConvertAll(convert, values).Some?
    ensures Matches(server, d, Condition("_id", InList, ConvertAll(convert, values).value)) <==>
      exists i :: 0 <= i < |values| && ListedIdMatches(server, convert, d, values[i])
  {
    var operands := ConvertAll(convert, values).value;
    assert forall i :: 0 <= i < |values| ==>
      (MatchesId(server, d, InList, operands[i]) <==> ListedIdMatches(server, convert, d, values[i]));
  }

  /**
   A filter compiles exactly when its fields are valid, its lists and junctions are not empty, and its values
   convert.
   */
  predicate Compilable(convert: Converter, f: Filter) {
    match f
    case Compare(_, field, value) => ValidField(field) && convert(value).Some?
    case In(field, values) =>
      ValidField(field) && values != [] && forall i :: 0 <= i < |values| ==> convert(values[i]).Some?
    case Contains(field, value) => ValidField(field) && convert(value).Some?
    case And(filters) => filters != [] && forall i :: 0 <= i < |filters| ==> Compilable(convert, filters[i])
    case Or(filters) => filters != [] && forall i :: 0 <= i < |filters| ==> Compilable(convert, filters[i])
    case Not(inner) => Compilable(convert, inner)
  }

  lemma {:induction false} ConvertsIffEach(convert: Converter, values: seq<DbValue>)
    ensures ConvertAll(convert, values).Some? <==> forall i :: 0 <= i < |values| ==> convert(values[i]).Some?
  {
    if values != [] {
      ConvertsIffEach(convert, values[1..]);
      assert values == [values[0]] + values[1..];
    }
  }

  lemma {:induction false} CompilesIff(convert: Converter, f: Filter)
    ensures CompileFilter(convert, f).Some? <==> Compilable(convert, f)
    decreases f, 1
  {
    match f
    case Compare(_, _, _) =>
    case Contains(_, _) =>
    case In(_, values) => ConvertsIffEach(convert, values);
    case And(filters) => AllCompileIff(convert, filters);
    case Or(filters) => AllCompileIff(convert, filters);
    case Not(inner) => CompilesIff(convert, inner);
  }

  lemma {:induction false} AllCompileIff(convert: Converter, filters: seq<Filter>)
    ensures CompileAll(convert, filters).Some? <==> forall i :: 0 <= i < |filters| ==> Compilable(convert, filters[i])
    decreases filters, 0
  {
    if filters != [] {
      CompilesIff(convert, filters[0]);
      AllCompileIff(convert, filters[1..]);
      assert filters == [filters[0]] + filters[1..];
    }
  }

  // ---------------------------------------------------------------- the syntactic bound

  function SaturatingAdd(a: nat, b: nat): nat { if a + b > U64_MAX then U64_MAX else a + b }

  function ExplicitIdBound(f: Filter): Option<nat> {
    match f
    case Compare(op, field, _) => if op == EqOp && field == "_id" then Some(1) else None
    case In(field, values) => if field == "_id" && values != [] then Some(|values|) else None
    case And(filters) => SmallestBound(filters)
    case Or(filters) => if filters == [] then None else TotalBound(filters)
    case _ => None
  }

  /** The least bound among the conjuncts that have one. */
  function SmallestBound(filters: seq<Filter>): Option<nat> {
    if filters == [] then None else
      match (ExplicitIdBound(filters[0]), SmallestBound(filters[1..]))
      case (None, rest) => rest
      case (first, None) => first
      case (Some(a), Some(b)) => Some(if a <= b then a else b)
  }

  /** The sum over disjuncts, which must all have a bound. */
  function TotalBound(filters: seq<Filter>): Option<nat> {
    if filters == [] then Some(0) else
      match (ExplicitIdBound(filters[0]), TotalBound(filters[1..]))
      case (Some(a), Some(b)) => Some(SaturatingAdd(a, b))
      case _ => None
  }

  /** An equality counts one id, a list its length; other conditions, and anything negated, count nothing. */
  lemma BoundOfConditions(f: Filter, g: Filter)
    ensures f.Compare? ==> (ExplicitIdBound(f) == Some(1) <==> f.op == EqOp && f.field == "_id")
    ensures f.In? && f.field == "_id" && f.values != [] ==> ExplicitIdBound(f) == Some(|f.values|)
    ensures (f.Compare? && f.op != EqOp) || f.Contains? || ((f.Compare? || f.In?) && f.field != "_id") ==>
      ExplicitIdBound(f) == None
    ensures ExplicitIdBound(Not(g)) == None && ExplicitIdBound(Or([])) == None && ExplicitIdBound(And([])) == None
  {
  }

  /** The bound of a conjunction is the least one of its conjuncts. */
  lemma {:induction false} SmallestIsLeast(filters: seq<Filter>)
    ensures SmallestBound(filters).Some? <==> exists i :: 0 <= i < |filters| && ExplicitIdBound(filters[i]).Some?
    ensures SmallestBound(filters).Some? ==>
      && (exists i :: 0 <= i < |filters| && ExplicitIdBound(filters[i]) == SmallestBound(filters))
      && forall i :: 0 <= i < |filters| && ExplicitIdBound(filters[i]).Some? ==>
           SmallestBound(filters).value <= ExplicitIdBound(filters[i]).value
  {
    if filters != [] {
      SmallestIsLeast(filters[1..]);
      assert filters == [filters[0]] + filters[1..];
    }
  }

  /** The bound of a disjunction is the saturated sum, and there is one only if every disjunct has one. */
  lemma {:induction false} TotalIsSum(filters: seq<Filter>)
    ensures TotalBound(filters).Some? <==> forall i :: 0 <= i < |filters| ==> ExplicitIdBound(filters[i]).Some?
    ensures TotalBound(filters).Some? ==> TotalBound(filters).value == Min(SumOfBounds(filters), 0xFFFF_FFFF_FFFF_FFFF)
  {
    if filters != [] {
      TotalIsSum(filters[1..]);
      assert filters == [filters[0]] + filters[1..];
    }
  }

  function SumOfBounds(filters: seq<Filter>): nat {
    if filters == [] then 0 else
      var first := ExplicitIdBound(filters[0]);
      (if first.Some? then first.value else 0) + SumOfBounds(filters[1..])
  }

  /** The value is listed as a pattern, not as an id. */
  predicate IsPattern(convert: Converter, value: DbValue) { convert(value).Some? && convert(value).value.Regex? }

  /**
   A document of the form {"$regularExpression": {"pattern": ..., "options": ...}} converts to a regular expression.
   */
  function ExtendedPattern(value: DbValue): Option<Bson> {
    if value.Doc? && value.entries.Keys == {"$regularExpression"} && value.entries["$regularExpression"].Doc? then
      var parts := value.entries["$regularExpression"].entries;
      if "pattern" in parts && "options" in parts && parts["pattern"].Text? && parts["options"].Text?
      then Some(Regex(parts["pattern"].s, parts["options"].s)) else None
    else None
  }

  /** The connector's conversion: that form, and otherwise values of other types. */
  function WithPatterns(others: DbValue -> Option<Bson>): Converter {
    value => if ExtendedPattern(value).Some? then ExtendedPattern(value) else others(value)
  }

  /** Every pattern with options can be written this way, and converts to itself. */
  lemma ExtendedPatternConverts(others: DbValue -> Option<Bson>, pattern: string, options: string)
    ensures var inner := Doc(map["pattern" := Text(pattern), "options" := Text(options)]);
      WithPatterns(others)(Doc(map["$regularExpression" := inner])) == Some(Regex(pattern, options))
  {
    var parts := map["pattern" := Text(pattern), "options" := Text(options)];
    assert "pattern" in parts && "options" in parts && parts["pattern"] == Text(pattern)
      && parts["options"] == Text(options);
    var value := Doc(map["$regularExpression" := Doc(parts)]);
    assert value.entries.Keys == {"$regularExpression"} && value.entries["$regularExpression"] == Doc(parts);
    assert ExtendedPattern(value) == Some(Regex(pattern, options));
  }

  /** So a caller can tell from the value alone whether it is listed as a pattern. */
  lemma PatternsAreDocuments(others: DbValue -> Option<Bson>, value: DbValue)
    requires others(value).Some? ==> others(value).value.Plain?
    ensures IsPattern(WithPatterns(others), value) <==> ExtendedPattern(value).Some?
  {
  }

  predicate NoPatterns(convert: Converter, values: seq<DbValue>) {
    forall i :: 0 <= i < |values| ==> !IsPattern(convert, values[i])
  }

  /** No list of ids that the bound counts holds a pattern; of a conjunction it counts one conjunct. */
  predicate CountsIds(convert: Converter, f: Filter) {
    match f
    case Compare(_, _, _) => true
    case In(_, values) => NoPatterns(convert, values)
    case And(filters) =>
      exists i :: 0 <= i < |filters| && ExplicitIdBound(filters[i]).Some?
        && ExplicitIdBound(filters[i]) == SmallestBound(filters) && CountsIds(convert, filters[i])
    case Or(filters) => forall i :: 0 <= i < |filters| ==> CountsIds(convert, filters[i])
    case _ => true
  }

  // ---------------------------------------------------------------- listed ids cover the matches

  /** The documents' ids that can match, as a list of keys no longer than the bound. */
  ghost predicate Covers(server: Server, selector: Selector, keys: seq<int>) {
    forall d: StoredDocument :: Matches(server, d, selector) ==> server.key(d.id) in keys
  }

  lemma {:induction false} BoundCovers(server: Server, convert: Converter, f: Filter) returns (keys: seq<int>)
    requires CompileFilter(convert, f).Some? && ExplicitIdBound(f).Some? && ExplicitIdBound(f).value < U64_MAX
    requires CountsIds(convert, f)
    ensures |keys| <= ExplicitIdBound(f).value
    ensures Covers(server, CompileFilter(convert, f).value, keys)
    decreases f, 1
  {
    var selector := CompileFilter(convert, f).value;
    match f
    case Compare(_, _, _) => keys := [server.key(selector.operands[0])];
    case In(_, values) => keys := ListCovers(server, convert, values);
    case And(filters) =>
      var i :| 0 <= i < |filters| && ExplicitIdBound(filters[i]).Some?
        && ExplicitIdBound(filters[i]) == SmallestBound(filters) && CountsIds(convert, filters[i]);
      keys := BoundCovers(server, convert, filters[i]);
      forall d: StoredDocument | Matches(server, d, selector) ensures server.key(d.id) in keys {
        assert Matches(server, d, selector.selectors[i]);
      }
    case Or(filters) =>
      keys := DisjunctsCover(server, convert, filters);
  }

  lemma ListCovers(server: Server, convert: Converter, values: seq<DbValue>) returns (keys: seq<int>)
    requires ConvertAll(convert, values).Some? && NoPatterns(convert, values)
    ensures |keys| == |values|
    ensures Covers(server, Condition("_id", InList, ConvertAll(convert, values).value), keys)
  {
    var operands := ConvertAll(convert, values).value;
    keys := seq(|operands|, i requires 0 <= i < |operands| => server.key(operands[i]));
    forall d: StoredDocument | Matches(server, d, Condition("_id", InList, operands)) ensures server.key(d.id) in keys {
      var i :| 0 <= i < |operands| && MatchesId(server, d, InList, operands[i]);
      assert !IsPattern(convert, values[i]);
      assert keys[i] == server.key(d.id);
    }
  }

  lemma {:induction false} DisjunctsCover(server: Server, convert: Converter, filters: seq<Filter>)
    returns (keys: seq<int>)
    requires CompileAll(convert, filters).Some? && TotalBound(filters).Some? && TotalBound(filters).value < U64_MAX
    requires forall i :: 0 <= i < |filters| ==> CountsIds(convert, filters[i])
    ensures |keys| <= TotalBound(filters).value
    ensures Covers(server, OrAny(CompileAll(convert, filters).value), keys)
    decreases filters, 0
  {
    var selectors := CompileAll(convert, filters).value;
    if filters == [] {
      keys := [];
    } else {
      var first := BoundCovers(server, convert, filters[0]);
      var rest := DisjunctsCover(server, convert, filters[1..]);
      keys := first + rest;
      var tail := OrAny(CompileAll(convert, filters[1..]).value);
      forall d: StoredDocument | Matches(server, d, OrAny(selectors)) ensures server.key(d.id) in keys {
        var i :| 0 <= i < |selectors| && Matches(server, d, selectors[i]);
        if i > 0 {
          assert tail.selectors[i - 1] == selectors[i];
          assert Matches(server, d, tail);
        }
      }
    }
  }

  // ---------------------------------------------------------------- counting

  ghost predicate UniqueIds(server: Server, documents: seq<StoredDocument>) {
    forall i, j :: 0 <= i < j < |documents| ==> server.key(documents[i].id) != server.key(documents[j].id)
  }

  function MatchCount(server: Server, documents: seq<StoredDocument>, selector: Selector): (n: nat)
    ensures n <= |documents|
  {
    if documents == [] then 0
    else (if Matches(server, documents[0], selector) then 1 else 0) + MatchCount(server, documents[1..], selector)
  }

  /** Documents with distinct ids cannot outnumber the ids they are covered by. */
  lemma {:induction false} CountWithinKeys(server: Server, documents: seq<StoredDocument>, selector: Selector,
    keys: set<int>)
    requires UniqueIds(server, documents)
    requires forall i :: 0 <= i < |documents| && Matches(server, documents[i], selector) ==>
      server.key(documents[i].id) in keys
    ensures MatchCount(server, documents, selector) <= |keys|
  {
    if documents != [] {
      var key := server.key(documents[0].id);
      if Matches(server, documents[0], selector) {
        CountWithinKeys(server, documents[1..], selector, keys - {key});
      } else {
        CountWithinKeys(server, documents[1..], selector, keys);
      }
    }
  }

  function KeySet(keys: seq<int>): set<int> { set k | k in keys }

  lemma {:induction false} KeySetSize(keys: seq<int>)
    ensures |KeySet(keys)| <= |keys|
  {
    if keys != [] {
      KeySetSize(keys[1..]);
      assert KeySet(keys) == {keys[0]} + KeySet(keys[1..]);
    }
  }

  /** At most n documents match a filter whose explicit bound is n, when what it counts are ids. */
  lemma MatchesWithinBound(server: Server, convert: Converter, f: Filter, documents: seq<StoredDocument>)
    requires CompileFilter(convert, f).Some? && ExplicitIdBound(f).Some? && CountsIds(convert, f)
    requires UniqueIds(server, documents) && |documents| <= U64_MAX
    ensures MatchCount(server, documents, CompileFilter(convert, f).value) <= ExplicitIdBound(f).value
  {
    if ExplicitIdBound(f).value < U64_MAX {
      var keys := BoundCovers(server, convert, f);
      KeySetSize(keys);
      CountWithinKeys(server, documents, CompileFilter(convert, f).value, KeySet(keys));
    }
  }

  // ---------------------------------------------------------------- patterns among the ids

  /** A server on which every pattern matches every id, and on which the nth document has key n. */
  function Permissive(): Server { Server((b: Bson) => if b.Plain? then |b.text| else 0, (_, _, _, _) => true) }

  function Numbered(n: nat): StoredDocument { StoredDocument(Plain("string", seq(n, _ => 'x')), map[]) }

  function Crowd(count: nat): (documents: seq<StoredDocument>)
    ensures |documents| == count
    ensures forall i :: 0 <= i < count ==> documents[i] == Numbered(i)
  {
    seq(count, n requires 0 <= n => Numbered(n))
  }

  /** Filters made of id equalities and id lists, joined by OR. */
  predicate OnlyIds(f: Filter) {
    match f
    case Compare(op, field, _) => op == EqOp && field == "_id"
    case In(field, values) => field == "_id" && values != []
    case Or(filters) => filters != [] && forall i :: 0 <= i < |filters| ==> OnlyIds(filters[i])
    case _ => false
  }

  /** Nothing in the filter ties a document to a listed id: lists of ids have a pattern, other conditions can hold. */
  predicate Unconfined(convert: Converter, f: Filter) {
    match f
    case Compare(op, field, _) => !(op == EqOp && field == "_id")
    case In(field, values) => field == "_id" ==> !NoPatterns(convert, values)
    case Contains(_, _) => true
    case And(filters) => forall i :: 0 <= i < |filters| ==> Unconfined(convert, filters[i])
    case Or(filters) => exists i :: 0 <= i < |filters| && Unconfined(convert, filters[i])
    case Not(_) => false
  }

  lemma {:induction false} PatternUnconfines(convert: Converter, f: Filter)
    requires OnlyIds(f) && !CountsIds(convert, f)
    ensures Unconfined(convert, f)
  {
    match f
    case In(_, _) =>
    case Or(filters) =>
      var i :| 0 <= i < |filters| && !CountsIds(convert, filters[i]);
      PatternUnconfines(convert, filters[i]);
  }

  /** On the permissive server such a filter matches every document. */
  lemma {:induction false} UnconfinedMatchesAll(convert: Converter, f: Filter, d: StoredDocument)
    requires Unconfined(convert, f) && CompileFilter(convert, f).Some?
    ensures Matches(Permissive(), d, CompileFilter(convert, f).value)
  {
    var selector := CompileFilter(convert, f).value;
    match f
    case Compare(_, _, _) =>
    case Contains(_, _) =>
    case In(field, values) =>
      if field == "_id" {
        var i :| 0 <= i < |values| && IsPattern(convert, values[i]);
        assert MatchesId(Permissive(), d, InList, selector.operands[i]);
      }
    case And(filters) =>
      forall i | 0 <= i < |filters| ensures Matches(Permissive(), d, selector.selectors[i]) {
        UnconfinedMatchesAll(convert, filters[i], d);
      }
    case Or(filters) =>
      var i :| 0 <= i < |filters| && Unconfined(convert, filters[i]);
      UnconfinedMatchesAll(convert, filters[i], d);
      assert CompileFilter(convert, filters[i]) == Some(selector.selectors[i]);
  }

  lemma {:induction false} AllMatchCount(server: Server, documents: seq<StoredDocument>, selector: Selector)
    requires forall i :: 0 <= i < |documents| ==> Matches(server, documents[i], selector)
    ensures MatchCount(server, documents, selector) == |documents|
  {
    if documents != [] {
      AllMatchCount(server, documents[1..], selector);
    }
  }

  lemma CrowdIsUnique(count: nat)
    ensures UniqueIds(Permissive(), Crowd(count))
  {
    forall i, j | 0 <= i < j < count
      ensures Permissive().key(Crowd(count)[i].id) != Permissive().key(Crowd(count)[j].id) {
      assert Crowd(count)[i] == Numbered(i) && Crowd(count)[j] == Numbered(j);
    }
  }

  /** The bound is kept on every server and every collection with unique ids. */
  ghost predicate BoundKept(selector: Selector, bound: nat) {
    forall server: Server, documents: seq<StoredDocument> ::
      UniqueIds(server, documents) && |documents| <= U64_MAX ==> MatchCount(server, documents, selector) <= bound
  }

  /** An unconfined filter matches collections of any size entirely, whatever bound it carries. */
  lemma UnconfinedExceeds(convert: Converter, f: Filter, count: nat)
    requires Unconfined(convert, f) && CompileFilter(convert, f).Some?
    ensures UniqueIds(Permissive(), Crowd(count))
    ensures MatchCount(Permissive(), Crowd(count), CompileFilter(convert, f).value) == count
  {
    CrowdIsUnique(count);
    forall i | 0 <= i < count ensures Matches(Permissive(), Crowd(count)[i], CompileFilter(convert, f).value) {
      UnconfinedMatchesAll(convert, f, Crowd(count)[i]);
    }
    AllMatchCount(Permissive(), Crowd(count), CompileFilter(convert, f).value);
  }

  /** For equalities and lists of ids joined by OR: the bound is kept if and only if no listed value is a pattern. */
  lemma BoundKeptIffNoPattern(convert: Converter, f: Filter)
    requires OnlyIds(f) && CompileFilter(convert, f).Some? && ExplicitIdBound(f).Some?
    requires ExplicitIdBound(f).value < U64_MAX
    ensures BoundKept(CompileFilter(convert, f).value, ExplicitIdBound(f).value) <==> CountsIds(convert, f)
  {
    var selector, bound := CompileFilter(convert, f).value, ExplicitIdBound(f).value;
    if CountsIds(convert, f) {
      forall server: Server, documents: seq<StoredDocument> | UniqueIds(server, documents) && |documents| <= U64_MAX
        ensures MatchCount(server, documents, selector) <= bound
      {
        MatchesWithinBound(server, convert, f, documents);
      }
    } else {
      PatternUnconfines(convert, f);
      UnconfinedExceeds(convert, f, bound + 1);
    }
  }

  // ---------------------------------------------------------------- bounded writes

  /** `Exceeded` is the error raised after the server has already done more than the bound. */
  datatype WriteOutcome = Rejected | Exceeded | Affected(count: nat)

  function Updated(document: StoredDocument, changes: map<string, Bson>): StoredDocument {
    document.(fields := document.fields + changes)
  }

  /** The document afterwards: the new values, everything else as before. */
  predicate HasChanges(after: StoredDocument, before: StoredDocument, changes: map<string, Bson>) {
    && after.id == before.id
    && after.fields.Keys == before.fields.Keys + changes.Keys
    && (forall field :: field in changes ==> after.fields[field] == changes[field])
    && (forall field :: field in before.fields && field !in changes ==> after.fields[field] == before.fields[field])
  }

  /** The checks made before anything is sent. */
  predicate Accepts(convert: Converter, filter: Filter, requested: nat, policyMax: nat) {
    && requested > 0 && ExplicitIdBound(filter).Some? && ExplicitIdBound(filter).value <= Min(requested, policyMax)
    && CompileFilter(convert, filter).Some?
  }

  predicate AcceptsChanges(changes: map<string, Bson>) {
    changes != map[] && "_id" !in changes && forall field :: field in changes ==> ValidField(field)
  }

  class Collection {
    const server: Server
    const convert: Converter
    var documents: seq<StoredDocument>

    ghost predicate Valid() reads this { UniqueIds(server, documents) && |documents| <= U64_MAX }

    constructor (server: Server, convert: Converter)
      ensures Valid() && documents == [] && this.server == server && this.convert == convert
    {
      this.server, this.convert, documents := server, convert, [];
    }

    /** What the server does with an update: every matching document changes; matches and real changes are counted. */
    method UpdateMany(selector: Selector, changes: map<string, Bson>) returns (matched: nat, modified: nat)
      modifies this`documents
      ensures matched == MatchCount(server, old(documents), selector)
      ensures modified == ModifiedCount(server, old(documents), selector, changes)
      ensures documents == AllAfterUpdate(server, old(documents), selector, changes)
    {
      matched, modified := 0, 0;
      var i := 0;
      while i < |documents|
        invariant 0 <= i <= |documents| == |old(documents)|
        invariant matched + MatchCount(server, old(documents)[i..], selector)
          == MatchCount(server, old(documents), selector)
        invariant modified + ModifiedCount(server, old(documents)[i..], selector, changes)
          == ModifiedCount(server, old(documents), selector, changes)
        invariant forall k :: 0 <= k < i ==> documents[k] == AfterUpdate(server, old(documents)[k], selector, changes)
        invariant forall k :: i <= k < |documents| ==> documents[k] == old(documents)[k]
      {
        assert old(documents)[i..][0] == documents[i] && old(documents)[i..][1..] == old(documents)[i + 1..];
        if Matches(server, documents[i], selector) {
          var changed := Updated(documents[i], changes);
          matched := matched + 1;
          if changed != documents[i] { modified := modified + 1; }
          documents := documents[i := changed];
        }
        i := i + 1;
      }
    }

    /**
     An accepted update changes exactly the matching documents and reports how many really changed; only when
     more documents match than either limit allows is it an error, and then it has changed them already. That
     never happens when what the bound counts are ids.
     */
    method ExecuteUpdate(filter: Filter, changes: map<string, Bson>, requested: nat, policyMax: nat)
      returns (outcome: WriteOutcome)
      requires Valid()
      modifies this`documents
      ensures Valid()
      ensures outcome.Rejected? <==> !Accepts(convert, filter, requested, policyMax) || !AcceptsChanges(changes)
      ensures outcome.Rejected? ==> documents == old(documents)
      ensures !outcome.Rejected? ==>
        var selector := CompileFilter(convert, filter).value;
        var matched := MatchCount(server, old(documents), selector);
        && |documents| == |old(documents)|
        && (forall i :: 0 <= i < |documents| ==>
             if Satisfies(server, convert, old(documents)[i], filter)
             then HasChanges(documents[i], old(documents)[i], changes) else documents[i] == old(documents)[i])
        && (outcome.Exceeded? <==> matched > Min(requested, policyMax))
        && (outcome.Affected? ==> outcome.count == ModifiedCount(server, old(documents), selector, changes) <= matched)
      ensures CountsIds(convert, filter) ==> !outcome.Exceeded?
    {
      if requested == 0 { return Rejected; }
      var cap := Min(requested, policyMax);
      var bound := ExplicitIdBound(filter);
      if bound.None? || bound.value > cap { return Rejected; }
      if changes == map[] || "_id" in changes { return Rejected; }
      if exists field :: field in changes && !ValidField(field) { return Rejected; }
      var selector := CompileFilter(convert, filter);
      if selector.None? { return Rejected; }
      if CountsIds(convert, filter) { MatchesWithinBound(server, convert, filter, documents); }
      UpdateKeepsIds(server, documents, selector.value, changes);
      ModifiedWithinMatched(server, documents, selector.value, changes);
      forall i | 0 <= i < |documents|
        ensures Matches(server, documents[i], selector.value) <==> Satisfies(server, convert, documents[i], filter)
      {
        CompiledMeansFilter(server, convert, documents[i], filter);
      }
      var matched, modified := UpdateMany(selector.value, changes);
      if matched > cap { return Exceeded; }
      return Affected(modified);
    }

    /** The same for a delete, which keeps the other documents in order. */
    method ExecuteDelete(filter: Filter, requested: nat, policyMax: nat) returns (outcome: WriteOutcome)
      requires Valid()
      modifies this`documents
      ensures Valid()
      ensures outcome.Rejected? <==> !Accepts(convert, filter, requested, policyMax)
      ensures outcome.Rejected? ==> documents == old(documents)
      ensures !outcome.Rejected? ==>
        var selector := CompileFilter(convert, filter).value;
        var matched := MatchCount(server, old(documents), selector);
        && documents == Survivors(server, old(documents), selector)
        && (forall d :: d in documents <==> d in old(documents) && !Satisfies(server, convert, d, filter))
        && (outcome.Exceeded? <==> matched > Min(requested, policyMax))
        && (outcome.Affected? ==> outcome.count == matched)
      ensures CountsIds(convert, filter) ==> !outcome.Exceeded?
    {
      if requested == 0 { return Rejected; }
      var cap := Min(requested, policyMax);
      var bound := ExplicitIdBound(filter);
      if bound.None? || bound.value > cap { return Rejected; }
      var selector := CompileFilter(convert, filter);
      if selector.None? { return Rejected; }
      if CountsIds(convert, filter) { MatchesWithinBound(server, convert, filter, documents); }
      SurvivorsAreUnique(server, documents, selector.value);
      SurvivorsDoNotMatch(server, documents, selector.value);
      forall d: StoredDocument
        ensures Matches(server, d, selector.value) <==> Satisfies(server, convert, d, filter)
      {
        CompiledMeansFilter(server, convert, d, filter);
      }
      var kept := Survivors(server, documents, selector.value);
      var deleted := |documents| - |kept|;
      documents := kept;
      if deleted > cap { return Exceeded; }
      return Affected(deleted);
    }
  }

  /**
   One listed pattern, a limit of one document: the update is refused as exceeded after it has changed all of them.
   */
  method PatternUpdateExceeds(convert: Converter, pattern: DbValue, changes: map<string, Bson>, count: nat)
    returns (collection: Collection, outcome: WriteOutcome)
    requires IsPattern(convert, pattern) && AcceptsChanges(changes) && 1 < count <= U64_MAX
    ensures fresh(collection) && outcome == Exceeded && |collection.documents| == count
    ensures forall i :: 0 <= i < count ==> HasChanges(collection.documents[i], Numbered(i), changes)
  {
    var filter := In("_id", [pattern]);
    assert CompileFilter(convert, filter).Some? by { assert ConvertAll(convert, [pattern][1..]) == Some([]); }
    assert !NoPatterns(convert, [pattern]) by { assert IsPattern(convert, [pattern][0]); }
    UnconfinedExceeds(convert, filter, count);
    collection := new Collection(Permissive(), convert);
    collection.documents := Crowd(count);
    outcome := collection.ExecuteUpdate(filter, changes, 1, 1);
    forall i | 0 <= i < count ensures HasChanges(collection.documents[i], Numbered(i), changes) {
      UnconfinedMatchesAll(convert, filter, Numbered(i));
      CompiledMeansFilter(Permissive(), convert, Numbered(i), filter);
    }
  }

  function AllAfterUpdate(server: Server, documents: seq<StoredDocument>, selector: Selector,
    changes: map<string, Bson>)
    : (after: seq<StoredDocument>)
    ensures |after| == |documents|
    ensures forall i :: 0 <= i < |documents| ==> after[i] == AfterUpdate(server, documents[i], selector, changes)
  {
    seq(|documents|, i requires 0 <= i < |documents| => AfterUpdate(server, documents[i], selector, changes))
  }

  /** The documents that match and do not already hold the new values. */
  function ModifiedCount(server: Server, documents: seq<StoredDocument>, selector: Selector,
    changes: map<string, Bson>): nat {
    if documents == [] then 0
    else
      (if AfterUpdate(server, documents[0], selector, changes) != documents[0] then 1 else 0)
      + ModifiedCount(server, documents[1..], selector, changes)
  }

  lemma {:induction false} ModifiedWithinMatched(server: Server, documents: seq<StoredDocument>, selector: Selector,
                                                 changes: map<string, Bson>)
    ensures ModifiedCount(server, documents, selector, changes) <= MatchCount(server, documents, selector)
  {
    if documents != [] {
      ModifiedWithinMatched(server, documents[1..], selector, changes);
    }
  }

  lemma UpdateKeepsIds(server: Server, documents: seq<StoredDocument>, selector: Selector, changes: map<string, Bson>)
    requires UniqueIds(server, documents)
    ensures UniqueIds(server, AllAfterUpdate(server, documents, selector, changes))
  {
    var after := AllAfterUpdate(server, documents, selector, changes);
    assert forall i :: 0 <= i < |documents| ==> after[i].id == documents[i].id;
  }

  /** A document is changed when it matches, and only then. */
  function AfterUpdate(server: Server, document: StoredDocument, selector: Selector,
    changes: map<string, Bson>): StoredDocument {
    if Matches(server, document, selector) then Updated(document, changes) else document
  }

  function Survivors(server: Server, documents: seq<StoredDocument>, selector: Selector): seq<StoredDocument> {
    if documents == [] then []
    else if Matches(server, documents[0], selector) then Survivors(server, documents[1..], selector)
    else [documents[0]] + Survivors(server, documents[1..], selector)
  }

  /** A delete leaves the order of the others as it was. */
  lemma {:induction false} SurvivorsKeepOrder(server: Server, a: seq<StoredDocument>, b: seq<StoredDocument>,
                                              selector: Selector)
    ensures Survivors(server, a + b, selector) == Survivors(server, a, selector) + Survivors(server, b, selector)
  {
    if a == [] {
      assert a + b == b;
    } else {
      assert (a + b)[0] == a[0] && (a + b)[1..] == a[1..] + b;
      SurvivorsKeepOrder(server, a[1..], b, selector);
    }
  }

  /** What a delete leaves are exactly the documents that do not match. */
  lemma {:induction false} SurvivorsDoNotMatch(server: Server, documents: seq<StoredDocument>, selector: Selector)
    ensures var kept := Survivors(server, documents, selector);
      && |kept| + MatchCount(server, documents, selector) == |documents|
      && (forall d :: d in kept <==> d in documents && !Matches(server, d, selector))
  {
    if documents != [] {
      SurvivorsDoNotMatch(server, documents[1..], selector);
      assert documents == [documents[0]] + documents[1..];
    }
  }

  lemma {:induction false} SurvivorsAreUnique(server: Server, documents: seq<StoredDocument>, selector: Selector)
    requires UniqueIds(server, documents)
    ensures UniqueIds(server, Survivors(server, documents, selector))
  {
    if documents != [] {
      SurvivorsAreUnique(server, documents[1..], selector);
      SurvivorsDoNotMatch(server, documents[1..], selector);
      var rest := Survivors(server, documents[1..], selector);
      forall i | 0 <= i < |rest| ensures server.key(documents[0].id) != server.key(rest[i].id) {
        assert rest[i] in documents[1..];
      }
    }
  }
}

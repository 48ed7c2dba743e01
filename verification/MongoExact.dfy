/**
 The exact condition under which a filter without NOT keeps a bound on the documents it matches: evaluate it over
 sets of ids, taking patterns and conditions on other fields to hold, and count what is left.
 */
module MongoExact {
  import opened Options
  import opened Filters
  import opened Common
  import opened MongoBound

  /** No set of ids: every document may match. */
  function Meet(a: Option<set<int>>, b: Option<set<int>>): Option<set<int>> {
    if a.None? then b else if b.None? then a else Some(a.value * b.value)
  }

  function Join(a: Option<set<int>>, b: Option<set<int>>): Option<set<int>> {
    if a.Some? && b.Some? then Some(a.value + b.value) else None
  }

  function KeyOf(key: Bson -> int, convert: Converter, value: DbValue): set<int> {
    if convert(value).Some? then {key(convert(value).value)} else {}
  }

  function KeysOf(key: Bson -> int, convert: Converter, values: seq<DbValue>): set<int> {
    if values == [] then {} else KeyOf(key, convert, values[0]) + KeysOf(key, convert, values[1..])
  }

  /** The ids a filter leaves possible when patterns and conditions on other fields are taken to hold; None for all. */
  function Possible(key: Bson -> int, convert: Converter, f: Filter): Option<set<int>>
    decreases f, 1
  {
    match f
    case Compare(op, field, value) => if op == EqOp && field == "_id" then Some(KeyOf(key, convert, value)) else None
    case In(field, values) =>
      if field == "_id" && NoPatterns(convert, values) then Some(KeysOf(key, convert, values)) else None
    case Contains(_, _) => None
    case And(filters) => PossibleInAll(key, convert, filters)
    case Or(filters) => PossibleInAny(key, convert, filters)
    case Not(_) => None
  }

  function PossibleInAll(key: Bson -> int, convert: Converter, filters: seq<Filter>): Option<set<int>>
    decreases filters, 0
  {
    if filters == [] then None else Meet(Possible(key, convert, filters[0]), PossibleInAll(key, convert, filters[1..]))
  }

  function PossibleInAny(key: Bson -> int, convert: Converter, filters: seq<Filter>): Option<set<int>>
    decreases filters, 0
  {
    if filters == [] then Some({})
    else Join(Possible(key, convert, filters[0]), PossibleInAny(key, convert, filters[1..]))
  }

  predicate Allows(ids: Option<set<int>>, id: int) { ids.None? || id in ids.value }

  lemma {:induction false} KeysOfList(key: Bson -> int, convert: Converter, values: seq<DbValue>, k: int)
    ensures k in KeysOf(key, convert, values) <==>
      exists i :: 0 <= i < |values| && convert(values[i]).Some? && key(convert(values[i]).value) == k
  {
    if values != [] {
      KeysOfList(key, convert, values[1..], k);
      if i :| 0 <= i < |values[1..]| && convert(values[1..][i]).Some? && key(convert(values[1..][i]).value) == k {
        assert values[i + 1] == values[1..][i];
      }
      if i :| 0 <= i < |values| && convert(values[i]).Some? && key(convert(values[i]).value) == k {
        assert i > 0 ==> values[1..][i - 1] == values[i];
      }
    }
  }

  /** Whatever matches has a possible id, on every server with these keys and for every filter. */
  lemma {:induction false} MatchIsPossible(server: Server, convert: Converter, f: Filter, d: StoredDocument)
    requires CompileFilter(convert, f).Some? && Matches(server, d, CompileFilter(convert, f).value)
    ensures Allows(Possible(server.key, convert, f), server.key(d.id))
    decreases f, 1
  {
    var selector := CompileFilter(convert, f).value;
    match f
    case In(field, values) =>
      if field == "_id" && NoPatterns(convert, values) {
        var i :| 0 <= i < |selector.operands| && MatchesId(server, d, InList, selector.operands[i]);
        assert !IsPattern(convert, values[i]);
        KeysOfList(server.key, convert, values, server.key(d.id));
      }
    case And(filters) =>
      assert forall i :: 0 <= i < |filters| ==> Matches(server, d, selector.selectors[i]);
      MatchIsPossibleInAll(server, convert, filters, d);
    case Or(filters) =>
      var i :| 0 <= i < |filters| && Matches(server, d, selector.selectors[i]);
      MatchIsPossible(server, convert, filters[i], d);
      PossibleInOne(server.key, convert, filters, i, server.key(d.id));
    case _ =>
  }

  lemma {:induction false} MatchIsPossibleInAll(server: Server, convert: Converter, filters: seq<Filter>,
    d: StoredDocument)
    requires CompileAll(convert, filters).Some?
    requires forall i :: 0 <= i < |filters| ==> Matches(server, d, CompileAll(convert, filters).value[i])
    ensures Allows(PossibleInAll(server.key, convert, filters), server.key(d.id))
    decreases filters, 0
  {
    if filters != [] {
      assert Matches(server, d, CompileAll(convert, filters).value[0]);
      MatchIsPossible(server, convert, filters[0], d);
      forall i | 0 <= i < |filters[1..]| ensures Matches(server, d, CompileAll(convert, filters[1..]).value[i]) {
        assert CompileAll(convert, filters).value[i + 1] == CompileAll(convert, filters[1..]).value[i];
      }
      MatchIsPossibleInAll(server, convert, filters[1..], d);
    }
  }

  lemma {:induction false} PossibleInOne(key: Bson -> int, convert: Converter, filters: seq<Filter>, i: nat, k: int)
    requires i < |filters| && Allows(Possible(key, convert, filters[i]), k)
    ensures Allows(PossibleInAny(key, convert, filters), k)
  {
    if i > 0 { PossibleInOne(key, convert, filters[1..], i - 1, k); }
  }

  predicate WithoutNot(f: Filter) {
    match f
    case And(filters) => forall i :: 0 <= i < |filters| ==> WithoutNot(filters[i])
    case Or(filters) => forall i :: 0 <= i < |filters| ==> WithoutNot(filters[i])
    case Not(_) => false
    case _ => true
  }

  /** The server with these keys on which every other condition holds. */
  function Willing(key: Bson -> int): Server { Server(key, (_, _, _, _) => true) }

  /** Without NOT, what is possible does match on the willing server. */
  lemma {:induction false} PossibleMatches(key: Bson -> int, convert: Converter, f: Filter, d: StoredDocument)
    requires WithoutNot(f) && CompileFilter(convert, f).Some? && Allows(Possible(key, convert, f), key(d.id))
    ensures Matches(Willing(key), d, CompileFilter(convert, f).value)
    decreases f, 1
  {
    var selector := CompileFilter(convert, f).value;
    match f
    case Compare(op, field, _) =>
      if op == EqOp && field == "_id" { assert MatchesId(Willing(key), d, CompareWith(EqOp), selector.operands[0]); }
    case Contains(_, _) =>
    case In(field, values) => if field == "_id" { PossibleListMatches(key, convert, values, d); }
    case And(filters) =>
      forall i | 0 <= i < |filters| ensures Matches(Willing(key), d, selector.selectors[i]) {
        PossibleInEach(key, convert, filters, i, key(d.id));
        PossibleMatches(key, convert, filters[i], d);
      }
    case Or(filters) =>
      var i := SomePossible(key, convert, filters, key(d.id));
      PossibleMatches(key, convert, filters[i], d);
      assert CompileFilter(convert, filters[i]) == Some(selector.selectors[i]);
  }

  lemma PossibleListMatches(key: Bson -> int, convert: Converter, values: seq<DbValue>, d: StoredDocument)
    requires ConvertAll(convert, values).Some?
    requires NoPatterns(convert, values) ==> key(d.id) in KeysOf(key, convert, values)
    ensures Matches(Willing(key), d, Condition("_id", InList, ConvertAll(convert, values).value))
  {
    var operands := ConvertAll(convert, values).value;
    if NoPatterns(convert, values) {
      KeysOfList(key, convert, values, key(d.id));
      var i :| 0 <= i < |values| && convert(values[i]).Some? && key(convert(values[i]).value) == key(d.id);
      assert !IsPattern(convert, values[i]);
      assert MatchesId(Willing(key), d, InList, operands[i]);
    } else {
      var i :| 0 <= i < |values| && IsPattern(convert, values[i]);
      assert MatchesId(Willing(key), d, InList, operands[i]);
    }
  }

  lemma {:induction false} PossibleInEach(key: Bson -> int, convert: Converter, filters: seq<Filter>, i: nat, k: int)
    requires i < |filters| && Allows(PossibleInAll(key, convert, filters), k)
    ensures Allows(Possible(key, convert, filters[i]), k)
  {
    if i > 0 { PossibleInEach(key, convert, filters[1..], i - 1, k); }
  }

  lemma {:induction false} SomePossible(key: Bson -> int, convert: Converter, filters: seq<Filter>, k: int)
    returns (i: nat)
    requires filters != [] && Allows(PossibleInAny(key, convert, filters), k)
    ensures i < |filters| && Allows(Possible(key, convert, filters[i]), k)
  {
    if Allows(Possible(key, convert, filters[0]), k) {
      i := 0;
    } else {
      assert PossibleInAny(key, convert, filters[1..]).None? ==> filters[1..] != [];
      i := SomePossible(key, convert, filters[1..], k);
      i := i + 1;
    }
  }

  /** Documents with the given ids, one for each key. */
  ghost predicate HasKeys(key: Bson -> int, documents: seq<StoredDocument>, keys: set<int>) {
    && |documents| == |keys|
    && (forall i :: 0 <= i < |documents| ==> key(documents[i].id) in keys)
    && (forall i, j :: 0 <= i < j < |documents| ==> key(documents[i].id) != key(documents[j].id))
  }

  /** There are ids with arbitrarily many different keys. */
  ghost predicate ManyIds(key: Bson -> int) {
    forall count: nat :: HasMany(key, count)
  }

  ghost predicate HasMany(key: Bson -> int, count: nat) {
    exists documents: seq<StoredDocument> :: |documents| == count && UniqueIds(Willing(key), documents)
  }

  /** Every possible key is the key of some id. */
  lemma {:induction false} PossibleIsReal(key: Bson -> int, convert: Converter, f: Filter, k: int) returns (id: Bson)
    requires Possible(key, convert, f).Some? && k in Possible(key, convert, f).value
    ensures key(id) == k
    decreases f, 1
  {
    match f
    case Compare(_, _, value) => id := convert(value).value;
    case In(_, values) =>
      KeysOfList(key, convert, values, k);
      var i :| 0 <= i < |values| && convert(values[i]).Some? && key(convert(values[i]).value) == k;
      id := convert(values[i]).value;
    case And(filters) => id := PossibleIsRealInAll(key, convert, filters, k);
    case Or(filters) => id := PossibleIsRealInAny(key, convert, filters, k);
  }

  lemma {:induction false} PossibleIsRealInAll(key: Bson -> int, convert: Converter, filters: seq<Filter>, k: int)
    returns (id: Bson)
    requires PossibleInAll(key, convert, filters).Some? && k in PossibleInAll(key, convert, filters).value
    ensures key(id) == k
    decreases filters, 0
  {
    if Possible(key, convert, filters[0]).Some? {
      id := PossibleIsReal(key, convert, filters[0], k);
    } else {
      id := PossibleIsRealInAll(key, convert, filters[1..], k);
    }
  }

  lemma {:induction false} PossibleIsRealInAny(key: Bson -> int, convert: Converter, filters: seq<Filter>, k: int)
    returns (id: Bson)
    requires PossibleInAny(key, convert, filters).Some? && k in PossibleInAny(key, convert, filters).value
    ensures key(id) == k
    decreases filters, 0
  {
    if k in Possible(key, convert, filters[0]).value {
      id := PossibleIsReal(key, convert, filters[0], k);
    } else {
      id := PossibleIsRealInAny(key, convert, filters[1..], k);
    }
  }

  lemma AnyOf<T>(items: set<T>) returns (item: T)
    requires items != {}
    ensures item in items
  {
    item :| item in items;
  }

  /** So many documents, each with its own possible id. */
  lemma {:induction false} DocumentsFor(key: Bson -> int, convert: Converter, f: Filter, keys: set<int>)
    returns (documents: seq<StoredDocument>)
    requires Possible(key, convert, f).Some? && keys <= Possible(key, convert, f).value
    ensures HasKeys(key, documents, keys)
    decreases |keys|
  {
    documents := [];
    if keys != {} {
      var k := AnyOf(keys);
      var others := DocumentsFor(key, convert, f, keys - {k});
      var id := PossibleIsReal(key, convert, f, k);
      documents := [StoredDocument(id, map[])] + others;
    }
  }

  lemma {:induction false} SmallerSubset(keys: set<int>, size: nat) returns (chosen: set<int>)
    requires size <= |keys|
    ensures chosen <= keys && |chosen| == size
    decreases |keys|
  {
    if size == |keys| {
      chosen := keys;
    } else {
      var k := AnyOf(keys);
      chosen := SmallerSubset(keys - {k}, size);
    }
  }

  /** The bound is kept by every server with these keys and every collection with unique ids. */
  ghost predicate BoundKeptWith(key: Bson -> int, selector: Selector, bound: nat) {
    forall server: Server, documents: seq<StoredDocument> ::
      server.key == key && UniqueIds(server, documents) && |documents| <= U64_MAX ==>
        MatchCount(server, documents, selector) <= bound
  }

  lemma PossibleBounds(server: Server, convert: Converter, f: Filter, documents: seq<StoredDocument>)
    requires CompileFilter(convert, f).Some? && Possible(server.key, convert, f).Some? && UniqueIds(server, documents)
    ensures MatchCount(server, documents, CompileFilter(convert, f).value) <= |Possible(server.key, convert, f).value|
  {
    var selector := CompileFilter(convert, f).value;
    forall i | 0 <= i < |documents| && Matches(server, documents[i], selector)
      ensures server.key(documents[i].id) in Possible(server.key, convert, f).value
    {
      MatchIsPossible(server, convert, f, documents[i]);
    }
    CountWithinKeys(server, documents, selector, Possible(server.key, convert, f).value);
  }

  lemma AllPossibleMatch(key: Bson -> int, convert: Converter, f: Filter, documents: seq<StoredDocument>)
    requires WithoutNot(f) && CompileFilter(convert, f).Some?
    requires forall i :: 0 <= i < |documents| ==> Allows(Possible(key, convert, f), key(documents[i].id))
    ensures MatchCount(Willing(key), documents, CompileFilter(convert, f).value) == |documents|
  {
    forall i | 0 <= i < |documents| ensures Matches(Willing(key), documents[i], CompileFilter(convert, f).value) {
      PossibleMatches(key, convert, f, documents[i]);
    }
    AllMatchCount(Willing(key), documents, CompileFilter(convert, f).value);
  }

  /**
   For every filter without NOT and every bound: it is kept if and only if the filter leaves a limited set of ids
   possible, no more than the bound.
   */
  lemma BoundKeptIff(key: Bson -> int, convert: Converter, f: Filter, bound: nat)
    requires WithoutNot(f) && CompileFilter(convert, f).Some? && ManyIds(key) && bound < U64_MAX
    ensures BoundKeptWith(key, CompileFilter(convert, f).value, bound) <==>
      Possible(key, convert, f).Some? && |Possible(key, convert, f).value| <= bound
  {
    var selector, ids := CompileFilter(convert, f).value, Possible(key, convert, f);
    if ids.Some? && |ids.value| <= bound {
      forall server: Server, documents: seq<StoredDocument> |
        server.key == key && UniqueIds(server, documents) && |documents| <= U64_MAX
        ensures MatchCount(server, documents, selector) <= bound
      {
        PossibleBounds(server, convert, f, documents);
      }
    } else {
      var documents := TooMany(key, convert, f, bound);
      AllPossibleMatch(key, convert, f, documents);
      assert Willing(key).key == key;
    }
  }

  lemma TooMany(key: Bson -> int, convert: Converter, f: Filter, bound: nat) returns (documents: seq<StoredDocument>)
    requires ManyIds(key) && (Possible(key, convert, f).Some? ==> |Possible(key, convert, f).value| > bound)
    ensures |documents| == bound + 1 && UniqueIds(Willing(key), documents)
    ensures forall i :: 0 <= i < |documents| ==> Allows(Possible(key, convert, f), key(documents[i].id))
  {
    if Possible(key, convert, f).None? {
      assert HasMany(key, bound + 1);
      documents :| |documents| == bound + 1 && UniqueIds(Willing(key), documents);
    } else {
      var keys := SmallerSubset(Possible(key, convert, f).value, bound + 1);
      documents := DocumentsFor(key, convert, f, keys);
    }
  }
}

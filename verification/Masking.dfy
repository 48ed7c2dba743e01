/**
 Field masking and size limits of results: in which order and how often masked fields are listed
 does not matter, exactly the resolved positions are masked, and the rows kept are the longest
 prefix that fits.
 */
module Masking {
  import opened Options

  datatype Value =
    | Scalar(kind: string, text: string)   // null, numbers, dates, strings, binary, vectors
    | Array(items: seq<Value>)
    | Document(fields: Record)

  datatype Field = Field(name: string, value: Value)

  type Record = seq<Field>

  const MASKED := Scalar("string", "[MASKED]")

  predicate HasKey(record: Record, name: string) { exists i :: 0 <= i < |record| && record[i].name == name }

  /** Everything before and after the first dot, if there is one. */
  function SplitOnce(path: string): Option<(string, string)> {
    if path == [] then None
    else if path[0] == '.' then Some(([], path[1..]))
    else match SplitOnce(path[1..])
      case None => None
      case Some((head, tail)) => Some(([path[0]] + head, tail))
  }

  /** The path is `name`, a dot and `rest`, and the dot is its first one. */
  predicate FirstDot(path: string, name: string, rest: string) { path == name + ['.'] + rest && '.' !in name }

  /** A path splits at its first dot, if it has one, and the dot goes. */
  lemma {:induction false} SplitIsAtFirstDot(path: string, name: string, rest: string)
    ensures SplitOnce(path).None? <==> '.' !in path
    ensures SplitOnce(path) == Some((name, rest)) <==> FirstDot(path, name, rest)
  {
    if path == [] {
    } else if path[0] == '.' {
      assert path == [] + ['.'] + path[1..];
      assert (name + ['.'] + rest)[0] == if name == [] then '.' else name[0];
    } else {
      var first, shorter := path[0], if name == [] then [] else name[1..];
      assert path == [first] + path[1..];
      SplitIsAtFirstDot(path[1..], shorter, rest);
      assert ([first] + shorter) + ['.'] + rest == [first] + (shorter + ['.'] + rest);
      if FirstDot(path, name, rest) {
        assert name != [] && name[0] == first;
        assert name == [first] + shorter;
        assert path[1..] == shorter + ['.'] + rest;
      }
      if SplitOnce(path) == Some((name, rest)) {
        assert name == [first] + shorter;
        assert SplitOnce(path[1..]) == Some((shorter, rest));
      }
    }
  }

  // ---------------------------------------------------------------- masking one path

  function SetField(record: Record, name: string): (r: Record)
    ensures |r| == |record|
    ensures forall i :: 0 <= i < |r| ==> r[i] == if record[i].name == name then Field(name, MASKED) else record[i]
  {
    seq(|record|, i requires 0 <= i < |record| => if record[i].name == name then Field(name, MASKED) else record[i])
  }

  function MaskField(record: Record, path: string): Record
    decreases record, 1
  {
    if HasKey(record, path) then SetField(record, path) else
      match SplitOnce(path)
      case None => record
      case Some((name, rest)) => MaskInside(record, name, rest)
  }

  function MaskInside(record: Record, name: string, rest: string): (r: Record)
    ensures |r| == |record|
    decreases record, 0
  {
    if record == [] then [] else
      [MaskFieldValue(record[0], name, rest)] + MaskInside(record[1..], name, rest)
  }

  function MaskFieldValue(field: Field, name: string, rest: string): Field
    decreases field, 0
  {
    if field.name == name then Field(name, MaskNested(field.value, rest)) else field
  }

  function MaskNested(value: Value, path: string): Value
    decreases value, 0
  {
    match value
    case Scalar(_, _) => value
    case Array(items) => Array(MaskItems(items, path))
    case Document(fields) => Document(MaskField(fields, path))
  }

  function MaskItems(items: seq<Value>, path: string): (r: seq<Value>)
    ensures |r| == |items|
    decreases items, 0
  {
    if items == [] then [] else [MaskNested(items[0], path)] + MaskItems(items[1..], path)
  }

  // ---------------------------------------------------------------- masking a set of paths at once

  /** The paths that go on inside the fields of one name. */
  function Below(record: Record, paths: set<string>, name: string): set<string> {
    set p | p in paths && !HasKey(record, p) && SplitOnce(p).Some? && SplitOnce(p).value.0 == name ::
      SplitOnce(p).value.1
  }

  function MaskAll(record: Record, paths: set<string>): Record
    decreases record, 1
  {
    MaskEach(record, record, paths)
  }

  /** Fields of `whole`, from some point on; path resolution looks at the whole record. */
  function MaskEach(whole: Record, record: Record, paths: set<string>): (r: Record)
    ensures |r| == |record|
    decreases record, 0
  {
    if record == [] then [] else [MaskOne(whole, record[0], paths)] + MaskEach(whole, record[1..], paths)
  }

  function MaskOne(whole: Record, field: Field, paths: set<string>): Field
    decreases field, 0
  {
    Field(field.name, if field.name in paths then MASKED else MaskValue(field.value, Below(whole, paths, field.name)))
  }

  function MaskValue(value: Value, paths: set<string>): Value
    decreases value, 0
  {
    match value
    case Scalar(_, _) => value
    case Array(items) => Array(MaskValues(items, paths))
    case Document(fields) => Document(MaskAll(fields, paths))
  }

  function MaskValues(items: seq<Value>, paths: set<string>): (r: seq<Value>)
    ensures |r| == |items|
    decreases items, 0
  {
    if items == [] then [] else [MaskValue(items[0], paths)] + MaskValues(items[1..], paths)
  }

  // ---------------------------------------------------------------- lists of paths behave like sets

  lemma {:induction false} EachKeepsNames(whole: Record, record: Record, paths: set<string>)
    ensures forall i :: 0 <= i < |record| ==> MaskEach(whole, record, paths)[i] == MaskOne(whole, record[i], paths)
  {
    if record != [] { EachKeepsNames(whole, record[1..], paths); }
  }

  lemma {:induction false} InsideAt(record: Record, name: string, rest: string)
    ensures forall i :: 0 <= i < |record| ==> MaskInside(record, name, rest)[i] == MaskFieldValue(record[i], name, rest)
  {
    if record != [] { InsideAt(record[1..], name, rest); }
  }

  lemma SameNames(record: Record, paths: set<string>, name: string)
    ensures HasKey(MaskAll(record, paths), name) <==> HasKey(record, name)
  {
    EachKeepsNames(record, record, paths);
    var masked := MaskAll(record, paths);
    if HasKey(record, name) {
      var i :| 0 <= i < |record| && record[i].name == name;
      assert masked[i].name == name;
    }
  }

  lemma {:induction false} NothingToMask(value: Value)
    ensures MaskValue(value, {}) == value
    decreases value, 0
  {
    match value
    case Scalar(_, _) =>
    case Array(items) => NothingInItems(items);
    case Document(fields) => NothingInFields(fields, fields);
  }

  lemma {:induction false} NothingInItems(items: seq<Value>)
    ensures MaskValues(items, {}) == items
    decreases items, 0
  {
    if items != [] {
      NothingToMask(items[0]);
      NothingInItems(items[1..]);
    }
  }

  lemma {:induction false} NothingInFields(whole: Record, fields: Record)
    ensures MaskEach(whole, fields, {}) == fields
    decreases fields, 0
  {
    if fields != [] {
      NothingInField(whole, fields[0]);
      NothingInFields(whole, fields[1..]);
    }
  }

  lemma {:induction false} NothingInField(whole: Record, field: Field)
    ensures MaskOne(whole, field, {}) == field
    decreases field, 0
  {
    assert Below(whole, {}, field.name) == {};
    NothingToMask(field.value);
  }

  /** One more path joins the set already masked. */
  lemma {:induction false} OneMorePath(record: Record, paths: set<string>, path: string)
    ensures MaskField(MaskAll(record, paths), path) == MaskAll(record, paths + {path})
    decreases record, 1
  {
    var masked := MaskAll(record, paths);
    SameNames(record, paths, path);
    EachKeepsNames(record, record, paths);
    EachKeepsNames(record, record, paths + {path});
    var more := MaskAll(record, paths + {path});
    var split := SplitOnce(path);
    if HasKey(record, path) || split.None? {
      forall i | 0 <= i < |record| ensures MaskField(masked, path)[i] == more[i] {
        assert Below(record, paths + {path}, record[i].name) == Below(record, paths, record[i].name);
      }
      assert MaskField(masked, path) == more;
    } else {
      var (name, rest) := split.value;
      InsideAt(masked, name, rest);
      forall i | 0 <= i < |record| ensures MaskFieldValue(masked[i], name, rest) == more[i] {
        if record[i].name == name {
          assert Below(record, paths + {path}, name) == Below(record, paths, name) + {rest};
        } else {
          assert Below(record, paths + {path}, record[i].name) == Below(record, paths, record[i].name);
        }
        assert record[i].name != path;
        OneMoreInField(record, i, Below(record, paths, record[i].name), rest);
      }
      assert MaskField(masked, path) == more;
    }
  }

  lemma {:induction false} OneMoreInField(record: Record, i: nat, paths: set<string>, path: string)
    requires i < |record|
    ensures MaskNested(MaskValue(record[i].value, paths), path) == MaskValue(record[i].value, paths + {path})
    decreases record, 0
  {
    OneMoreOfField(record[i], paths, path);
  }

  lemma {:induction false} OneMoreOfField(field: Field, paths: set<string>, path: string)
    ensures MaskNested(MaskValue(field.value, paths), path) == MaskValue(field.value, paths + {path})
    decreases field, 0
  {
    OneMoreInValue(field.value, paths, path);
  }

  lemma {:induction false} OneMoreInValue(value: Value, paths: set<string>, path: string)
    ensures MaskNested(MaskValue(value, paths), path) == MaskValue(value, paths + {path})
    decreases value, 0
  {
    match value
    case Scalar(_, _) =>
    case Array(items) => OneMoreInItems(items, paths, path);
    case Document(fields) => OneMorePath(fields, paths, path);
  }

  lemma {:induction false} OneMoreInItems(items: seq<Value>, paths: set<string>, path: string)
    ensures MaskItems(MaskValues(items, paths), path) == MaskValues(items, paths + {path})
    decreases items, 0
  {
    if items != [] {
      OneMoreInValue(items[0], paths, path);
      OneMoreInItems(items[1..], paths, path);
    }
  }

  function MaskFields(record: Record, paths: seq<string>): Record {
    if paths == [] then record else MaskField(MaskFields(record, paths[..|paths| - 1]), paths[|paths| - 1])
  }

  function Listed(paths: seq<string>): set<string> { set p | p in paths }

  /** Masking path after path is masking the set of listed paths. */
  lemma {:induction false} MaskingIsBySet(record: Record, paths: seq<string>)
    ensures MaskFields(record, paths) == MaskAll(record, Listed(paths))
  {
    if paths == [] {
      assert Listed(paths) == {};
      NothingInFields(record, record);
    } else {
      var n := |paths| - 1;
      MaskingIsBySet(record, paths[..n]);
      OneMorePath(record, Listed(paths[..n]), paths[n]);
      assert Listed(paths) == Listed(paths[..n]) + {paths[n]};
    }
  }

  /** Neither the order nor the repetition of masked fields matters. */
  lemma OrderAndRepetitionDoNotMatter(record: Record, a: seq<string>, b: seq<string>)
    requires forall p :: p in a <==> p in b
    ensures MaskFields(record, a) == MaskFields(record, b)
  {
    MaskingIsBySet(record, a);
    MaskingIsBySet(record, b);
    assert Listed(a) == Listed(b);
  }

  // ---------------------------------------------------------------- which positions are masked

  /** A position: child numbers from the root, a field's index in a record or an item's in an array. */
  type Position = seq<nat>

  function At(value: Value, pos: Position): Option<Value>
    decreases pos
  {
    if pos == [] then Some(value) else
    match value
    case Scalar(_, _) => None
    case Array(items) => if pos[0] < |items| then At(items[pos[0]], pos[1..]) else None
    case Document(fields) => if pos[0] < |fields| then At(fields[pos[0]].value, pos[1..]) else None
  }

  /** The path resolves to this position: a key spelled like the path wins over descending at its first dot. */
  ghost predicate Resolves(value: Value, path: string, pos: Position)
    decreases pos
  {
    pos != [] &&
    match value
    case Scalar(_, _) => false
    case Array(items) => pos[0] < |items| && Resolves(items[pos[0]], path, pos[1..])
    case Document(fields) =>
      pos[0] < |fields| &&
      if HasKey(fields, path) then fields[pos[0]].name == path && |pos| == 1
      else exists rest ::
        FirstDot(path, fields[pos[0]].name, rest) && Resolves(fields[pos[0]].value, rest, pos[1..])
  }

  ghost predicate Hit(value: Value, paths: set<string>, pos: Position) {
    exists p :: p in paths && Resolves(value, p, pos)
  }

  ghost predicate Covered(value: Value, paths: set<string>, pos: Position) {
    exists k :: 0 <= k <= |pos| && Hit(value, paths, pos[..k])
  }

  /** A masked path resolves to this very position, and the masked value shows a placeholder there. */
  ghost predicate MaskedAt(value: Value, paths: set<string>, pos: Position) {
    Hit(value, paths, pos) && At(MaskValue(value, paths), pos) == Some(Scalar("string", "[MASKED]"))
  }

  ghost predicate MaskedAbove(value: Value, paths: set<string>, pos: Position) {
    exists k :: 0 <= k <= |pos| && MaskedAt(value, paths, pos[..k])
  }

  /** Nothing of the value itself was masked; what is inside it is told by the positions inside. */
  predicate Kept(before: Value, after: Option<Value>) {
    after.Some? &&
    match before
    case Scalar(_, _) => after.value == before
    case Array(items) => after.value.Array? && |after.value.items| == |items|
    case Document(fields) =>
      && after.value.Document? && |after.value.fields| == |fields|
      && forall i :: 0 <= i < |fields| ==> after.value.fields[i].name == fields[i].name
  }

  lemma RootIsKept(value: Value, paths: set<string>)
    ensures Kept(value, Some(MaskValue(value, paths)))
  {
    if value.Document? { EachKeepsNames(value.fields, value.fields, paths); }
  }

  lemma ValuesAt(items: seq<Value>, paths: set<string>)
    ensures forall i :: 0 <= i < |items| ==> MaskValues(items, paths)[i] == MaskValue(items[i], paths)
  {
    if items != [] { ValuesAt(items[1..], paths); }
  }

  /** One level down: what hits a child's position is what the child is masked with. */
  lemma HitBelowField(fields: Record, paths: set<string>, pos: Position)
    requires pos != [] && pos[0] < |fields|
    ensures Hit(Document(fields), paths, pos) <==>
      if |pos| == 1 then fields[pos[0]].name in paths
      else Hit(fields[pos[0]].value, Below(fields, paths, fields[pos[0]].name), pos[1..])
  {
    var i, name, child, below := pos[0], fields[pos[0]].name, fields[pos[0]].value, pos[1..];
    assert fields[i].name == name;
    if |pos| == 1 {
      assert below == [];
      assert forall q :: !Resolves(child, q, below);
      if name in paths { assert Resolves(Document(fields), name, pos); }
      if Hit(Document(fields), paths, pos) {
        var p :| p in paths && Resolves(Document(fields), p, pos);
        assert HasKey(fields, p) || exists rest :: FirstDot(p, name, rest) && Resolves(child, rest, below);
      }
    } else {
      if Hit(Document(fields), paths, pos) {
        var p :| p in paths && Resolves(Document(fields), p, pos);
        var rest :| FirstDot(p, name, rest) && Resolves(child, rest, below);
        SplitIsAtFirstDot(p, name, rest);
        assert rest in Below(fields, paths, name);
      }
      if Hit(fields[i].value, Below(fields, paths, name), pos[1..]) {
        var q :| q in Below(fields, paths, name) && Resolves(child, q, below);
        var p :| p in paths && !HasKey(fields, p) && SplitOnce(p).Some? && SplitOnce(p).value == (name, q);
        SplitIsAtFirstDot(p, name, q);
        assert FirstDot(p, name, q);
        assert Resolves(Document(fields), p, pos);
      }
    }
  }

  /**
   A position that a masked path resolves to ends up masked, itself or at an ancestor that is also
   resolved to; a position that no masked path resolves to, directly or at an ancestor, is kept: a
   scalar as it is, an array or document with the same number of items or the same fields.
   */
  lemma {:induction false} ExactlyResolvedPositionsAreMasked(value: Value, paths: set<string>, pos: Position)
    requires At(value, pos).Some?
    ensures Covered(value, paths, pos) ==> MaskedAbove(value, paths, pos)
    ensures !Covered(value, paths, pos) ==> Kept(At(value, pos).value, At(MaskValue(value, paths), pos))
    decreases pos
  {
    if pos == [] {
      assert pos[..0] == [];
      RootIsKept(value, paths);
    } else {
      match value
      case Array(items) => ChildOfArray(items, paths, pos);
      case Document(fields) => ChildOfDocument(fields, paths, pos);
    }
  }

  lemma {:induction false} ChildOfArray(items: seq<Value>, paths: set<string>, pos: Position)
    requires pos != [] && At(Array(items), pos).Some?
    ensures Covered(Array(items), paths, pos) ==> MaskedAbove(Array(items), paths, pos)
    ensures !Covered(Array(items), paths, pos) ==>
      Kept(At(Array(items), pos).value, At(MaskValue(Array(items), paths), pos))
    decreases pos, 0
  {
    var value, child, rest := Array(items), items[pos[0]], pos[1..];
    ValuesAt(items, paths);
    ExactlyResolvedPositionsAreMasked(child, paths, rest);
    forall k | 1 <= k <= |pos| ensures Hit(value, paths, pos[..k]) <==> Hit(child, paths, rest[..k - 1]) {
      assert pos[..k][1..] == rest[..k - 1];
      if Hit(value, paths, pos[..k]) {
        var p :| p in paths && Resolves(value, p, pos[..k]);
        assert Resolves(child, p, rest[..k - 1]);
      }
      if Hit(child, paths, rest[..k - 1]) {
        var p :| p in paths && Resolves(child, p, rest[..k - 1]);
        assert Resolves(value, p, pos[..k]);
      }
    }
    if Covered(value, paths, pos) {
      var k :| 0 <= k <= |pos| && Hit(value, paths, pos[..k]);
      assert k >= 1 && Hit(child, paths, rest[..k - 1]);
      var j :| 0 <= j <= |rest| && MaskedAt(child, paths, rest[..j]);
      assert pos[..j + 1][1..] == rest[..j];
      assert MaskedAt(value, paths, pos[..j + 1]);
    } else {
      forall k | 0 <= k <= |rest| ensures !Hit(child, paths, rest[..k]) { assert !Hit(value, paths, pos[..k + 1]); }
    }
  }

  lemma {:induction false} ChildOfDocument(fields: Record, paths: set<string>, pos: Position)
    requires pos != [] && At(Document(fields), pos).Some?
    ensures Covered(Document(fields), paths, pos) ==> MaskedAbove(Document(fields), paths, pos)
    ensures !Covered(Document(fields), paths, pos) ==>
      Kept(At(Document(fields), pos).value, At(MaskValue(Document(fields), paths), pos))
    decreases pos, 0
  {
    var value, name, child, rest := Document(fields), fields[pos[0]].name, fields[pos[0]].value, pos[1..];
    EachKeepsNames(fields, fields, paths);
    assert pos[..1] == [pos[0]];
    HitBelowField(fields, paths, pos[..1]);
    if name in paths {
      assert MaskedAt(value, paths, pos[..1]);
    } else {
      ExactlyResolvedPositionsAreMasked(child, Below(fields, paths, name), rest);
      CoveredBelowField(fields, paths, pos);
      if MaskedAbove(child, Below(fields, paths, name), rest) {
        var j :| 0 <= j <= |rest| && MaskedAt(child, Below(fields, paths, name), rest[..j]);
        assert j >= 1 && pos[..j + 1][1..] == rest[..j];
        HitBelowField(fields, paths, pos[..j + 1]);
        assert MaskedAt(value, paths, pos[..j + 1]);
      }
    }
  }

  lemma CoveredBelowField(fields: Record, paths: set<string>, pos: Position)
    requires pos != [] && pos[0] < |fields| && fields[pos[0]].name !in paths
    ensures Covered(Document(fields), paths, pos) <==>
      Covered(fields[pos[0]].value, Below(fields, paths, fields[pos[0]].name), pos[1..])
  {
    var value, child, rest := Document(fields), fields[pos[0]].value, pos[1..];
    var below := Below(fields, paths, fields[pos[0]].name);
    assert !Hit(value, paths, pos[..0]) && !Hit(child, below, rest[..0]);
    HitBelowField(fields, paths, pos[..1]);
    forall k | 2 <= k <= |pos| ensures Hit(value, paths, pos[..k]) <==> Hit(child, below, rest[..k - 1]) {
      HitBelowField(fields, paths, pos[..k]);
      assert pos[..k][1..] == rest[..k - 1];
    }
    if Covered(child, below, rest) {
      var k :| 0 <= k <= |rest| && Hit(child, below, rest[..k]);
      assert Hit(value, paths, pos[..k + 1]);
    }
  }

  // ---------------------------------------------------------------- row and byte limits

  datatype Result = Result(
    records: seq<Record>, nextCursor: Option<string>, truncated: bool, warnings: seq<string>,
    returned: nat, bytes: Option<nat>)

  /** The serialized size of a result and of its rows: any functions will do. */
  datatype Sizes = Sizes(result: Result -> nat, records: seq<Record> -> nat)

  function MaskRows(records: seq<Record>, fields: seq<string>): seq<Record> {
    seq(|records|, i requires 0 <= i < |records| => MaskFields(records[i], fields))
  }

  const ROW_LIMIT_WARNING := "result was truncated by the connection row limit"

  /** The result after the row limit and the masking, before any byte trimming. */
  function Prepared(original: Result, maxRows: nat, masked: Option<seq<string>>): Result {
    var kept := if |original.records| > maxRows then original.records[..maxRows] else original.records;
    var cut := |kept| < |original.records|;
    original.(
      records := if masked.Some? then MaskRows(kept, masked.value) else kept,
      truncated := original.truncated || cut,
      warnings := if cut then original.warnings + ["result was truncated by the connection row limit"]
        else original.warnings)
  }

  /** The result that keeps the first k rows, with its metrics recomputed. */
  function Candidate(p: Result, sizes: Sizes, k: nat): Result
    requires k <= |p.records|
  {
    p.(records := p.records[..k],
       truncated := p.truncated || k < |p.records|,
       returned := k,
       bytes := if p.bytes.Some? then Some(sizes.records(p.records[..k])) else None)
  }

  predicate Fits(p: Result, sizes: Sizes, maxBytes: nat, k: nat)
    requires k <= |p.records|
  {
    sizes.result(Candidate(p, sizes, k)) <= maxBytes
  }

  /** k rows may be kept: all of them when a cursor depends on them, and at least one if there are any. */
  predicate Acceptable(p: Result, k: nat) {
    k <= |p.records| && (p.nextCursor.Some? ==> k == |p.records|) && (p.records != [] ==> k > 0)
  }

  /** The longest prefix that fits. */
  ghost predicate Longest(p: Result, sizes: Sizes, maxBytes: nat, k: nat) {
    Acceptable(p, k) && Fits(p, sizes, maxBytes, k) && forall j :: k < j <= |p.records| ==> !Fits(p, sizes, maxBytes, j)
  }

  /** What a connection allows of a result: its policy, the fields it masks, and how sizes are measured. */
  datatype Limits = Limits(maxRows: nat, maxBytes: nat, masked: Option<seq<string>>, sizes: Sizes)

  /** Some part of the result that may be shown fits. */
  predicate Presentable(original: Result, limits: Limits) {
    var p := Prepared(original, limits.maxRows, limits.masked);
    exists k :: 0 <= k <= |p.records| && Acceptable(p, k) && Fits(p, limits.sizes, limits.maxBytes, k)
  }

  /** Fewer rows never take more space. */
  ghost predicate GrowsWithRows(p: Result, sizes: Sizes) {
    forall j, k :: 0 <= j <= k <= |p.records| ==>
      sizes.result(Candidate(p, sizes, j)) <= sizes.result(Candidate(p, sizes, k))
  }

  /**
   Without a cursor a result is refused exactly when not even its first row fits, or, having none, its bare metadata.
   */
  lemma PresentableIff(original: Result, limits: Limits)
    requires var p := Prepared(original, limits.maxRows, limits.masked);
      p.nextCursor.None? && GrowsWithRows(p, limits.sizes)
    ensures var p := Prepared(original, limits.maxRows, limits.masked);
      Presentable(original, limits) <==> Fits(p, limits.sizes, limits.maxBytes, if p.records == [] then 0 else 1)
  {
    var p := Prepared(original, limits.maxRows, limits.masked);
    var least: nat := if p.records == [] then 0 else 1;
    assert Acceptable(p, least);
    if k :| 0 <= k <= |p.records| && Acceptable(p, k) && Fits(p, limits.sizes, limits.maxBytes, k) {
      assert least <= k;
    }
  }

  class OperationResult {
    var content: Result

    constructor (content: Result)
      ensures this.content == content
    {
      this.content := content;
    }

    /**
     Succeeds exactly when some acceptable prefix fits, and then keeps the longest one, masked. A
     failed call leaves at most an untrimmed row behind, which the caller discards with the error.
     */
    method EnforceLimitsAndMasking(maxRows: nat, maxBytes: nat, masked: Option<seq<string>>, sizes: Sizes)
      returns (ok: bool)
      modifies this
      ensures var p := Prepared(old(content), maxRows, masked);
        && (ok <==> Presentable(old(content), Limits(maxRows, maxBytes, masked, sizes)))
        && (ok ==> exists k: nat :: Longest(p, sizes, maxBytes, k) && content == Candidate(p, sizes, k))
    {
      var originalCount := |content.records|;
      if originalCount > maxRows { content := content.(records := content.records[..maxRows]); }
      if |content.records| < originalCount {
        content := content.(truncated := true, warnings := content.warnings + [ROW_LIMIT_WARNING]);
      }
      if masked.Some? {
        MaskInPlace(masked.value);
      }
      ok := TrimToSize(maxBytes, sizes);
    }

    /** Drops rows from the end until the result fits, or finds that it cannot. */
    method TrimToSize(maxBytes: nat, sizes: Sizes) returns (ok: bool)
      modifies this
      ensures var p := old(content);
        && (ok <==> exists k :: 0 <= k <= |p.records| && Acceptable(p, k) && Fits(p, sizes, maxBytes, k))
        && (ok ==> exists k: nat :: Longest(p, sizes, maxBytes, k) && content == Candidate(p, sizes, k))
    {
      ghost var p := content;
      ghost var k: nat := |p.records|;
      while true
        invariant Acceptable(p, k)
        invariant content.records == p.records[..k] && content.truncated == (p.truncated || k < |p.records|)
        invariant content.(records := p.records, truncated := p.truncated, returned := p.returned, bytes := p.bytes)
          == p
        invariant content.bytes.Some? == p.bytes.Some?
        invariant forall j :: k < j <= |p.records| ==> !Fits(p, sizes, maxBytes, j)
        decreases |content.records|
      {
        content := content.(returned := |content.records|);
        if content.bytes.Some? { content := content.(bytes := Some(sizes.records(content.records))); }
        assert content == Candidate(p, sizes, k);
        if sizes.result(content) <= maxBytes {
          assert Longest(p, sizes, maxBytes, k);
          return true;
        }
        if content.nextCursor.Some? || |content.records| <= 1 { return false; }
        content := content.(records := content.records[..|content.records| - 1], truncated := true);
        k := k - 1;
      }
    }

    method MaskInPlace(fields: seq<string>)
      modifies this
      ensures content == old(content).(records := MaskRows(old(content).records, fields))
    {
      var i := 0;
      while i < |content.records|
        invariant 0 <= i <= |content.records| == |old(content).records|
        invariant content == old(content).(records := content.records)
        invariant forall r :: 0 <= r < i ==> content.records[r] == MaskFields(old(content).records[r], fields)
        invariant forall r :: i <= r < |content.records| ==> content.records[r] == old(content).records[r]
      {
        var record := content.records[i];
        var f := 0;
        while f < |fields|
          invariant 0 <= f <= |fields|
          invariant record == MaskFields(content.records[i], fields[..f])
        {
          assert fields[..f + 1][..f] == fields[..f];
          record := MaskField(record, fields[f]);
          f := f + 1;
        }
        assert fields[..f] == fields;
        content := content.(records := content.records[i := record]);
        i := i + 1;
      }
    }
  }
}

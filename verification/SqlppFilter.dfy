/**
 Compilation of portable filters to SQL++ conditions. The builder emits a flat token text with
 numbered placeholders; the text is read back by a precedence parser (NOT over AND over OR), and
 the condition read back has the filter's truth value on every document.
 */
module SqlppFilter {
  import opened Options
  import opened Filters

  const DOCUMENT_ID: string := "$document_id"

  datatype Json = Json(text: string)

  datatype Document = Document(id: Json, body: map<string, Json>)

  /** `META(c).id`, or a field of the document object. */
  datatype Operand = DocumentId | FieldOf(name: string)

  datatype Token =
    | Reference(operand: Operand) | Sign(symbol: string) | Placeholder(number: nat)
    | IsWord | NullWord | InWord | ContainsWord | NotWord | AndWord | OrWord
    | OpenParen | CloseParen | OpenBracket | CloseBracket | Comma

  function FieldOperand(field: string): Operand {
    if field == DOCUMENT_ID then DocumentId else FieldOf(field)
  }

  function Symbol(op: Comparison): string {
    match op
    case EqOp => "=" case NeOp => "!=" case LtOp => "<" case LteOp => "<=" case GtOp => ">" case GteOp => ">="
  }

  // ---------------------------------------------------------------- what the builder emits

  /** The values a filter binds, in the order of their placeholders. */
  function Wanted(f: Filter): seq<DbValue>
    decreases f, 1
  {
    match f
    case Compare(op, _, value) => if value == Null && (op == EqOp || op == NeOp) then [] else [value]
    case In(_, values) => values
    case Contains(_, value) => [value]
    case And(filters) => WantedAll(filters)
    case Or(filters) => WantedAll(filters)
    case Not(inner) => Wanted(inner)
  }

  function WantedAll(filters: seq<Filter>): seq<DbValue>
    decreases filters, 0
  {
    if filters == [] then [] else Wanted(filters[0]) + WantedAll(filters[1..])
  }

  predicate WellShaped(f: Filter) {
    match f
    case Compare(_, field, _) => field != []
    case In(field, values) => field != [] && values != []
    case Contains(field, _) => field != []
    case And(filters) => filters != [] && forall i :: 0 <= i < |filters| ==> WellShaped(filters[i])
    case Or(filters) => filters != [] && forall i :: 0 <= i < |filters| ==> WellShaped(filters[i])
    case Not(inner) => WellShaped(inner)
  }

  function Placeholders(base: nat, count: nat): (items: seq<Token>)
    ensures |items| == count
    ensures forall i :: 0 <= i < count ==> items[i] == Placeholder(base + i + 1)
    decreases count
  {
    if count == 0 then [] else [Placeholder(base + 1)] + Placeholders(base + 1, count - 1)
  }

  function Joined(parts: seq<seq<Token>>, separator: Token): seq<Token> {
    if parts == [] then [] else if |parts| == 1 then parts[0]
    else parts[0] + [separator] + Joined(parts[1..], separator)
  }

  function Parenthesised(text: seq<Token>): seq<Token> { [OpenParen] + text + [CloseParen] }

  /** The text of a filter compiled by a builder that already holds `base` parameters. */
  function Emitted(f: Filter, base: nat): seq<Token>
    decreases f, 1
  {
    match f
    case Compare(op, field, value) =>
      if value == Null && op == EqOp then [Reference(FieldOperand(field)), IsWord, NullWord]
      else if value == Null && op == NeOp then [Reference(FieldOperand(field)), IsWord, NotWord, NullWord]
      else [Reference(FieldOperand(field)), Sign(Symbol(op)), Placeholder(base + 1)]
    case In(field, values) =>
      [Reference(FieldOperand(field)), InWord, OpenBracket] + Listed(Placeholders(base, |values|)) + [CloseBracket]
    case Contains(field, _) => [ContainsWord, OpenParen, Reference(FieldOperand(field)), Comma, Placeholder(base + 1),
      CloseParen]
    case And(filters) => Joined(EmittedParts(filters, base), AndWord)
    case Or(filters) => Joined(EmittedParts(filters, base), OrWord)
    case Not(inner) => [NotWord] + Parenthesised(Emitted(inner, base))
  }

  function EmittedParts(filters: seq<Filter>, base: nat): (parts: seq<seq<Token>>)
    ensures |parts| == |filters|
    decreases filters, 0
  {
    if filters == [] then []
    else [Parenthesised(Emitted(filters[0], base))] + EmittedParts(filters[1..], base + |Wanted(filters[0])|)
  }

  /** `$1, $2, $3` */
  function Listed(items: seq<Token>): seq<Token> {
    if |items| <= 1 then items else [items[0], Comma] + Listed(items[1..])
  }

  /**
   Compilation succeeds exactly on well-shaped filters whose values all convert, and binds exactly those values, in
   placeholder order.
   */
  predicate Compiled(convert: DbValue -> Option<Json>, f: Filter, before: seq<Json>, after: seq<Json>,
    r: Option<seq<Token>>) {
    var values := ConvertAll(convert, Wanted(f));
    && (r.Some? <==> WellShaped(f) && values.Some?)
    && (r.Some? ==> r.value == Emitted(f, |before|) && after == before + values.value)
  }

  predicate CompiledAll(convert: DbValue -> Option<Json>, filters: seq<Filter>, before: seq<Json>, after: seq<Json>,
    r: Option<seq<seq<Token>>>) {
    var values := ConvertAll(convert, WantedAll(filters));
    && (r.Some? <==> AllShaped(filters) && values.Some?)
    && (r.Some? ==> r.value == EmittedParts(filters, |before|) && after == before + values.value)
  }

  class SqlBuilder {
    const convert: DbValue -> Option<Json>
    var parameters: seq<Json>

    constructor (convert: DbValue -> Option<Json>)
      ensures this.convert == convert && parameters == []
    {
      this.convert, parameters := convert, [];
    }

    method Parameter(value: DbValue) returns (r: Option<Token>)
      modifies this
      ensures convert(value).None? ==> r.None? && parameters == old(parameters)
      ensures convert(value).Some? ==>
        parameters == old(parameters) + [convert(value).value] && r == Some(Placeholder(|old(parameters)| + 1))
    {
      var json := convert(value);
      if json.None? { return None; }
      parameters := parameters + [json.value];
      return Some(Placeholder(|parameters|));
    }

    method CompileFilter(f: Filter) returns (r: Option<seq<Token>>)
      modifies this
      ensures Compiled(convert, f, old(parameters), parameters, r)
      decreases f, 1
    {
      match f
      case Compare(op, field, value) =>
        if field == [] { return None; }
        if value == Null && op == EqOp { return Some([Reference(FieldOperand(field)), IsWord, NullWord]); }
        if value == Null && op == NeOp { return Some([Reference(FieldOperand(field)), IsWord, NotWord, NullWord]); }
        var slot := Parameter(value);
        if slot.None? { return None; }
        return Some([Reference(FieldOperand(field)), Sign(Symbol(op)), slot.value]);
      case Contains(field, value) =>
        if field == [] { return None; }
        var slot := Parameter(value);
        if slot.None? { return None; }
        return Some([ContainsWord, OpenParen, Reference(FieldOperand(field)), Comma, slot.value, CloseParen]);
      case In(field, values) =>
        if values == [] || field == [] { return None; }
        var slots := CompileList(values);
        if slots.None? { return None; }
        return Some([Reference(FieldOperand(field)), InWord, OpenBracket] + Listed(slots.value) + [CloseBracket]);
      case And(filters) =>
        if filters == [] { return None; }
        var parts := CompileParts(filters);
        if parts.None? { return None; }
        return Some(Joined(parts.value, AndWord));
      case Or(filters) =>
        if filters == [] { return None; }
        var parts := CompileParts(filters);
        if parts.None? { return None; }
        return Some(Joined(parts.value, OrWord));
      case Not(inner) =>
        var text := CompileFilter(inner);
        if text.None? { return None; }
        return Some([NotWord] + Parenthesised(text.value));
    }

    method CompileList(values: seq<DbValue>) returns (r: Option<seq<Token>>)
      modifies this
      ensures r.Some? <==> ConvertAll(convert, values).Some?
      ensures r.Some? ==>
        && r.value == Placeholders(|old(parameters)|, |values|)
        && parameters == old(parameters) + ConvertAll(convert, values).value
    {
      var slots := [];
      var i := 0;
      while i < |values|
        invariant 0 <= i <= |values|
        invariant |slots| == i && forall k :: 0 <= k < i ==> slots[k] == Placeholder(|old(parameters)| + k + 1)
        invariant ConvertAll(convert, values[..i]).Some?
        invariant parameters == old(parameters) + ConvertAll(convert, values[..i]).value
      {
        ConvertExtends(convert, values, i);
        var slot := Parameter(values[i]);
        if slot.None? { return None; }
        slots := slots + [slot.value];
        i := i + 1;
      }
      assert values[..i] == values;
      return Some(slots);
    }

    method CompileParts(filters: seq<Filter>) returns (r: Option<seq<seq<Token>>>)
      modifies this
      ensures CompiledAll(convert, filters, old(parameters), parameters, r)
      decreases filters, 0
    {
      if filters == [] { return Some([]); }
      var first := CompileFilter(filters[0]);
      ghost var middle := parameters;
      if first.None? {
        FirstFails(convert, filters, old(parameters), parameters);
        return None;
      }
      var others := CompileParts(filters[1..]);
      if others.None? {
        OthersFail(convert, filters, middle, parameters);
        return None;
      }
      PartsCompose(convert, filters, old(parameters), middle, parameters, first.value, others.value);
      return Some([Parenthesised(first.value)] + others.value);
    }
  }

  lemma FirstFails(convert: DbValue -> Option<Json>, filters: seq<Filter>, before: seq<Json>, after: seq<Json>)
    requires filters != [] && Compiled(convert, filters[0], before, after, None)
    ensures CompiledAll(convert, filters, before, after, None)
  {
    WantedFirst(convert, filters);
  }

  lemma OthersFail(convert: DbValue -> Option<Json>, filters: seq<Filter>, middle: seq<Json>, after: seq<Json>)
    requires filters != [] && CompiledAll(convert, filters[1..], middle, after, None)
    ensures forall before :: CompiledAll(convert, filters, before, after, None)
  {
    WantedFirst(convert, filters);
  }

  lemma PartsCompose(convert: DbValue -> Option<Json>, filters: seq<Filter>, before: seq<Json>, middle: seq<Json>,
    after: seq<Json>,
                     first: seq<Token>, others: seq<seq<Token>>)
    requires filters != []
    requires Compiled(convert, filters[0], before, middle, Some(first))
    requires CompiledAll(convert, filters[1..], middle, after, Some(others))
    ensures CompiledAll(convert, filters, before, after, Some([Parenthesised(first)] + others))
  {
    WantedFirst(convert, filters);
    BothBound(before, middle, after, ConvertAll(convert, Wanted(filters[0])).value,
      ConvertAll(convert, WantedAll(filters[1..])).value);
    PartsFirst(filters, |before|, first, others);
  }

  lemma BothBound(before: seq<Json>, middle: seq<Json>, after: seq<Json>, a: seq<Json>, b: seq<Json>)
    requires middle == before + a && after == middle + b
    ensures after == before + (a + b)
  {
  }

  function Together<T>(a: Option<seq<T>>, b: Option<seq<T>>): Option<seq<T>> {
    if a.Some? && b.Some? then Some(a.value + b.value) else None
  }

  lemma {:induction false} ConvertAppends<T>(convert: DbValue -> Option<T>, a: seq<DbValue>, b: seq<DbValue>)
    ensures ConvertAll(convert, a + b) == Together(ConvertAll(convert, a), ConvertAll(convert, b))
  {
    if a == [] {
      assert a + b == b;
      assert ConvertAll(convert, b).Some? ==> [] + ConvertAll(convert, b).value == ConvertAll(convert, b).value;
    } else {
      assert (a + b)[0] == a[0] && (a + b)[1..] == a[1..] + b;
      ConvertAppends(convert, a[1..], b);
      var first, rest, others := convert(a[0]), ConvertAll(convert, a[1..]), ConvertAll(convert, b);
      if first.Some? && rest.Some? && others.Some? {
        Assoc([first.value], rest.value, others.value);
      }
    }
  }

  lemma PartsFirst(filters: seq<Filter>, base: nat, first: seq<Token>, others: seq<seq<Token>>)
    requires filters != [] && first == Emitted(filters[0], base)
    requires others == EmittedParts(filters[1..], base + |Wanted(filters[0])|)
    ensures EmittedParts(filters, base) == [Parenthesised(first)] + others
  {
  }

  lemma WantedFirst<T>(convert: DbValue -> Option<T>, filters: seq<Filter>)
    requires filters != []
    ensures ConvertAll(convert, WantedAll(filters)) ==
      Together(ConvertAll(convert, Wanted(filters[0])), ConvertAll(convert, WantedAll(filters[1..])))
    ensures AllShaped(filters) <==> WellShaped(filters[0]) && AllShaped(filters[1..])
  {
    ConvertAppends(convert, Wanted(filters[0]), WantedAll(filters[1..]));
    ShapedFirst(filters);
  }

  lemma ShapedFirst(filters: seq<Filter>)
    requires filters != []
    ensures AllShaped(filters) <==> WellShaped(filters[0]) && AllShaped(filters[1..])
  {
    assert filters == [filters[0]] + filters[1..];
  }

  predicate AllShaped(filters: seq<Filter>) { forall i :: 0 <= i < |filters| ==> WellShaped(filters[i]) }

  lemma ConvertOne<T>(convert: DbValue -> Option<T>, value: DbValue)
    ensures ConvertAll(convert, [value]) == if convert(value).None? then None else Some([convert(value).value])
  {
    var one := [value];
    assert one[0] == value && one[1..] == [];
    var none: seq<T> := [];
    assert ConvertAll(convert, one[1..]) == Some(none);
    assert convert(value).Some? ==> [convert(value).value] + none == [convert(value).value];
  }

  lemma ConvertExtends<T>(convert: DbValue -> Option<T>, values: seq<DbValue>, i: nat)
    requires i < |values|
    ensures ConvertAll(convert, values).Some? ==> convert(values[i]).Some?
    ensures ConvertAll(convert, values[..i]).Some? && convert(values[i]).Some? ==>
      ConvertAll(convert, values[..i + 1]) == Some(ConvertAll(convert, values[..i]).value + [convert(values[i]).value])
  {
    ConvertAppends(convert, values[..i], [values[i]]);
    assert values[..i] + [values[i]] == values[..i + 1];
    ConvertOne(convert, values[i]);
  }

  // ---------------------------------------------------------------- numbering

  /** The placeholders of a text, in order of appearance. */
  function Slots(text: seq<Token>): seq<Token> {
    if text == [] then [] else (if text[0].Placeholder? then [text[0]] else []) + Slots(text[1..])
  }

  lemma {:induction false} SlotsAppend(a: seq<Token>, b: seq<Token>)
    ensures Slots(a + b) == Slots(a) + Slots(b)
  {
    if a == [] {
      assert a + b == b;
    } else {
      assert (a + b)[0] == a[0] && (a + b)[1..] == a[1..] + b;
      SlotsAppend(a[1..], b);
    }
  }

  lemma {:induction false} SlotsOfList(base: nat, count: nat)
    ensures Slots(Listed(Placeholders(base, count))) == Placeholders(base, count)
    decreases count
  {
    var items := Placeholders(base, count);
    if count > 1 {
      assert items[1..] == Placeholders(base + 1, count - 1);
      SlotsOfList(base + 1, count - 1);
      SlotsAppend([items[0], Comma], Listed(items[1..]));
      assert [items[0], Comma][1..] == [Comma];
      assert items == [items[0]] + items[1..];
    }
  }

  lemma {:induction false} SlotsOfParenthesised(text: seq<Token>)
    ensures Slots(Parenthesised(text)) == Slots(text)
  {
    SlotsAppend([OpenParen], text);
    SlotsAppend([OpenParen] + text, [CloseParen]);
  }

  lemma {:induction false} NoSlots(text: seq<Token>)
    requires forall i :: 0 <= i < |text| ==> !text[i].Placeholder?
    ensures Slots(text) == []
  {
    if text != [] {
      NoSlots(text[1..]);
    }
  }

  lemma SlotsOfHead(head: seq<Token>, middle: seq<Token>, tail: seq<Token>)
    requires forall i :: 0 <= i < |head| ==> !head[i].Placeholder?
    requires forall i :: 0 <= i < |tail| ==> !tail[i].Placeholder?
    ensures Slots(head + middle + tail) == Slots(middle)
  {
    NoSlots(head);
    NoSlots(tail);
    SlotsAppend(head, middle);
    SlotsAppend(head + middle, tail);
  }

  lemma ConsecutiveInAtom(f: Filter, base: nat)
    requires f.Compare? || f.Contains?
    ensures Slots(Emitted(f, base)) == Placeholders(base, |Wanted(f)|)
  {
    var text := Emitted(f, base);
    if Wanted(f) == [] {
      NoSlots(text);
    } else {
      var k := if f.Compare? then 2 else 4;
      assert text == text[..k] + [text[k]] + text[k + 1..];
      SlotsOfHead(text[..k], [text[k]], text[k + 1..]);
    }
  }

  /** Placeholders are numbered consecutively from `base + 1`, one for each bound value. */
  lemma {:induction false} ConsecutivePlaceholders(f: Filter, base: nat)
    ensures Slots(Emitted(f, base)) == Placeholders(base, |Wanted(f)|)
    decreases f, 1
  {
    match f
    case Compare(_, _, _) => ConsecutiveInAtom(f, base);
    case Contains(_, _) => ConsecutiveInAtom(f, base);
    case In(field, values) =>
      var head := [Reference(FieldOperand(field)), InWord, OpenBracket];
      var list := Listed(Placeholders(base, |values|));
      SlotsOfHead(head, list, [CloseBracket]);
      SlotsOfList(base, |values|);
    case And(filters) => ConsecutiveInParts(filters, base, AndWord);
    case Or(filters) => ConsecutiveInParts(filters, base, OrWord);
    case Not(inner) =>
      ConsecutivePlaceholders(inner, base);
      SlotsOfParenthesised(Emitted(inner, base));
  }

  lemma {:induction false} ConsecutiveInParts(filters: seq<Filter>, base: nat, word: Token)
    requires !word.Placeholder?
    ensures Slots(Joined(EmittedParts(filters, base), word)) == Placeholders(base, |WantedAll(filters)|)
    decreases filters, 1
  {
    SlotsOfJoined(EmittedParts(filters, base), word);
    ConsecutiveParts(filters, base);
  }

  function SlotsOfAll(parts: seq<seq<Token>>): seq<Token> {
    if parts == [] then [] else Slots(parts[0]) + SlotsOfAll(parts[1..])
  }

  lemma {:induction false} SlotsOfJoined(parts: seq<seq<Token>>, word: Token)
    requires !word.Placeholder?
    ensures Slots(Joined(parts, word)) == SlotsOfAll(parts)
  {
    if |parts| == 1 {
      assert SlotsOfAll(parts[1..]) == [];
    } else if parts != [] {
      SlotsOfJoined(parts[1..], word);
      SlotsOfHead([], parts[0], [word]);
      assert [] + parts[0] + [word] == parts[0] + [word];
      SlotsAppend(parts[0] + [word], Joined(parts[1..], word));
    }
  }

  lemma {:induction false} PlaceholdersAppend(base: nat, a: nat, b: nat)
    ensures Placeholders(base, a) + Placeholders(base + a, b) == Placeholders(base, a + b)
  {
  }

  lemma {:induction false} ConsecutiveParts(filters: seq<Filter>, base: nat)
    ensures SlotsOfAll(EmittedParts(filters, base)) == Placeholders(base, |WantedAll(filters)|)
    decreases filters, 0
  {
    if filters != [] {
      var count := |Wanted(filters[0])|;
      var text := Emitted(filters[0], base);
      var others := EmittedParts(filters[1..], base + count);
      ConsecutivePlaceholders(filters[0], base);
      SlotsOfParenthesised(text);
      ConsecutiveParts(filters[1..], base + count);
      PlaceholdersAppend(base, count, |WantedAll(filters[1..])|);
      PartsFirst(filters, base, text, others);
      SlotsOfFirst(Parenthesised(text), others);
    }
  }

  lemma SlotsOfFirst(first: seq<Token>, others: seq<seq<Token>>)
    ensures SlotsOfAll([first] + others) == Slots(first) + SlotsOfAll(others)
  {
    assert ([first] + others)[1..] == others;
  }

  // ---------------------------------------------------------------- the reader of SQL++ conditions

  datatype Condition =
    | IsNull(operand: Operand)
    | IsNotNull(operand: Operand)
    | Compares(operand: Operand, op: Comparison, slot: nat)
    | HasText(operand: Operand, slot: nat)
    | Member(operand: Operand, slots: seq<nat>)
    | Both(left: Condition, right: Condition)
    | Either(left: Condition, right: Condition)
    | Negated(inner: Condition)

  datatype Parsed<T> = Parsed(tree: T, rest: seq<Token>)

  predicate Starts(text: seq<Token>, token: Token) { text != [] && text[0] == token }

  function ParseOr(text: seq<Token>): (r: Option<Parsed<Condition>>)
    ensures r.Some? ==> |r.value.rest| < |text|
    decreases |text|, 4
  {
    match ParseAnd(text)
    case None => None
    case Some(first) => OrTail(first.tree, first.rest)
  }

  function OrTail(left: Condition, text: seq<Token>): (r: Option<Parsed<Condition>>)
    ensures r.Some? ==> |r.value.rest| <= |text|
    decreases |text|, 3
  {
    if !Starts(text, OrWord) then Some(Parsed(left, text)) else
      match ParseAnd(text[1..])
      case None => None
      case Some(next) => OrTail(Either(left, next.tree), next.rest)
  }

  function ParseAnd(text: seq<Token>): (r: Option<Parsed<Condition>>)
    ensures r.Some? ==> |r.value.rest| < |text|
    decreases |text|, 2
  {
    match ParseNot(text)
    case None => None
    case Some(first) => AndTail(first.tree, first.rest)
  }

  function AndTail(left: Condition, text: seq<Token>): (r: Option<Parsed<Condition>>)
    ensures r.Some? ==> |r.value.rest| <= |text|
    decreases |text|, 1
  {
    if !Starts(text, AndWord) then Some(Parsed(left, text)) else
      match ParseNot(text[1..])
      case None => None
      case Some(next) => AndTail(Both(left, next.tree), next.rest)
  }

  function ParseNot(text: seq<Token>): (r: Option<Parsed<Condition>>)
    ensures r.Some? ==> |r.value.rest| < |text|
    decreases |text|, 1
  {
    if Starts(text, NotWord) then
      match ParseNot(text[1..])
      case None => None
      case Some(inner) => Some(Parsed(Negated(inner.tree), inner.rest))
    else ParsePrimary(text)
  }

  function ParsePrimary(text: seq<Token>): (r: Option<Parsed<Condition>>)
    ensures r.Some? ==> |r.value.rest| < |text|
    decreases |text|, 0
  {
    if Starts(text, OpenParen) then
      match ParseOr(text[1..])
      case None => None
      case Some(inner) => if Starts(inner.rest, CloseParen) then Some(Parsed(inner.tree, inner.rest[1..])) else None
    else ParseAtom(text)
  }

  /** The comparison that a sign stands for in SQL++. */
  function Operator(symbol: string): Option<Comparison> {
    if symbol == "=" then Some(EqOp)
    else if symbol == "!=" then Some(NeOp)
    else if symbol == "<" then Some(LtOp)
    else if symbol == "<=" then Some(LteOp)
    else if symbol == ">" then Some(GtOp)
    else if symbol == ">=" then Some(GteOp)
    else None
  }

  function ParseAtom(text: seq<Token>): (r: Option<Parsed<Condition>>)
    ensures r.Some? ==> |r.value.rest| < |text|
  {
    if |text| >= 6 && text[0] == ContainsWord && text[1] == OpenParen && text[2].Reference? && text[3] == Comma
      && text[4].Placeholder? && text[5] == CloseParen
    then Some(Parsed(HasText(text[2].operand, text[4].number), text[6..]))
    else if |text| < 3 || !text[0].Reference? then None
    else if text[1] == IsWord && text[2] == NullWord then Some(Parsed(IsNull(text[0].operand), text[3..]))
    else if |text| >= 4 && text[1] == IsWord && text[2] == NotWord && text[3] == NullWord
    then Some(Parsed(IsNotNull(text[0].operand), text[4..]))
    else if text[1].Sign? && Operator(text[1].symbol).Some? && text[2].Placeholder?
    then Some(Parsed(Compares(text[0].operand, Operator(text[1].symbol).value, text[2].number), text[3..]))
    else if text[1] == InWord && text[2] == OpenBracket then
      match ParseList(text[3..])
      case None => None
      case Some(list) => Some(Parsed(Member(text[0].operand, list.tree), list.rest))
    else None
  }

  /** A non-empty comma-separated list of placeholders with its closing bracket. */
  function ParseList(text: seq<Token>): (r: Option<Parsed<seq<nat>>>)
    ensures r.Some? ==> |r.value.rest| < |text|
  {
    if |text| < 2 || !text[0].Placeholder? then None
    else if text[1] == CloseBracket then Some(Parsed([text[0].number], text[2..]))
    else if text[1] != Comma then None
    else
      match ParseList(text[2..])
      case None => None
      case Some(list) => Some(Parsed([text[0].number] + list.tree, list.rest))
  }

  // ---------------------------------------------------------------- truth values

  /** SQL++ logic has four values; AND takes the lower one and OR the higher one. */
  datatype Truth = False | Missing | Unknown | True

  function Rank(t: Truth): nat { match t case False => 0 case Missing => 1 case Unknown => 2 case True => 3 }
  function Lower(a: Truth, b: Truth): Truth { if Rank(a) <= Rank(b) then a else b }
  function Higher(a: Truth, b: Truth): Truth { if Rank(a) <= Rank(b) then b else a }
  function Opposite(t: Truth): Truth { match t case False => True case True => False case _ => t }

  /**
   How the server decides the atomic conditions, given what was read from the document; a missing field and a
   placeholder without a parameter read as None.
   */
  datatype Engine = Engine(
    nullity: Option<Json> -> Truth,
    compare: (Option<Json>, Comparison, Option<Json>) -> Truth,
    hasText: (Option<Json>, Option<Json>) -> Truth,
    member: (Option<Json>, seq<Option<Json>>) -> Truth)

  function FieldValue(document: Document, name: string): Option<Json> {
    if name in document.body then Some(document.body[name]) else None
  }

  function Reading(document: Document, operand: Operand): Option<Json> {
    match operand
    case DocumentId => Some(document.id)
    case FieldOf(name) => FieldValue(document, name)
  }

  function Bound(parameters: seq<Json>, slot: nat): Option<Json> {
    if 1 <= slot <= |parameters| then Some(parameters[slot - 1]) else None
  }

  function BoundAll(parameters: seq<Json>, slots: seq<nat>): seq<Option<Json>> {
    seq(|slots|, i requires 0 <= i < |slots| => Bound(parameters, slots[i]))
  }

  /** The truth of a condition when placeholder i reads parameter i. */
  function Eval(engine: Engine, parameters: seq<Json>, document: Document, c: Condition): Truth {
    match c
    case IsNull(operand) => engine.nullity(Reading(document, operand))
    case IsNotNull(operand) => Opposite(engine.nullity(Reading(document, operand)))
    case Compares(operand, op, slot) => engine.compare(Reading(document, operand), op, Bound(parameters, slot))
    case HasText(operand, slot) => engine.hasText(Reading(document, operand), Bound(parameters, slot))
    case Member(operand, slots) => engine.member(Reading(document, operand), BoundAll(parameters, slots))
    case Both(left, right) => Lower(Eval(engine, parameters, document, left), Eval(engine, parameters, document, right))
    case Either(left, right) => Higher(Eval(engine, parameters, document, left),
      Eval(engine, parameters, document, right))
    case Negated(inner) => Opposite(Eval(engine, parameters, document, inner))
  }

  /** What a filter means by a field name: the document's id, or its field of that name. */
  function Named(document: Document, field: string): Option<Json> {
    if field == "$document_id" then Some(document.id) else FieldValue(document, field)
  }

  /** The truth of a filter itself, with its own values in place and no text in between. */
  function Meaning(engine: Engine, convert: DbValue -> Option<Json>, document: Document, f: Filter): Truth
    decreases f, 1
  {
    match f
    case Compare(op, field, value) =>
      var read := Named(document, field);
      if value == Null && op == EqOp then engine.nullity(read)
      else if value == Null && op == NeOp then Opposite(engine.nullity(read))
      else engine.compare(read, op, convert(value))
    case In(field, values) =>
      engine.member(Named(document, field), seq(|values|, i requires 0 <= i < |values| => convert(values[i])))
    case Contains(field, value) => engine.hasText(Named(document, field), convert(value))
    case And(filters) => Lowest(engine, convert, document, filters)
    case Or(filters) => Highest(engine, convert, document, filters)
    case Not(inner) => Opposite(Meaning(engine, convert, document, inner))
  }

  function Lowest(engine: Engine, convert: DbValue -> Option<Json>, document: Document, filters: seq<Filter>): Truth
    decreases filters, 0
  {
    if filters == [] then True
    else Lower(Meaning(engine, convert, document, filters[0]), Lowest(engine, convert, document, filters[1..]))
  }

  function Highest(engine: Engine, convert: DbValue -> Option<Json>, document: Document, filters: seq<Filter>): Truth
    decreases filters, 0
  {
    if filters == [] then False
    else Higher(Meaning(engine, convert, document, filters[0]), Highest(engine, convert, document, filters[1..]))
  }

  /** A document satisfies AND with every part, OR with some part, and NOT when the inner filter is false of it. */
  lemma {:induction false} TrueIff(engine: Engine, convert: DbValue -> Option<Json>, document: Document,
                                   filters: seq<Filter>)
    ensures Meaning(engine, convert, document, And(filters)) == True <==>
      forall i :: 0 <= i < |filters| ==> Meaning(engine, convert, document, filters[i]) == True
    ensures Meaning(engine, convert, document, Or(filters)) == True <==>
      exists i :: 0 <= i < |filters| && Meaning(engine, convert, document, filters[i]) == True
    ensures forall f :: Meaning(engine, convert, document, Not(f)) == True <==>
      Meaning(engine, convert, document, f) == False
  {
    if filters != [] {
      TrueIff(engine, convert, document, filters[1..]);
      assert filters == [filters[0]] + filters[1..];
    }
  }

  // ---------------------------------------------------------------- reading back

  function Numbers(base: nat, count: nat): (numbers: seq<nat>)
    ensures |numbers| == count
    ensures forall i :: 0 <= i < count ==> numbers[i] == base + i + 1
    decreases count
  {
    if count == 0 then [] else [base + 1] + Numbers(base + 1, count - 1)
  }

  /** The tree the reader builds: AND and OR nest to the left. */
  function Tree(f: Filter, base: nat): Condition
    requires WellShaped(f)
    decreases f, 1
  {
    match f
    case Compare(op, field, value) =>
      if value == Null && op == EqOp then IsNull(FieldOperand(field))
      else if value == Null && op == NeOp then IsNotNull(FieldOperand(field))
      else Compares(FieldOperand(field), op, base + 1)
    case In(field, values) => Member(FieldOperand(field), Numbers(base, |values|))
    case Contains(field, _) => HasText(FieldOperand(field), base + 1)
    case And(filters) => AllOf(Tree(filters[0], base), Trees(filters[1..], base + |Wanted(filters[0])|))
    case Or(filters) => AnyOf(Tree(filters[0], base), Trees(filters[1..], base + |Wanted(filters[0])|))
    case Not(inner) => Negated(Tree(inner, base))
  }

  function Trees(filters: seq<Filter>, base: nat): (trees: seq<Condition>)
    requires forall i :: 0 <= i < |filters| ==> WellShaped(filters[i])
    ensures |trees| == |filters|
    decreases filters, 0
  {
    if filters == [] then [] else [Tree(filters[0], base)] + Trees(filters[1..], base + |Wanted(filters[0])|)
  }

  function AllOf(left: Condition, trees: seq<Condition>): Condition
    decreases |trees|
  {
    if trees == [] then left else AllOf(Both(left, trees[0]), trees[1..])
  }

  function AnyOf(left: Condition, trees: seq<Condition>): Condition
    decreases |trees|
  {
    if trees == [] then left else AnyOf(Either(left, trees[0]), trees[1..])
  }

  lemma {:induction false} ReadList(base: nat, count: nat, rest: seq<Token>)
    requires count > 0
    ensures ParseList(Listed(Placeholders(base, count)) + [CloseBracket] + rest)
      == Some(Parsed(Numbers(base, count), rest))
    decreases count
  {
    var items := Placeholders(base, count);
    var text := Listed(items) + [CloseBracket] + rest;
    if count == 1 {
      assert text == items + ([CloseBracket] + rest);
      assert text[2..] == rest && Numbers(base, 1) == [base + 1];
    } else {
      assert items[1..] == Placeholders(base + 1, count - 1);
      ReadList(base + 1, count - 1, rest);
      assert text[2..] == Listed(items[1..]) + [CloseBracket] + rest;
      assert Numbers(base, count) == [base + 1] + Numbers(base + 1, count - 1);
    }
  }

  lemma AtomLevel(text: seq<Token>)
    requires text != [] && text[0] != NotWord && text[0] != OpenParen
    ensures ParseNot(text) == ParseAtom(text)
  {
  }

  lemma ReadCompare(f: Filter, base: nat, rest: seq<Token>)
    requires f.Compare? && WellShaped(f)
    ensures ParseAtom(Emitted(f, base) + rest) == Some(Parsed(Tree(f, base), rest))
  {
    var text := Emitted(f, base) + rest;
    assert text[|Emitted(f, base)|..] == rest;
    assert text[..3] == Emitted(f, base)[..3];
  }

  lemma ReadContains(f: Filter, base: nat, rest: seq<Token>)
    requires f.Contains?
    ensures ParseAtom(Emitted(f, base) + rest) == Some(Parsed(HasText(FieldOperand(f.field), base + 1), rest))
  {
    var text := Emitted(f, base) + rest;
    assert text[6..] == rest;
  }

  lemma ReadIn(f: Filter, base: nat, rest: seq<Token>)
    requires f.In? && f.values != []
    ensures ParseAtom(Emitted(f, base) + rest)
      == Some(Parsed(Member(FieldOperand(f.field), Numbers(base, |f.values|)), rest))
  {
    var list := Listed(Placeholders(base, |f.values|));
    InFront([Reference(FieldOperand(f.field)), InWord, OpenBracket], list, [CloseBracket], rest);
    ReadList(base, |f.values|, rest);
  }

  lemma InFront(head: seq<Token>, list: seq<Token>, tail: seq<Token>, rest: seq<Token>)
    ensures var text := head + list + tail + rest; text[..|head|] == head && text[|head|..] == list + tail + rest
  {
  }

  lemma ReadAtom(f: Filter, base: nat, rest: seq<Token>)
    requires WellShaped(f) && (f.Compare? || f.In? || f.Contains?)
    ensures ParseNot(Emitted(f, base) + rest) == Some(Parsed(Tree(f, base), rest))
  {
    var text := Emitted(f, base) + rest;
    assert text[0] == Emitted(f, base)[0];
    AtomLevel(text);
    match f
    case Compare(_, _, _) => ReadCompare(f, base, rest);
    case Contains(_, _) => ReadContains(f, base, rest);
    case In(_, _) => ReadIn(f, base, rest);
  }

  /** One part that nothing joins to is the whole condition. */
  lemma Alone(text: seq<Token>, tree: Condition, rest: seq<Token>)
    requires ParseNot(text) == Some(Parsed(tree, rest))
    requires !Starts(rest, AndWord) && !Starts(rest, OrWord)
    ensures ParseOr(text) == Some(Parsed(tree, rest))
  {
    assert ParseAnd(text) == Some(Parsed(tree, rest));
  }

  lemma AndStart(text: seq<Token>, first: Condition, after: seq<Token>, tree: Condition, rest: seq<Token>)
    requires ParseNot(text) == Some(Parsed(first, after)) && AndTail(first, after) == Some(Parsed(tree, rest))
    requires !Starts(rest, OrWord)
    ensures ParseOr(text) == Some(Parsed(tree, rest))
  {
    assert ParseAnd(text) == Some(Parsed(tree, rest));
  }

  lemma OrStart(text: seq<Token>, first: Condition, after: seq<Token>, tree: Condition, rest: seq<Token>)
    requires ParseNot(text) == Some(Parsed(first, after)) && !Starts(after, AndWord)
    requires OrTail(first, after) == Some(Parsed(tree, rest))
    ensures ParseOr(text) == Some(Parsed(tree, rest))
  {
    assert ParseAnd(text) == Some(Parsed(first, after));
  }

  lemma OrNext(left: Condition, text: seq<Token>, next: Condition, after: seq<Token>)
    requires Starts(text, OrWord) && ParseNot(text[1..]) == Some(Parsed(next, after)) && !Starts(after, AndWord)
    ensures OrTail(left, text) == OrTail(Either(left, next), after)
  {
    assert ParseAnd(text[1..]) == Some(Parsed(next, after));
  }

  lemma Assoc<T>(a: seq<T>, b: seq<T>, c: seq<T>)
    ensures (a + b) + c == a + (b + c)
  {
  }

  lemma {:induction false} ReadParenthesised(f: Filter, base: nat, rest: seq<Token>)
    requires WellShaped(f)
    ensures ParseNot(Parenthesised(Emitted(f, base)) + rest) == Some(Parsed(Tree(f, base), rest))
    decreases f, 3
  {
    var text := Parenthesised(Emitted(f, base)) + rest;
    var inside := [CloseParen] + rest;
    assert text[1..] == Emitted(f, base) + inside;
    ReadsBack(f, base, inside);
    assert inside[1..] == rest;
  }

  /** The text of a filter, followed by anything that is not AND or OR, reads back as its tree. */
  lemma {:induction false} ReadsBack(f: Filter, base: nat, rest: seq<Token>)
    requires WellShaped(f) && !Starts(rest, AndWord) && !Starts(rest, OrWord)
    ensures ParseOr(Emitted(f, base) + rest) == Some(Parsed(Tree(f, base), rest))
    decreases f, 2
  {
    match f
    case And(filters) => ReadsBackBoolean(filters, base, rest);
    case Or(filters) => ReadsBackBoolean(filters, base, rest);
    case Not(inner) =>
      var body := Parenthesised(Emitted(inner, base));
      WordInFront(NotWord, body, [], rest);
      assert body + [] == body && [] + rest == rest;
      ReadParenthesised(inner, base, rest);
      Alone(Emitted(f, base) + rest, Tree(f, base), rest);
    case _ =>
      ReadAtom(f, base, rest);
      Alone(Emitted(f, base) + rest, Tree(f, base), rest);
  }

  lemma {:induction false} ReadsBackBoolean(filters: seq<Filter>, base: nat, rest: seq<Token>)
    requires filters != [] && forall i :: 0 <= i < |filters| ==> WellShaped(filters[i])
    requires !Starts(rest, AndWord) && !Starts(rest, OrWord)
    ensures ParseOr(Emitted(And(filters), base) + rest) == Some(Parsed(Tree(And(filters), base), rest))
    ensures ParseOr(Emitted(Or(filters), base) + rest) == Some(Parsed(Tree(Or(filters), base), rest))
    decreases filters, 1
  {
    PartsAreClosed(filters, base);
    ReadJoined(EmittedParts(filters, base), Trees(filters, base), rest);
  }

  /** A part that reads as one tree, whatever comes after it. */
  ghost predicate Closed(part: seq<Token>, tree: Condition) {
    forall rest :: ParseNot(part + rest) == Some(Parsed(tree, rest))
  }

  lemma {:induction false} PartsAreClosed(filters: seq<Filter>, base: nat)
    requires forall i :: 0 <= i < |filters| ==> WellShaped(filters[i])
    ensures forall i :: 0 <= i < |filters| ==> Closed(EmittedParts(filters, base)[i], Trees(filters, base)[i])
    decreases filters, 0
  {
    if filters != [] {
      forall rest ensures ParseNot(Parenthesised(Emitted(filters[0], base)) + rest)
        == Some(Parsed(Tree(filters[0], base), rest)) {
        ReadParenthesised(filters[0], base, rest);
      }
      PartsAreClosed(filters[1..], base + |Wanted(filters[0])|);
    }
  }

  /** The remaining parts of a joined text, each with the word before it. */
  function Following(parts: seq<seq<Token>>, word: Token): seq<Token> {
    if parts == [] then [] else [word] + (parts[0] + Following(parts[1..], word))
  }

  lemma {:induction false} JoinedFollows(parts: seq<seq<Token>>, word: Token)
    requires parts != []
    ensures Joined(parts, word) == parts[0] + Following(parts[1..], word)
  {
    if |parts| > 1 {
      JoinedFollows(parts[1..], word);
      Assoc(parts[0], [word], Joined(parts[1..], word));
    }
  }

  lemma WordInFront(word: Token, first: seq<Token>, more: seq<Token>, rest: seq<Token>)
    ensures var text := [word] + (first + more) + rest; Starts(text, word) && text[1..] == first + (more + rest)
  {
  }

  lemma FollowingStart(parts: seq<seq<Token>>, word: Token, rest: seq<Token>)
    ensures parts == [] ==> Following(parts, word) + rest == rest
    ensures parts != [] ==>
      var text := Following(parts, word) + rest;
      Starts(text, word) && text[1..] == parts[0] + (Following(parts[1..], word) + rest)
  {
    if parts != [] {
      WordInFront(word, parts[0], Following(parts[1..], word), rest);
    }
  }

  lemma {:induction false} ReadAllTail(left: Condition, parts: seq<seq<Token>>, trees: seq<Condition>, rest: seq<Token>)
    requires |parts| == |trees| && (forall i :: 0 <= i < |parts| ==> Closed(parts[i], trees[i]))
    requires !Starts(rest, AndWord)
    ensures AndTail(left, Following(parts, AndWord) + rest) == Some(Parsed(AllOf(left, trees), rest))
    decreases |parts|
  {
    FollowingStart(parts, AndWord, rest);
    if parts != [] {
      var after := Following(parts[1..], AndWord) + rest;
      assert Closed(parts[0], trees[0]);
      assert ParseNot(parts[0] + after) == Some(Parsed(trees[0], after));
      ReadAllTail(Both(left, trees[0]), parts[1..], trees[1..], rest);
    }
  }

  lemma {:induction false} ReadAnyTail(left: Condition, parts: seq<seq<Token>>, trees: seq<Condition>, rest: seq<Token>)
    requires |parts| == |trees| && (forall i :: 0 <= i < |parts| ==> Closed(parts[i], trees[i]))
    requires !Starts(rest, AndWord) && !Starts(rest, OrWord)
    ensures OrTail(left, Following(parts, OrWord) + rest) == Some(Parsed(AnyOf(left, trees), rest))
    decreases |parts|
  {
    FollowingStart(parts, OrWord, rest);
    if parts != [] {
      var after := Following(parts[1..], OrWord) + rest;
      assert Closed(parts[0], trees[0]);
      assert ParseNot(parts[0] + after) == Some(Parsed(trees[0], after));
      FollowingStart(parts[1..], OrWord, rest);
      OrNext(left, Following(parts, OrWord) + rest, trees[0], after);
      ReadAnyTail(Either(left, trees[0]), parts[1..], trees[1..], rest);
    }
  }

  lemma ReadJoined(parts: seq<seq<Token>>, trees: seq<Condition>, rest: seq<Token>)
    requires |parts| == |trees| > 0 && (forall i :: 0 <= i < |parts| ==> Closed(parts[i], trees[i]))
    requires !Starts(rest, AndWord) && !Starts(rest, OrWord)
    ensures ParseOr(Joined(parts, AndWord) + rest) == Some(Parsed(AllOf(trees[0], trees[1..]), rest))
    ensures ParseOr(Joined(parts, OrWord) + rest) == Some(Parsed(AnyOf(trees[0], trees[1..]), rest))
  {
    assert Closed(parts[0], trees[0]);
    var all := Following(parts[1..], AndWord);
    JoinedFollows(parts, AndWord);
    Assoc(parts[0], all, rest);
    ReadAllTail(trees[0], parts[1..], trees[1..], rest);
    AndStart(parts[0] + (all + rest), trees[0], all + rest, AllOf(trees[0], trees[1..]), rest);
    var any := Following(parts[1..], OrWord);
    JoinedFollows(parts, OrWord);
    Assoc(parts[0], any, rest);
    FollowingStart(parts[1..], OrWord, rest);
    ReadAnyTail(trees[0], parts[1..], trees[1..], rest);
    OrStart(parts[0] + (any + rest), trees[0], any + rest, AnyOf(trees[0], trees[1..]), rest);
  }

  // ---------------------------------------------------------------- meaning

  /** `parameters` holds the converted values at the places `base + 1 ...`. */
  predicate Holds(convert: DbValue -> Option<Json>, parameters: seq<Json>, base: nat, wanted: seq<DbValue>) {
    base + |wanted| <= |parameters| && ConvertAll(convert, wanted) == Some(parameters[base..base + |wanted|])
  }

  lemma HoldsSplit(convert: DbValue -> Option<Json>, parameters: seq<Json>, base: nat, a: seq<DbValue>, b: seq<DbValue>)
    requires Holds(convert, parameters, base, a + b)
    ensures Holds(convert, parameters, base, a) && Holds(convert, parameters, base + |a|, b)
  {
    ConvertAppends(convert, a, b);
    var whole := parameters[base..base + |a + b|];
    assert whole[..|a|] == parameters[base..base + |a|] && whole[|a|..] == parameters[base + |a|..base + |a| + |b|];
  }

  lemma {:induction false} TreeMeans(engine: Engine, convert: DbValue -> Option<Json>, parameters: seq<Json>,
    document: Document, f: Filter, base: nat)
    requires WellShaped(f) && Holds(convert, parameters, base, Wanted(f))
    ensures Eval(engine, parameters, document, Tree(f, base)) == Meaning(engine, convert, document, f)
    decreases f, 1
  {
    match f
    case In(field, values) =>
      assert BoundAll(parameters, Numbers(base, |values|))
        == seq(|values|, i requires 0 <= i < |values| => convert(values[i]));
    case And(filters) => BooleanMeans(engine, convert, parameters, document, filters, base);
    case Or(filters) => BooleanMeans(engine, convert, parameters, document, filters, base);
    case Not(inner) => TreeMeans(engine, convert, parameters, document, inner, base);
    case Compare(op, field, value) =>
      assert Wanted(f) != [] ==> Wanted(f)[0] == value;
    case Contains(field, value) =>
      assert Wanted(f)[0] == value;
  }

  lemma {:induction false} BooleanMeans(engine: Engine, convert: DbValue -> Option<Json>, parameters: seq<Json>,
    document: Document, filters: seq<Filter>, base: nat)
    requires filters != [] && (forall i :: 0 <= i < |filters| ==> WellShaped(filters[i]))
    requires Holds(convert, parameters, base, WantedAll(filters))
    ensures Eval(engine, parameters, document, Tree(And(filters), base)) == Lowest(engine, convert, document, filters)
    ensures Eval(engine, parameters, document, Tree(Or(filters), base)) == Highest(engine, convert, document, filters)
    decreases filters, 1
  {
    TreesMean(engine, convert, parameters, document, filters, base);
    ListMeans(engine, convert, parameters, document, Trees(filters, base), filters);
    TreeOfList(filters, base);
  }

  lemma TreeOfList(filters: seq<Filter>, base: nat)
    requires filters != [] && forall i :: 0 <= i < |filters| ==> WellShaped(filters[i])
    ensures Tree(And(filters), base) == AllOf(Trees(filters, base)[0], Trees(filters, base)[1..])
    ensures Tree(Or(filters), base) == AnyOf(Trees(filters, base)[0], Trees(filters, base)[1..])
  {
  }

  lemma ListMeans(engine: Engine, convert: DbValue -> Option<Json>, parameters: seq<Json>, document: Document,
                  trees: seq<Condition>, filters: seq<Filter>)
    requires |trees| == |filters| > 0
    requires forall i :: 0 <= i < |filters| ==>
      Eval(engine, parameters, document, trees[i]) == Meaning(engine, convert, document, filters[i])
    ensures Eval(engine, parameters, document, AllOf(trees[0], trees[1..]))
      == Lowest(engine, convert, document, filters)
    ensures Eval(engine, parameters, document, AnyOf(trees[0], trees[1..]))
      == Highest(engine, convert, document, filters)
  {
    FoldMeans(engine, convert, parameters, document, trees[0], trees[1..], filters[1..]);
  }

  lemma {:induction false} TreesMean(engine: Engine, convert: DbValue -> Option<Json>, parameters: seq<Json>,
    document: Document, filters: seq<Filter>, base: nat)
    requires (forall i :: 0 <= i < |filters| ==> WellShaped(filters[i]))
    requires Holds(convert, parameters, base, WantedAll(filters))
    ensures forall i :: 0 <= i < |filters| ==>
      Eval(engine, parameters, document, Trees(filters, base)[i]) == Meaning(engine, convert, document, filters[i])
    decreases filters, 0
  {
    if filters != [] {
      HoldsSplit(convert, parameters, base, Wanted(filters[0]), WantedAll(filters[1..]));
      TreeMeans(engine, convert, parameters, document, filters[0], base);
      TreesMean(engine, convert, parameters, document, filters[1..], base + |Wanted(filters[0])|);
    }
  }

  /** Folding to the left gives the lowest (highest) value of the list. */
  lemma {:induction false} FoldMeans(engine: Engine, convert: DbValue -> Option<Json>, parameters: seq<Json>,
    document: Document,
                                     left: Condition, trees: seq<Condition>, filters: seq<Filter>)
    requires |trees| == |filters|
    requires forall i :: 0 <= i < |filters| ==>
      Eval(engine, parameters, document, trees[i]) == Meaning(engine, convert, document, filters[i])
    ensures Eval(engine, parameters, document, AllOf(left, trees)) ==
      Lower(Eval(engine, parameters, document, left), Lowest(engine, convert, document, filters))
    ensures Eval(engine, parameters, document, AnyOf(left, trees)) ==
      Higher(Eval(engine, parameters, document, left), Highest(engine, convert, document, filters))
    decreases |trees|
  {
    if trees != [] {
      FoldMeans(engine, convert, parameters, document, Both(left, trees[0]), trees[1..], filters[1..]);
      FoldMeans(engine, convert, parameters, document, Either(left, trees[0]), trees[1..], filters[1..]);
    }
  }

  /**
   Whatever the builder emits after `before` is one complete condition for the reader, and that
   condition has the filter's truth value on every document, however the server decides atoms.
   */
  lemma CompiledMeansFilter(convert: DbValue -> Option<Json>, before: seq<Json>, f: Filter)
    requires WellShaped(f) && ConvertAll(convert, Wanted(f)).Some?
    ensures var parsed := ParseOr(Emitted(f, |before|));
      && parsed.Some? && parsed.value.rest == []
      && forall engine: Engine, document ::
        Eval(engine, before + ConvertAll(convert, Wanted(f)).value, document, parsed.value.tree)
          == Meaning(engine, convert, document, f)
  {
    ReadsBack(f, |before|, []);
    assert Emitted(f, |before|) + [] == Emitted(f, |before|);
    forall engine: Engine, document ensures
      Eval(engine, before + ConvertAll(convert, Wanted(f)).value, document, Tree(f, |before|))
        == Meaning(engine, convert, document, f)
    {
      BoundTreeMeans(engine, convert, before, document, f);
    }
  }

  lemma BoundTreeMeans(engine: Engine, convert: DbValue -> Option<Json>, before: seq<Json>, document: Document,
    f: Filter)
    requires WellShaped(f) && ConvertAll(convert, Wanted(f)).Some?
    ensures Eval(engine, before + ConvertAll(convert, Wanted(f)).value, document, Tree(f, |before|))
      == Meaning(engine, convert, document, f)
  {
    var parameters := before + ConvertAll(convert, Wanted(f)).value;
    assert parameters[|before|..|before| + |Wanted(f)|] == ConvertAll(convert, Wanted(f)).value;
    TreeMeans(engine, convert, parameters, document, f, |before|);
  }

  /**
   The condition of a read: its placeholders are $1 to $n for its n parameters, and the condition the
   server reads has the filter's truth value on every document.
   */
  method WhereClause(convert: DbValue -> Option<Json>, filter: Filter)
    returns (text: Option<seq<Token>>, parameters: seq<Json>)
    ensures text.Some? <==> WellShaped(filter) && ConvertAll(convert, Wanted(filter)).Some?
    ensures text.Some? ==>
      var parsed := ParseOr(text.value);
      && Slots(text.value) == Placeholders(0, |parameters|)
      && parsed.Some? && parsed.value.rest == []
      && forall engine: Engine, document ::
        Eval(engine, parameters, document, parsed.value.tree) == Meaning(engine, convert, document, filter)
  {
    var builder := new SqlBuilder(convert);
    text := builder.CompileFilter(filter);
    parameters := builder.parameters;
    if text.Some? {
      assert [] + parameters == parameters;
      ConsecutivePlaceholders(filter, 0);
      CompiledMeansFilter(convert, [], filter);
    }
  }
}

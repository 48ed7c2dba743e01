/**
 Catalog search: the runtime keeps asking an offset-paged connector for just as many entities as it
 still lacks, drops those the policy hides, and returns the connector's last cursor.
 */
module CatalogPaging {
  import opened Options
  import opened Common

  datatype Entity = Entity(id: string, kind: string)

  /** A cursor is an offset into the connector's sorted catalog. */
  datatype Page = Page(entities: seq<Entity>, next: Option<nat>)

  function Offset(cursor: Option<nat>): nat { if cursor.Some? then cursor.value else 0 }

  // ---------------------------------------------------------------- the connector

  /** `skip(offset).take(limit)` */
  function Window(catalog: seq<Entity>, offset: nat, limit: nat): seq<Entity> {
    var from := Min(offset, |catalog|);
    catalog[from..Min(from + limit, |catalog|)]
  }

  function CatalogPageOf(ceilings: Ceilings, cursor: Option<nat>, limit: nat, entities: seq<Entity>): Result<Page> {
    match EffectiveLimit(ceilings, limit)
    case Err(e) => Err(e)
    case Ok(rows) =>
      if |entities| <= rows then Ok(Page(entities, None))
      else if Offset(cursor) + rows > U64_MAX then Err(InvalidRequest)
      else Ok(Page(entities[..rows], Some(Offset(cursor) + rows)))
  }

  /** One more entity than asked for is fetched, with the ceilings raised to allow it. */
  function SearchCatalogPage(catalog: seq<Entity>, ceilings: Ceilings, cursor: Option<nat>, limit: nat): Result<Page> {
    match EffectiveLimit(ceilings, limit)
    case Err(e) => Err(e)
    case Ok(rows) =>
      if rows + 1 > U32_MAX then Err(InvalidRequest)
      else
        var raised := Ceilings(Max(ceilings.context, rows + 1), Max(ceilings.policy, rows + 1));
        match EffectiveLimit(raised, rows + 1)
        case Err(e) => Err(e)
        case Ok(fetch) => CatalogPageOf(ceilings, cursor, limit, Window(catalog, Offset(cursor), fetch))
  }

  function Max(a: nat, b: nat): nat { if a >= b then a else b }

  // ---------------------------------------------------------------- the simple form

  type Visibility = Entity -> bool

  function Visible(shows: Visibility, entities: seq<Entity>): seq<Entity> {
    if entities == [] then [] else (if shows(entities[0]) then [entities[0]] else []) + Visible(shows, entities[1..])
  }

  /** The offset just past the entity that fills the page, or the end of the catalog. */
  function Until(catalog: seq<Entity>, shows: Visibility, offset: nat, wanted: nat): (end: nat)
    ensures offset <= end && (offset <= |catalog| ==> end <= |catalog|)
    decreases |catalog| - offset
  {
    if wanted == 0 || offset >= |catalog| then offset
    else Until(catalog, shows, offset + 1, if shows(catalog[offset]) then wanted - 1 else wanted)
  }

  /** The entities between two offsets, which may lie past the end. */
  function Between(catalog: seq<Entity>, from: nat, to: nat): seq<Entity>
    requires from <= to
  {
    catalog[Min(from, |catalog|)..Min(to, |catalog|)]
  }

  /** What a search should return, by looking at the whole catalog. */
  function Answer(catalog: seq<Entity>, shows: Visibility, offset: nat, wanted: nat): Page {
    var end := Until(catalog, shows, offset, wanted);
    Page(Visible(shows, Between(catalog, offset, end)), if end < |catalog| then Some(end) else None)
  }

  // ---------------------------------------------------------------- the runtime loop

  /**
   The loop over connector pages returns that answer. It fails only for a zero or unrepresentable
   limit and for an answer over the byte limit; a cursor that does not advance never occurs.
   */
  method SearchCatalog(catalog: seq<Entity>, shows: Visibility, ceilings: Ceilings, cursor: Option<nat>, requested: nat,
                       size: seq<Entity> -> nat, maxBytes: nat)
    returns (r: Result<Page>)
    requires |catalog| <= U64_MAX && requested <= U32_MAX
    ensures var limit := Min(Min(requested, ceilings.context), ceilings.policy);
      var answer := Answer(catalog, shows, if cursor.Some? then cursor.value else 0, limit);
      var refused := limit == 0 || limit == 0xFFFF_FFFF || size(answer.entities) > maxBytes;
      r == if refused then Err(InvalidRequest) else Ok(answer)
  {
    var limit := Min(Min(requested, ceilings.context), ceilings.policy);
    if limit == 0 { return Err(InvalidRequest); }
    r := CollectPages(catalog, shows, ceilings, cursor, limit);
    if r.Ok? && size(r.value.entities) > maxBytes { return Err(InvalidRequest); }
  }

  method CollectPages(catalog: seq<Entity>, shows: Visibility, ceilings: Ceilings, cursor: Option<nat>, limit: nat)
    returns (r: Result<Page>)
    requires |catalog| <= U64_MAX && 0 < limit <= ceilings.context && limit <= ceilings.policy && limit <= U32_MAX
    ensures r == if limit == U32_MAX then Err(InvalidRequest) else Ok(Answer(catalog, shows, Offset(cursor), limit))
  {
    ghost var start := Offset(cursor);
    var visible: seq<Entity> := [];
    var at := cursor;
    while true
      invariant limit == U32_MAX ==> visible == []
      invariant Pending(catalog, shows, start, limit, Offset(at), visible)
      decreases Max(|catalog|, start) - Offset(at)
    {
      var page := Fetch(catalog, ceilings, at, limit - |visible|);
      Round(catalog, shows, start, limit, Offset(at), visible);
      if page.Err? { return Err(page.error); }
      var found := Retain(page.value.entities, shows);
      visible := visible + found;
      if |visible| >= limit || page.value.next.None? {
        return Ok(Page(Truncated(visible, limit), page.value.next));
      }
      if page.value.next == at { return Err(ProtocolFailure); }
      at := page.value.next;
    }
  }

  function Truncated(entities: seq<Entity>, limit: nat): (r: seq<Entity>)
    ensures |entities| <= limit ==> r == entities
  {
    entities[..Min(limit, |entities|)]
  }

  /** Part of a page has been collected: the entities seen so far that are visible, fewer than the limit. */
  ghost predicate Pending(catalog: seq<Entity>, shows: Visibility, start: nat, limit: nat, offset: nat,
    visible: seq<Entity>) {
    && start <= offset && |visible| < limit
    && Until(catalog, shows, start, limit) == Until(catalog, shows, offset, limit - |visible|)
    && visible == Visible(shows, Between(catalog, start, offset))
  }

  /** The next window of the catalog, with a cursor exactly when the catalog goes on. */
  function NextPage(catalog: seq<Entity>, offset: nat, wanted: nat): Page {
    var end := offset + wanted;
    Page(Between(catalog, offset, end), if end < |catalog| then Some(end) else None)
  }

  /** A round either completes the answer or leaves a longer part of it pending. */
  lemma Round(catalog: seq<Entity>, shows: Visibility, start: nat, limit: nat, offset: nat, visible: seq<Entity>)
    requires Pending(catalog, shows, start, limit, offset, visible)
    ensures
      var page := NextPage(catalog, offset, limit - |visible|);
      var grown := visible + Visible(shows, page.entities);
      && |grown| <= limit
      && (|grown| == limit || page.next.None? ==> Page(grown, page.next) == Answer(catalog, shows, start, limit))
      && (|grown| < limit && page.next.Some? ==> Pending(catalog, shows, start, limit, page.next.value, grown))
  {
    var end := offset + limit - |visible|;
    PageAdvances(catalog, shows, start, offset, limit - |visible|);
    if |Grown(catalog, shows, limit, offset, visible)| == limit || end >= |catalog| {
      RoundCompletes(catalog, shows, start, limit, offset, visible);
    } else {
      RoundContinues(catalog, shows, start, limit, offset, visible);
    }
  }

  function Grown(catalog: seq<Entity>, shows: Visibility, limit: nat, offset: nat, visible: seq<Entity>): seq<Entity>
    requires |visible| <= limit
  {
    visible + Visible(shows, Between(catalog, offset, offset + limit - |visible|))
  }

  lemma RoundCompletes(catalog: seq<Entity>, shows: Visibility, start: nat, limit: nat, offset: nat,
    visible: seq<Entity>)
    requires Pending(catalog, shows, start, limit, offset, visible)
    requires |Grown(catalog, shows, limit, offset, visible)| == limit || offset + limit - |visible| >= |catalog|
    ensures var end := offset + limit - |visible|;
      Page(Grown(catalog, shows, limit, offset, visible), if end < |catalog| then Some(end) else None)
        == Answer(catalog, shows, start, limit)
  {
    PageAdvances(catalog, shows, start, offset, limit - |visible|);
  }

  lemma RoundContinues(catalog: seq<Entity>, shows: Visibility, start: nat, limit: nat, offset: nat,
    visible: seq<Entity>)
    requires Pending(catalog, shows, start, limit, offset, visible)
    requires |Grown(catalog, shows, limit, offset, visible)| < limit && offset + limit - |visible| < |catalog|
    ensures Pending(catalog, shows, start, limit, offset + limit - |visible|,
      Grown(catalog, shows, limit, offset, visible))
  {
    PageAdvances(catalog, shows, start, offset, limit - |visible|);
  }

  method Retain(entities: seq<Entity>, shows: Visibility) returns (kept: seq<Entity>)
    ensures kept == Visible(shows, entities)
  {
    kept := [];
    for i := 0 to |entities|
      invariant kept + Visible(shows, entities[i..]) == Visible(shows, entities)
    {
      assert entities[i..][0] == entities[i] && entities[i..][1..] == entities[i + 1..];
      if shows(entities[i]) { kept := kept + [entities[i]]; }
    }
  }

  /** What the connector returns is that window: fetching one entity too many only tells it whether there is more. */
  method Fetch(catalog: seq<Entity>, ceilings: Ceilings, cursor: Option<nat>, wanted: nat) returns (r: Result<Page>)
    requires |catalog| <= U64_MAX && 0 < wanted <= ceilings.context && wanted <= ceilings.policy && wanted <= U32_MAX
    ensures r == if wanted == U32_MAX then Err(InvalidRequest) else Ok(NextPage(catalog, Offset(cursor), wanted))
  {
    r := SearchCatalogPage(catalog, ceilings, cursor, wanted);
    if wanted < U32_MAX {
      ConnectorPage(catalog, ceilings, cursor, wanted);
    }
  }

  lemma ConnectorPage(catalog: seq<Entity>, ceilings: Ceilings, cursor: Option<nat>, wanted: nat)
    requires |catalog| <= U64_MAX && 0 < wanted <= ceilings.context && wanted <= ceilings.policy && wanted < U32_MAX
    ensures SearchCatalogPage(catalog, ceilings, cursor, wanted) == Ok(NextPage(catalog, Offset(cursor), wanted))
  {
    WindowOfOneMore(catalog, Offset(cursor), wanted);
  }

  lemma WindowOfOneMore(catalog: seq<Entity>, offset: nat, wanted: nat)
    ensures var fetched := Window(catalog, offset, wanted + 1);
      if offset + wanted < |catalog|
      then |fetched| == wanted + 1 && fetched[..wanted] == Between(catalog, offset, offset + wanted)
      else |fetched| <= wanted && fetched == Between(catalog, offset, offset + wanted)
  {
  }

  // ---------------------------------------------------------------- windows and visibility

  lemma {:induction false} VisibleAppends(shows: Visibility, a: seq<Entity>, b: seq<Entity>)
    ensures Visible(shows, a + b) == Visible(shows, a) + Visible(shows, b)
  {
    if a == [] {
      assert a + b == b;
    } else {
      assert (a + b)[0] == a[0] && (a + b)[1..] == a[1..] + b;
      VisibleAppends(shows, a[1..], b);
      var head := if shows(a[0]) then [a[0]] else [];
      calc {
        Visible(shows, a + b);
        head + Visible(shows, a[1..] + b);
        head + (Visible(shows, a[1..]) + Visible(shows, b));
        (head + Visible(shows, a[1..])) + Visible(shows, b);
      }
    }
  }

  lemma {:induction false} VisibleIsShorter(shows: Visibility, entities: seq<Entity>)
    ensures |Visible(shows, entities)| <= |entities|
  {
    if entities != [] {
      VisibleIsShorter(shows, entities[1..]);
    }
  }

  lemma VisibleBetween(catalog: seq<Entity>, shows: Visibility, a: nat, b: nat, c: nat)
    requires a <= b <= c
    ensures Visible(shows, Between(catalog, a, c))
      == Visible(shows, Between(catalog, a, b)) + Visible(shows, Between(catalog, b, c))
  {
    assert Between(catalog, a, c) == Between(catalog, a, b) + Between(catalog, b, c);
    VisibleAppends(shows, Between(catalog, a, b), Between(catalog, b, c));
  }

  /** Looking at no more entities than are wanted cannot pass the end of the page. */
  lemma {:induction false} UntilSkips(catalog: seq<Entity>, shows: Visibility, offset: nat, count: nat, wanted: nat)
    requires count <= wanted && offset + count <= |catalog|
    ensures |Visible(shows, Between(catalog, offset, offset + count))| <= count
    ensures Until(catalog, shows, offset, wanted) ==
      Until(catalog, shows, offset + count, wanted - |Visible(shows, Between(catalog, offset, offset + count))|)
    decreases count
  {
    VisibleIsShorter(shows, Between(catalog, offset, offset + count));
    if count > 0 {
      var window := Between(catalog, offset, offset + count);
      assert window[0] == catalog[offset] && window[1..] == Between(catalog, offset + 1, offset + count);
      var left := if shows(catalog[offset]) then wanted - 1 else wanted;
      UntilSkips(catalog, shows, offset + 1, count - 1, left);
    }
  }

  /** One round of the loop keeps its invariant, and completes the answer when the page is full or the catalog ends. */
  lemma PageAdvances(catalog: seq<Entity>, shows: Visibility, start: nat, offset: nat, wanted: nat)
    requires start <= offset && wanted > 0
    ensures var end := offset + wanted;
      var found := Visible(shows, Between(catalog, offset, end));
      && |found| <= wanted
      && Visible(shows, Between(catalog, start, end)) == Visible(shows, Between(catalog, start, offset)) + found
      && (end <= |catalog| ==> Until(catalog, shows, offset, wanted) == Until(catalog, shows, end, wanted - |found|))
      && (end >= |catalog| ==>
           Between(catalog, start, Until(catalog, shows, offset, wanted)) == Between(catalog, start, end))
      && (end >= |catalog| ==> Until(catalog, shows, offset, wanted) >= |catalog|)
  {
    var end := offset + wanted;
    VisibleIsShorter(shows, Between(catalog, offset, end));
    VisibleBetween(catalog, shows, start, offset, end);
    if end <= |catalog| {
      UntilSkips(catalog, shows, offset, wanted, wanted);
    } else if offset < |catalog| {
      UntilSkips(catalog, shows, offset, |catalog| - offset, wanted);
    }
  }

  // ---------------------------------------------------------------- chains of searches

  /** A page with a cursor is exactly full and its cursor is further on. */
  lemma {:induction false} UnfinishedPageIsFull(catalog: seq<Entity>, shows: Visibility, offset: nat, wanted: nat)
    requires Until(catalog, shows, offset, wanted) < |catalog|
    ensures |Visible(shows, Between(catalog, offset, Until(catalog, shows, offset, wanted)))| == wanted
    decreases |catalog| - offset
  {
    if wanted > 0 && offset < |catalog| {
      var end := Until(catalog, shows, offset, wanted);
      var window := Between(catalog, offset, end);
      UnfinishedPageIsFull(catalog, shows, offset + 1, if shows(catalog[offset]) then wanted - 1 else wanted);
      assert window[0] == catalog[offset] && window[1..] == Between(catalog, offset + 1, end);
    }
  }

  /** Searches that follow each other's cursors, each with its own positive limit. */
  ghost predicate Chain(catalog: seq<Entity>, shows: Visibility, offset: nat, limits: seq<nat>, pages: seq<Page>)
    decreases |pages|
  {
    |limits| == |pages| &&
    (pages == [] ||
     ( && limits[0] > 0 && pages[0] == Answer(catalog, shows, offset, limits[0])
       && (|pages| > 1 ==> pages[0].next.Some?)
       && Chain(catalog, shows, Offset(pages[0].next), limits[1..], pages[1..])))
  }

  function Entities(pages: seq<Page>): seq<Entity> {
    if pages == [] then [] else pages[0].entities + Entities(pages[1..])
  }

  lemma {:induction false} ChainFrom(catalog: seq<Entity>, shows: Visibility, offset: nat, limits: seq<nat>,
    pages: seq<Page>)
    requires offset <= |catalog| && pages != [] && Chain(catalog, shows, offset, limits, pages)
    ensures var last := pages[|pages| - 1].next;
      var end := if last.Some? then last.value else |catalog|;
      offset <= end <= |catalog| && Entities(pages) == Visible(shows, Between(catalog, offset, end))
    ensures |pages| <= |catalog| - offset + 1
    decreases |pages|
  {
    var end := Until(catalog, shows, offset, limits[0]);
    if |pages| == 1 {
      assert Entities(pages[1..]) == [];
      assert Entities(pages) == pages[0].entities;
    } else {
      var others := pages[1..];
      assert others[|others| - 1] == pages[|pages| - 1];
      assert end > offset;
      ChainFrom(catalog, shows, end, limits[1..], others);
      var last := others[|others| - 1].next;
      VisibleBetween(catalog, shows, offset, end, if last.Some? then last.value else |catalog|);
    }
  }

  /**
   Following cursors from the start yields exactly the visible entities of the whole catalog, in
   order; every page but the last is exactly full; and a chain never has more than |catalog| + 1 pages.
   */
  lemma ChainGivesVisibleCatalog(catalog: seq<Entity>, shows: Visibility, limits: seq<nat>, pages: seq<Page>)
    requires pages != [] && Chain(catalog, shows, 0, limits, pages)
    ensures pages[|pages| - 1].next.None? ==> Entities(pages) == Visible(shows, catalog)
    ensures Entities(pages) <= Visible(shows, catalog)
    ensures forall i :: 0 <= i < |pages| ==>
      |pages[i].entities| <= limits[i] && (pages[i].next.Some? ==> |pages[i].entities| == limits[i])
    ensures |pages| <= |catalog| + 1
  {
    ChainFrom(catalog, shows, 0, limits, pages);
    PagesAreFull(catalog, shows, 0, limits, pages);
    var last := pages[|pages| - 1].next;
    assert Between(catalog, 0, |catalog|) == catalog;
    if last.Some? {
      VisibleBetween(catalog, shows, 0, last.value, |catalog|);
    }
  }

  lemma {:induction false} PagesAreFull(catalog: seq<Entity>, shows: Visibility, offset: nat, limits: seq<nat>,
    pages: seq<Page>)
    requires offset <= |catalog| && Chain(catalog, shows, offset, limits, pages)
    ensures forall i :: 0 <= i < |pages| ==>
      |pages[i].entities| <= limits[i] && (pages[i].next.Some? ==> |pages[i].entities| == limits[i])
    decreases |pages|
  {
    if pages != [] {
      var end := Until(catalog, shows, offset, limits[0]);
      if end < |catalog| {
        UnfinishedPageIsFull(catalog, shows, offset, limits[0]);
      } else {
        PageWithinLimit(catalog, shows, offset, limits[0]);
      }
      PagesAreFull(catalog, shows, Offset(pages[0].next), limits[1..], pages[1..]);
    }
  }

  lemma {:induction false} PageWithinLimit(catalog: seq<Entity>, shows: Visibility, offset: nat, wanted: nat)
    ensures |Visible(shows, Between(catalog, offset, Until(catalog, shows, offset, wanted)))| <= wanted
    decreases |catalog| - offset
  {
    if wanted > 0 && offset < |catalog| {
      var end := Until(catalog, shows, offset, wanted);
      var window := Between(catalog, offset, end);
      PageWithinLimit(catalog, shows, offset + 1, if shows(catalog[offset]) then wanted - 1 else wanted);
      assert window[0] == catalog[offset] && window[1..] == Between(catalog, offset + 1, end);
    }
  }
}

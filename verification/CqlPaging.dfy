/**
 Paged reads over a server that pages in its own way. A page cut short by the row or byte limit is
 resumed by a cursor (state, skip, page size) that asks for the same server page again; following
 cursors gives back the whole result.
 */
module CqlPaging {
  import opened Options
  import opened Common

  datatype Row = Row(columns: map<string, string>)

  datatype Served = Served(rows: seq<Row>, next: Option<Bytes>)

  /**
   A server for one statement. `serve` answers a paging state (None at the start) and a page size;
   `issued` holds of the states it hands out and `position` says where in the full result they stand.
   */
  datatype Server = Server(
    result: seq<Row>,
    serve: (Option<Bytes>, nat) -> Served,
    issued: Option<Bytes> -> bool,
    position: Option<Bytes> -> nat)

  /**
   One page is a stretch of the result at the state's position, of any length the server likes; a state follows
   unless it was the last.
   */
  ghost predicate ContinuesAt(server: Server, at: nat, served: Served) {
    && Stretch(server.result, at, served.rows)
    && match served.next
       case None => at + |served.rows| == |server.result|
       case Some(state) => server.issued(served.next) && server.position(served.next) == at + |served.rows|
  }

  /** Section 8 of the CQL binary protocol v4: pages follow each other and the last one has no state. */
  ghost predicate Deterministic(server: Server) {
    && server.issued(None) && server.position(None) == 0
    && forall state, size ::
      server.issued(state) && size > 0 ==> ContinuesAt(server, server.position(state), server.serve(state, size))
  }

  // ---------------------------------------------------------------- cursors

  /** The cursor as the caller holds it; an empty state stands for the start of the result. */
  datatype Cursor = Cursor(state: Bytes, skip: nat, pageSize: Option<nat>)

  datatype Decoded = Decoded(state: Option<Bytes>, skip: nat, pageSize: nat)

  function DecodeCqlCursor(cursor: Cursor, defaultPageSize: nat): Result<Decoded> {
    if cursor.state == [] && cursor.skip == 0 then Err(InvalidRequest)
    else if cursor.skip > 0 && cursor.pageSize.None? then Err(InvalidRequest)
    else
      var pageSize := if cursor.pageSize.Some? then cursor.pageSize.value else defaultPageSize;
      if pageSize == 0 || cursor.skip >= pageSize then Err(InvalidRequest)
      else Ok(Decoded(if cursor.state == [] then None else Some(cursor.state), cursor.skip, pageSize))
  }

  /**
   A cursor decodes to a place exactly when the place is inside the page it asks for, a skip comes with its own
   page size, and it is not the start of the result.
   */
  lemma DecodesIff(cursor: Cursor, defaultPageSize: nat, from: Decoded)
    ensures DecodeCqlCursor(cursor, defaultPageSize) == Ok(from) <==>
      && from.skip < from.pageSize && from.state != Some([]) && from != Decoded(None, 0, from.pageSize)
      && cursor.state == (if from.state.Some? then from.state.value else []) && cursor.skip == from.skip
      && (cursor.pageSize == Some(from.pageSize)
          || (cursor.pageSize.None? && from.skip == 0 && from.pageSize == defaultPageSize))
  {
  }

  function EncodeCqlPageCursor(state: Option<Bytes>, skip: nat, pageSize: nat): Result<Cursor> {
    if skip > U32_MAX || skip >= pageSize then Err(ProtocolFailure)
    else Ok(Cursor(if state.Some? then state.value else [], skip, Some(pageSize)))
  }

  /** Every place inside a page can be encoded, as long as 32 bits can count the rows before it. */
  lemma EncodesIff(state: Option<Bytes>, skip: nat, pageSize: nat)
    ensures EncodeCqlPageCursor(state, skip, pageSize) ==
      if skip < pageSize && skip <= 0xFFFF_FFFF
      then Ok(Cursor(if state == None then [] else state.value, skip, Some(pageSize)))
      else Err(ProtocolFailure)
  {
  }

  // ---------------------------------------------------------------- one read

  datatype Call = Call(requested: nat, ceilings: Ceilings, size: Row -> nat, maxBytes: nat)

  datatype Page = Page(rows: seq<Row>, next: Option<Cursor>)

  /** Where a call starts reading. */
  function Start(call: Call, cursor: Option<Cursor>): Result<Decoded> {
    match EffectiveLimit(call.ceilings, call.requested)
    case Err(e) => Err(e)
    case Ok(limit) =>
      var decoded := if cursor.None? then Ok(Decoded(None, 0, limit)) else DecodeCqlCursor(cursor.value, limit);
      if decoded.Err? then decoded
      else if EffectiveLimit(call.ceilings, decoded.value.pageSize) != Ok(decoded.value.pageSize)
      then Err(InvalidRequest)
      else decoded
  }

  /** What is made of a server page: skip, cut to the row limit, cut to the byte limit, and a cursor. */
  function Cut(call: Call, limit: nat, from: Decoded, served: Served): Result<Page> {
    if from.skip > |served.rows| then Err(InvalidRequest)
    else
      var rest := served.rows[from.skip..];
      var short := rest[..Min(limit, |rest|)];
      var kept := short[..KeptCount(call.size, short, call.maxBytes)];
      if |kept| < |short| && kept == [] then Err(InvalidRequest)
      else if |rest| > limit || |kept| < |short| then
        match EncodeCqlPageCursor(from.state, from.skip + |kept|, from.pageSize)
        case Err(e) => Err(e)
        case Ok(next) => Ok(Page(kept, Some(next)))
      else Ok(Page(kept, if served.next.None? then None else Some(Cursor(served.next.value, 0, None))))
  }

  function ServedFor(server: Server, from: Decoded): Served {
    server.serve(from.state, Min(from.pageSize, I32_MAX))
  }

  function Read(server: Server, call: Call, cursor: Option<Cursor>): Result<Page> {
    match Start(call, cursor)
    case Err(e) => Err(e)
    case Ok(from) => Cut(call, EffectiveLimit(call.ceilings, call.requested).value, from, ServedFor(server, from))
  }

  /** The read as it runs: drain, truncate, trim to size. */
  method ExecuteRead(server: Server, call: Call, cursor: Option<Cursor>) returns (r: Result<Page>)
    requires call.maxBytes <= U64_MAX
    ensures r == Read(server, call, cursor)
  {
    var limit := EffectiveLimit(call.ceilings, call.requested);
    if limit.Err? { return Err(limit.error); }
    var from := Decoded(None, 0, limit.value);
    if cursor.Some? {
      var decoded := DecodeCqlCursor(cursor.value, limit.value);
      if decoded.Err? { return Err(decoded.error); }
      from := decoded.value;
    }
    var size := EffectiveLimit(call.ceilings, from.pageSize);
    if size != Ok(from.pageSize) { return Err(InvalidRequest); }
    r := CutPage(call, limit.value, from, ServedFor(server, from));
  }

  method CutPage(call: Call, limit: nat, from: Decoded, served: Served) returns (r: Result<Page>)
    requires call.maxBytes <= U64_MAX
    ensures r == Cut(call, limit, from, served)
  {
    if from.skip > |served.rows| { return Err(InvalidRequest); }
    var records, rowTruncated, byteTruncated := TrimRows(served.rows, from.skip, limit, call.size, call.maxBytes);
    if byteTruncated && records == [] { return Err(InvalidRequest); }
    if rowTruncated || byteTruncated {
      var next := EncodeCqlPageCursor(from.state, from.skip + |records|, from.pageSize);
      if next.Err? { return Err(next.error); }
      return Ok(Page(records, Some(next.value)));
    }
    return Ok(Page(records, if served.next.None? then None else Some(Cursor(served.next.value, 0, None))));
  }

  method TrimRows(rows: seq<Row>, skip: nat, limit: nat, size: Row -> nat, maxBytes: nat)
    returns (records: seq<Row>, rowTruncated: bool, byteTruncated: bool)
    requires skip <= |rows| && maxBytes <= U64_MAX
    ensures var rest := rows[skip..];
      var short := rest[..Min(limit, |rest|)];
      && records == short[..KeptCount(size, short, maxBytes)]
      && rowTruncated == (|rest| > limit) && byteTruncated == (|records| < |short|)
  {
    records := rows[skip..];
    rowTruncated := |records| > limit;
    records := records[..Min(limit, |records|)];
    ghost var short := records;
    records, byteTruncated := EnforceRecordsSize(records, size, maxBytes);
    assert short[..|short|] == short;
    KeptIsLongest(size, short, maxBytes, |short|);
  }

  /**
   A page has no more rows than asked for and than either ceiling allows, takes no more bytes than allowed, and the
   page size asked of the server lies within both ceilings and within 31 bits.
   */
  lemma PageWithinLimits(server: Server, call: Call, cursor: Option<Cursor>)
    requires Read(server, call, cursor).Ok?
    ensures var page, from := Read(server, call, cursor).value, Start(call, cursor).value;
      && |page.rows| <= call.requested && |page.rows| <= call.ceilings.context && |page.rows| <= call.ceilings.policy
      && Min(TotalSize(call.size, page.rows), 0xFFFF_FFFF_FFFF_FFFF) <= call.maxBytes
      && 0 < from.pageSize <= call.ceilings.context && from.pageSize <= call.ceilings.policy
      && ServedFor(server, from) ==
           server.serve(from.state, if from.pageSize <= 0x7FFF_FFFF then from.pageSize else 0x7FFF_FFFF)
  {
    var limit, from := EffectiveLimit(call.ceilings, call.requested).value, Start(call, cursor).value;
    LimitIsLeast(call.ceilings, call.requested, limit);
    LimitIsLeast(call.ceilings, from.pageSize, from.pageSize);
    CutWithinLimits(call, limit, from, ServedFor(server, from));
    StartPositive(call, cursor);
  }

  lemma CutWithinLimits(call: Call, limit: nat, from: Decoded, served: Served)
    requires Cut(call, limit, from, served).Ok?
    ensures |Cut(call, limit, from, served).value.rows| <= limit
    ensures Fits(call.size, Cut(call, limit, from, served).value.rows, call.maxBytes)
  {
  }

  /**
   A cursor that asks the server for pages longer than a ceiling is refused: a read starts from it exactly when it
   decodes within both.
   */
  lemma StartsIff(call: Call, cursor: Cursor)
    requires call.requested > 0
    ensures var limit := EffectiveLimit(call.ceilings, call.requested).value;
      var from := DecodeCqlCursor(cursor, limit);
      Start(call, Some(cursor)).Ok? <==>
        from.Ok? && from.value.pageSize <= call.ceilings.context && from.value.pageSize <= call.ceilings.policy
  {
  }

  // ---------------------------------------------------------------- one read against the full result

  /** The place in the result at which a decoded cursor resumes. */
  function Place(server: Server, from: Decoded): nat { server.position(from.state) + from.skip }

  /** The cursor comes from this server and, when it skips, the page it asks for again is longer than the skip. */
  predicate Resumes(server: Server, from: Decoded) {
    && server.issued(from.state)
    && (from.skip > 0 ==> from.skip < |ServedFor(server, from).rows|)
  }

  /** Every state of a cursor that decodes is a state of this server at a place inside the result. */
  ghost predicate Genuine(server: Server, cursor: Option<Cursor>) {
    forall call :: Start(call, cursor).Ok? ==> Resumes(server, Start(call, cursor).value)
  }

  ghost predicate CursorAt(server: Server, cursor: Option<Cursor>, place: nat) {
    forall call :: Start(call, cursor).Ok? ==> Place(server, Start(call, cursor).value) == place
  }

  lemma StartPositive(call: Call, cursor: Option<Cursor>)
    requires Start(call, cursor).Ok?
    ensures EffectiveLimit(call.ceilings, call.requested).Ok? && Start(call, cursor).value.pageSize > 0
    ensures EffectiveLimit(call.ceilings, call.requested).value > 0
  {
  }

  /** A page is the stretch of the result at its place; without a cursor it is the last. */
  lemma PageIsStretch(server: Server, call: Call, cursor: Option<Cursor>)
    requires Deterministic(server) && Genuine(server, cursor) && Read(server, call, cursor).Ok?
    ensures var page, place := Read(server, call, cursor).value, Place(server, Start(call, cursor).value);
      && Stretch(server.result, place, page.rows)
      && (page.next.None? ==> place + |page.rows| == |server.result|)
  {
    StartPositive(call, cursor);
    var from := Start(call, cursor).value;
    var served := ServedFor(server, from);
    var page, at := Read(server, call, cursor).value, server.position(from.state);
    assert ContinuesAt(server, at, served);
    CutIsStretch(call, EffectiveLimit(call.ceilings, call.requested).value, from, served);
    StretchInside(server.result, at, served.rows, from.skip, page.rows);
  }

  /** A page is a stretch of the server's page behind the skipped rows. */
  lemma CutIsStretch(call: Call, limit: nat, from: Decoded, served: Served)
    requires Cut(call, limit, from, served).Ok?
    ensures var page := Cut(call, limit, from, served).value;
      && Stretch(served.rows, from.skip, page.rows)
      && (page.next.None? ==> served.next.None? && from.skip + |page.rows| == |served.rows|)
  {
  }

  /** The next cursor is genuine and stands where the page ended. */
  lemma NextContinues(server: Server, call: Call, cursor: Option<Cursor>)
    requires Deterministic(server) && Genuine(server, cursor) && Read(server, call, cursor).Ok?
    requires Read(server, call, cursor).value.next.Some?
    ensures var page, place := Read(server, call, cursor).value, Place(server, Start(call, cursor).value);
      && Genuine(server, page.next) && CursorAt(server, page.next, place + |page.rows|)
  {
    StartPositive(call, cursor);
    var from := Start(call, cursor).value;
    var served := ServedFor(server, from);
    assert ContinuesAt(server, server.position(from.state), served);
    var page := Read(server, call, cursor).value;
    forall other: Call | Start(other, page.next).Ok?
      ensures Resumes(server, Start(other, page.next).value)
      ensures Place(server, Start(other, page.next).value) == Place(server, from) + |page.rows|
    {
      var again := Start(other, page.next).value;
      if page.next.value.pageSize.Some? {
        NormalState(call, cursor);
        assert again == Decoded(from.state, from.skip + |page.rows|, from.pageSize);
      } else {
        assert again.state == served.next && again.skip == 0;
      }
    }
  }

  /** A decoded state is never the empty byte string. */
  lemma NormalState(call: Call, cursor: Option<Cursor>)
    requires Start(call, cursor).Ok?
    ensures Start(call, cursor).value.state != Some([])
  {
  }

  /** A page cut short returns at least one row, so its cursor stands further on. */
  lemma TruncatedPageAdvances(server: Server, call: Call, cursor: Option<Cursor>)
    requires Read(server, call, cursor).Ok? && Read(server, call, cursor).value.next.Some?
    requires Read(server, call, cursor).value.next.value.skip > 0
      || Read(server, call, cursor).value.next.value.pageSize.Some?
    ensures Read(server, call, cursor).value.rows != []
    ensures Read(server, call, cursor).value.next.value.skip > Start(call, cursor).value.skip
  {
    StartPositive(call, cursor);
  }

  /** Nothing of the server's page was cut off. */
  predicate Uncut(server: Server, call: Call, cursor: Option<Cursor>, page: Page) {
    Start(call, cursor).Ok? &&
      var from := Start(call, cursor).value;
      from.skip + |page.rows| == |ServedFor(server, from).rows|
  }

  lemma CutSetsPageSize(call: Call, limit: nat, from: Decoded, served: Served)
    requires Cut(call, limit, from, served).Ok? && Cut(call, limit, from, served).value.next.Some?
    ensures var page := Cut(call, limit, from, served).value;
      && (page.next.value.pageSize.None? <==> from.skip + |page.rows| == |served.rows|)
      && (page.next.value.pageSize.None? ==> served.next == Some(page.next.value.state) && page.next.value.skip == 0)
  {
  }

  /**
   An emitted cursor passes every check of the decoder under every later row limit if and only if it does not
   stand behind a whole server page that the server continued with an empty state; and its skip lies within the
   page it asks for.
   */
  lemma EmittedCursorDecodes(server: Server, call: Call, cursor: Option<Cursor>, limit: nat)
    requires Deterministic(server) && Genuine(server, cursor) && limit > 0
    requires Read(server, call, cursor).Ok? && Read(server, call, cursor).value.next.Some?
    ensures var page := Read(server, call, cursor).value;
      DecodeCqlCursor(page.next.value, limit).Ok? <==>
        !(Uncut(server, call, cursor, page) && ServedFor(server, Start(call, cursor).value).next == Some([]))
    ensures var next := Read(server, call, cursor).value.next.value;
      DecodeCqlCursor(next, limit).Ok? ==>
        DecodeCqlCursor(next, limit).value.skip <= |ServedFor(server, DecodeCqlCursor(next, limit).value).rows|
  {
    StartPositive(call, cursor);
    NormalState(call, cursor);
    var page, from := Read(server, call, cursor).value, Start(call, cursor).value;
    CutSetsPageSize(call, EffectiveLimit(call.ceilings, call.requested).value, from, ServedFor(server, from));
    if page.next.value.pageSize.Some? {
      TruncatedPageAdvances(server, call, cursor);
    }
  }

  /** A server that says there is more after its only row, but continues with an empty state. */
  function EmptyStateServer(row: Row): Server {
    Server([row],
           (state: Option<Bytes>, size) => if state.None? then Served([row], Some([])) else Served([], None),
           state => state == None || state == Some([]),
           (state: Option<Bytes>) => if state.None? then 0 else 1)
  }

  /** It pages as it should, and yet the cursor behind its first page is refused under every limit. */
  lemma EmptyStateIsRefused(row: Row, size: Row -> nat, limit: nat)
    requires limit > 0 && size(row) <= U64_MAX
    ensures Deterministic(EmptyStateServer(row))
    ensures var page := Read(EmptyStateServer(row), Call(1, Ceilings(1, 1), size, size(row)), None);
      page == Ok(Page([row], Some(Cursor([], 0, None)))) && DecodeCqlCursor(page.value.next.value, limit).Err?
  {
    var none: seq<Row> := [];
    assert [row][..0] == none;
    assert TotalSize(size, [row]) == TotalSize(size, none) + size(row);
    assert Fits(size, [row], size(row));
    assert [row][0..] == [row] && [row][..1] == [row];
  }

  // ---------------------------------------------------------------- chains of reads

  datatype Step = Step(call: Call, page: Page)

  /** Successful reads, each with its own limits, each following the cursor of the one before. */
  ghost predicate Chain(server: Server, cursor: Option<Cursor>, steps: seq<Step>)
    decreases |steps|
  {
    steps == [] ||
    ( && Read(server, steps[0].call, cursor) == Ok(steps[0].page)
      && (|steps| > 1 ==> steps[0].page.next.Some?)
      && Chain(server, steps[0].page.next, steps[1..]))
  }

  function Rows(steps: seq<Step>): seq<Row> {
    if steps == [] then [] else steps[0].page.rows + Rows(steps[1..])
  }

  lemma {:induction false} ChainFrom(server: Server, cursor: Option<Cursor>, place: nat, steps: seq<Step>)
    requires Deterministic(server) && Genuine(server, cursor) && CursorAt(server, cursor, place)
    requires steps != [] && Chain(server, cursor, steps)
    ensures Reaches(server.result, place, steps)
    decreases |steps|
  {
    var first, others := steps[0], steps[1..];
    PageAt(server, first.call, cursor, place, first.page);
    if others != [] {
      ChainFrom(server, first.page.next, place + |first.page.rows|, others);
    }
    ReachesFurther(server.result, place, first, others);
    assert steps == [first] + others;
  }

  /** The rows of a chain stand at `place`, and a chain that ends reaches the end. */
  ghost predicate Reaches(all: seq<Row>, place: nat, steps: seq<Step>)
    requires steps != []
  {
    && Stretch(all, place, Rows(steps))
    && (steps[|steps| - 1].page.next.None? ==> place + |Rows(steps)| == |all|)
  }

  lemma ReachesFurther(all: seq<Row>, place: nat, first: Step, others: seq<Step>)
    requires Stretch(all, place, first.page.rows)
    requires if others == [] then first.page.next.None? ==> place + |first.page.rows| == |all|
             else Reaches(all, place + |first.page.rows|, others)
    ensures Reaches(all, place, [first] + others)
  {
    var steps := [first] + others;
    assert steps[1..] == others;
    StretchesJoin(all, place, first.page.rows, Rows(others));
  }

  lemma PageAt(server: Server, call: Call, cursor: Option<Cursor>, place: nat, page: Page)
    requires Deterministic(server) && Genuine(server, cursor) && CursorAt(server, cursor, place)
    requires Read(server, call, cursor) == Ok(page)
    ensures Stretch(server.result, place, page.rows)
    ensures page.next.None? ==> place + |page.rows| == |server.result|
    ensures page.next.Some? ==> Genuine(server, page.next) && CursorAt(server, page.next, place + |page.rows|)
  {
    PageIsStretch(server, call, cursor);
    assert Place(server, Start(call, cursor).value) == place;
    if page.next.Some? {
      NextContinues(server, call, cursor);
    }
  }

  /**
   Following cursors from the start gives the result in order with nothing lost or repeated, whatever
   limits each call carries and whatever page lengths the server chooses; a chain that ends gives all of it.
   */
  lemma ChainGivesWholeResult(server: Server, steps: seq<Step>)
    requires Deterministic(server) && steps != [] && Chain(server, None, steps)
    ensures Rows(steps) <= server.result
    ensures steps[|steps| - 1].page.next.None? ==> Rows(steps) == server.result
  {
    ChainFrom(server, None, 0, steps);
    WholeStretch(server.result, Rows(steps));
  }
}

/**
 Table scans resumed by row key. The cursor is the last row key of a page; the next scan starts at
 that key with a zero byte appended, which is the least byte string above it.
 */
module HBaseScan {
  import opened Options
  import opened Common

  const ROW_KEY: string := "$row_key"

  // ---------------------------------------------------------------- byte-string order

  predicate Less(a: Bytes, b: Bytes) {
    b != [] && (a == [] || a[0] < b[0] || (a[0] == b[0] && Less(a[1..], b[1..])))
  }

  predicate FirstDifference(a: Bytes, b: Bytes, k: nat) {
    && k <= |a| && k < |b| && (k == |a| || a[k] < b[k])
    && forall i :: 0 <= i < k ==> a[i] == b[i]
  }

  /** Byte strings stand in lexicographic order: by the first byte they differ in, the shorter one first if none. */
  lemma {:induction false} LessIsLexicographic(a: Bytes, b: Bytes)
    ensures Less(a, b) <==> exists k: nat :: FirstDifference(a, b, k)
    decreases |a|
  {
    if a == [] || b == [] || a[0] != b[0] {
      assert Less(a, b) ==> FirstDifference(a, b, 0);
    } else {
      LessIsLexicographic(a[1..], b[1..]);
      forall k: nat ensures FirstDifference(a[1..], b[1..], k) <==> FirstDifference(a, b, k + 1) {
        FirstDifferenceBehind(a, b, k);
      }
      if Less(a, b) {
        var k: nat :| FirstDifference(a[1..], b[1..], k);
        assert FirstDifference(a, b, k + 1);
      }
      if k: nat :| FirstDifference(a, b, k) {
        assert FirstDifference(a[1..], b[1..], k - 1);
      }
    }
  }

  lemma FirstDifferenceBehind(a: Bytes, b: Bytes, k: nat)
    requires a != [] && b != [] && a[0] == b[0]
    ensures FirstDifference(a[1..], b[1..], k) <==> FirstDifference(a, b, k + 1)
  {
    if FirstDifference(a, b, k + 1) {
      forall i | 0 <= i < k ensures a[1..][i] == b[1..][i] { assert a[i + 1] == b[i + 1]; }
    }
    if FirstDifference(a[1..], b[1..], k) {
      forall i | 0 <= i < k + 1 ensures a[i] == b[i] {
        if i > 0 { assert a[1..][i - 1] == b[1..][i - 1]; }
      }
    }
  }

  /** `row` with a zero byte is above `row`, and nothing lies between the two. */
  lemma {:induction false} LeastAbove(row: Bytes, other: Bytes)
    ensures Less(row, row + [0])
    ensures Less(row, other) <==> !Less(other, row + [0])
    decreases |row|
  {
    var above := row + [0];
    if row != [] {
      assert above[0] == row[0] && above[1..] == row[1..] + [0];
      LeastAbove(row[1..], if other == [] then [] else other[1..]);
    } else {
      assert above == [0];
      assert other != [] && other[0] == 0 ==> !Less(other[1..], above[1..]);
    }
  }

  // ---------------------------------------------------------------- tables, records, scans

  datatype TableRow = TableRow(key: Bytes, cells: map<string, Bytes>)

  type Record = map<string, Bytes>

  /** A region server: its rows, and where a scan from a start key begins. */
  datatype Server = Server(table: seq<TableRow>, firstFrom: Option<Bytes> -> nat)

  /** Rows stand in strictly ascending key order, and a scan begins at the first row that is not below its start key. */
  ghost predicate Honest(server: Server) {
    && (forall i, j :: 0 <= i < j < |server.table| ==> Below(server.table, i, j))
    && server.firstFrom(None) == 0
    && (forall start :: BeginsAt(server.table, start, server.firstFrom(Some(start))))
  }

  predicate Below(table: seq<TableRow>, i: nat, j: nat)
    requires i < |table| && j < |table|
  {
    Less(table[i].key, table[j].key)
  }

  ghost predicate BeginsAt(table: seq<TableRow>, start: Bytes, first: nat) {
    first <= |table| && forall i :: 0 <= i < |table| ==> (i < first <==> Under(table, i, start))
  }

  predicate Under(table: seq<TableRow>, i: nat, start: Bytes)
    requires i < |table|
  {
    Less(table[i].key, start)
  }

  /** Column names have the form family:qualifier, so none of them is the row-key name. */
  predicate Columns(table: seq<TableRow>) {
    forall i :: 0 <= i < |table| ==> ColumnNames(table[i])
  }

  predicate ColumnNames(row: TableRow) { ROW_KEY !in row.cells }

  function Scan(server: Server, start: Option<Bytes>, count: nat): seq<TableRow> {
    var from := Min(server.firstFrom(start), |server.table|);
    server.table[from..Min(from + count, |server.table|)]
  }

  function ResultToRecord(row: TableRow): Record {
    map[ROW_KEY := row.key] + row.cells
  }

  predicate Selects(field: string, name: string) {
    name == field || (':' !in field && field <= name && |name| > |field| && name[|field|] == ':')
  }

  predicate KeepsColumn(name: string, fields: seq<string>) {
    name == ROW_KEY || exists i :: 0 <= i < |fields| && Selects(fields[i], name)
  }

  function Projected(record: Record, fields: seq<string>): Record {
    if fields == [] then record
    else map name | name in record && KeepsColumn(name, fields) :: record[name]
  }

  function RecordOf(row: TableRow, fields: seq<string>): Record { Projected(ResultToRecord(row), fields) }

  /** The column is the row key, or a cell the fields ask for by its full name or by its family. */
  ghost predicate Shown(row: TableRow, fields: seq<string>, name: string) {
    name == "$row_key"
      || (name in row.cells && (fields == [] || exists i :: 0 <= i < |fields| && AsksFor(fields[i], name)))
  }

  ghost predicate AsksFor(field: string, name: string) {
    name == field || (':' !in field && exists qualifier :: name == field + ":" + qualifier)
  }

  /** A record holds exactly the columns to be shown, each with its value. */
  ghost predicate Shows(record: Record, row: TableRow, fields: seq<string>) {
    forall name ::
      && (name in record <==> Shown(row, fields, name))
      && (name in record ==> record[name] == if name == "$row_key" then row.key else row.cells[name])
  }

  lemma SelectsIff(field: string, name: string)
    ensures Selects(field, name) <==> AsksFor(field, name)
  {
    if Selects(field, name) && name != field {
      assert name == field + ":" + name[|field| + 1..];
    }
    if qualifier :| name == field + ":" + qualifier && ':' !in field {
      assert name == field + (":" + qualifier);
    }
  }

  lemma RecordShows(row: TableRow, fields: seq<string>)
    requires ColumnNames(row)
    ensures Shows(RecordOf(row, fields), row, fields)
  {
    forall field, name ensures Selects(field, name) <==> AsksFor(field, name) { SelectsIff(field, name); }
  }

  function Records(rows: seq<TableRow>, fields: seq<string>): (records: seq<Record>)
    ensures |records| == |rows|
    ensures forall i :: 0 <= i < |rows| ==> records[i] == RecordOf(rows[i], fields)
  {
    seq(|rows|, i requires 0 <= i < |rows| => RecordOf(rows[i], fields))
  }

  // ---------------------------------------------------------------- one read

  datatype Call = Call(requested: nat, ceilings: Ceilings, size: Record -> nat, maxBytes: nat)

  datatype Page = Page(records: seq<Record>, next: Option<Bytes>, truncated: bool)

  function StartRow(cursor: Option<Bytes>): Option<Bytes> {
    if cursor.None? then None else Some(cursor.value + [0])
  }

  function FetchCount(limit: nat): nat { Min(Min(limit + 1, U32_MAX), I32_MAX) }

  function Limit(call: Call): Result<nat> { EffectiveLimit(call.ceilings, call.requested) }

  function LastKey(records: seq<Record>): Option<Bytes> {
    if records != [] && ROW_KEY in records[|records| - 1] then Some(records[|records| - 1][ROW_KEY]) else None
  }

  function Cut(call: Call, fields: seq<string>, limit: nat, results: seq<TableRow>): Result<Page> {
    var records := Records(results[..Min(limit, |results|)], fields);
    var kept := records[..KeptCount(call.size, records, call.maxBytes)];
    if |kept| < |records| && kept == [] then Err(InvalidRequest)
    else
      var truncated := |results| > limit || |kept| < |records|;
      Ok(Page(kept, if truncated then LastKey(kept) else None, truncated))
  }

  function Read(server: Server, fields: seq<string>, call: Call, cursor: Option<Bytes>): Result<Page> {
    match Limit(call)
    case Err(e) => Err(e)
    case Ok(limit) => Cut(call, fields, limit, Scan(server, StartRow(cursor), FetchCount(limit)))
  }

  /** The read as it runs, truncating and projecting the fetched rows. */
  method ReadSync(server: Server, fields: seq<string>, call: Call, cursor: Option<Bytes>) returns (r: Result<Page>)
    requires call.maxBytes <= U64_MAX
    ensures r == Read(server, fields, call, cursor)
  {
    var limit := EffectiveLimit(call.ceilings, call.requested);
    if limit.Err? { return Err(limit.error); }
    var results := Scan(server, StartRow(cursor), FetchCount(limit.value));
    var rowTruncated := |results| > limit.value;
    results := results[..Min(limit.value, |results|)];
    var records := ProjectRecords(results, fields);
    ghost var projected := records;
    var byteTruncated;
    records, byteTruncated := EnforceRecordsSize(records, call.size, call.maxBytes);
    assert projected[..|projected|] == projected;
    KeptIsLongest(call.size, projected, call.maxBytes, |projected|);
    if byteTruncated && records == [] { return Err(InvalidRequest); }
    var truncated := rowTruncated || byteTruncated;
    return Ok(Page(records, if truncated then LastKey(records) else None, truncated));
  }

  method ProjectRecords(rows: seq<TableRow>, fields: seq<string>) returns (records: seq<Record>)
    ensures records == Records(rows, fields)
  {
    records := [];
    for i := 0 to |rows|
      invariant |records| == i && forall k :: 0 <= k < i ==> records[k] == RecordOf(rows[k], fields)
    {
      records := records + [RecordOf(rows[i], fields)];
    }
  }

  /** Projection keeps the row key, so every non-empty page knows where it ended. */
  lemma KeyIsKept(row: TableRow, fields: seq<string>)
    requires ColumnNames(row)
    ensures ROW_KEY in RecordOf(row, fields) && RecordOf(row, fields)[ROW_KEY] == row.key
  {
  }

  // ---------------------------------------------------------------- one read against the table

  /** Whatever the cursor, known to the table or not, the scan starts at the first row above it. */
  lemma ScanStartsAbove(server: Server, cursor: Bytes, i: nat)
    requires Honest(server) && i < |server.table|
    ensures server.firstFrom(StartRow(Some(cursor))) <= i <==> Less(cursor, server.table[i].key)
  {
    LeastAbove(cursor, server.table[i].key);
    assert BeginsAt(server.table, cursor + [0], server.firstFrom(Some(cursor + [0])));
    assert Under(server.table, i, cursor + [0]) <==> Less(server.table[i].key, cursor + [0]);
  }

  /** The cursor of row k - 1 resumes at row k. */
  lemma ResumesBehind(server: Server, k: nat)
    requires Honest(server) && 0 < k <= |server.table|
    ensures server.firstFrom(StartRow(Some(server.table[k - 1].key))) == k
  {
    var key := server.table[k - 1].key;
    assert BeginsAt(server.table, key + [0], server.firstFrom(Some(key + [0])));
    LeastAbove(key, key);
    assert Under(server.table, k - 1, key + [0]);
    if k < |server.table| {
      ScanStartsAbove(server, key, k);
      assert Below(server.table, k - 1, k);
    }
  }

  /** A cursor as this connector hands it out, standing before row `place`. */
  predicate CursorAt(table: seq<TableRow>, cursor: Option<Bytes>, place: nat) {
    place <= |table| && (if cursor.None? then place == 0 else place > 0 && cursor.value == table[place - 1].key)
  }

  lemma ScanAt(server: Server, cursor: Option<Bytes>, place: nat, count: nat)
    requires Honest(server) && CursorAt(server.table, cursor, place)
    ensures Scan(server, StartRow(cursor), count) == server.table[place..Min(place + count, |server.table|)]
  {
    if place > 0 {
      ResumesBehind(server, place);
    }
  }

  /** The key of the last record is the cursor behind the stretch. */
  lemma LastKeyOfStretch(table: seq<TableRow>, fields: seq<string>, place: nat, records: seq<Record>)
    requires Columns(table) && Stretch(Records(table, fields), place, records) && records != []
    ensures LastKey(records).Some? && CursorAt(table, LastKey(records), place + |records|)
  {
    var last := |records| - 1;
    assert records[last] == RecordOf(table[place + last], fields) && ColumnNames(table[place + last]);
    KeyIsKept(table[place + last], fields);
  }

  /** The last row was reached, or one call could not ask for all the rows that were left. */
  predicate Complete(table: seq<TableRow>, place: nat, limit: nat) {
    0 < limit < 0x7FFF_FFFF || |table| <= place + Min(limit, 0x7FFF_FFFF)
  }

  /**
   A page holds the first records of what was fetched; it is marked as truncated when some are missing, and empty
   only if it had to be.
   */
  predicate PageOf(results: seq<TableRow>, fields: seq<string>, limit: nat, page: Page) {
    var count := |page.records|;
    && count <= limit && count <= |results|
    && (forall i :: 0 <= i < count ==> page.records[i] == RecordOf(results[i], fields))
    && (page.truncated <==> count < |results|)
    && (count == 0 ==> limit == 0 || results == [])
    && page.next == (if page.truncated then LastKey(page.records) else None)
  }

  /** The page is one that a read at this cursor may return under this row limit, wherever the byte limit cuts. */
  predicate Answers(server: Server, fields: seq<string>, limit: nat, cursor: Option<Bytes>, page: Page) {
    PageOf(Scan(server, StartRow(cursor), FetchCount(limit)), fields, limit, page)
  }

  lemma ReadAnswers(server: Server, fields: seq<string>, call: Call, cursor: Option<Bytes>)
    requires Read(server, fields, call, cursor).Ok?
    ensures Answers(server, fields, Limit(call).value, cursor, Read(server, fields, call, cursor).value)
  {
    CutGivesPage(call, fields, Limit(call).value, Scan(server, StartRow(cursor), FetchCount(Limit(call).value)));
  }

  /** Of a table of such rows, each record of a page shows exactly the columns asked for of the row it came from. */
  lemma PageShowsColumns(server: Server, fields: seq<string>, call: Call, cursor: Option<Bytes>)
    requires Columns(server.table) && Read(server, fields, call, cursor).Ok?
    ensures var page := Read(server, fields, call, cursor).value;
      && |page.records| <= call.requested
      && |page.records| <= call.ceilings.context && |page.records| <= call.ceilings.policy
      && Min(TotalSize(call.size, page.records), 0xFFFF_FFFF_FFFF_FFFF) <= call.maxBytes
      && |page.records| <= |Scan(server, StartRow(cursor), FetchCount(Limit(call).value))|
      && forall i :: 0 <= i < |page.records| ==>
           Shows(page.records[i], Scan(server, StartRow(cursor), FetchCount(Limit(call).value))[i], fields)
  {
    ReadAnswers(server, fields, call, cursor);
    LimitIsLeast(call.ceilings, call.requested, Limit(call).value);
    CutGivesPage(call, fields, Limit(call).value, Scan(server, StartRow(cursor), FetchCount(Limit(call).value)));
    var page, rows := Read(server, fields, call, cursor).value, Scan(server, StartRow(cursor),
      FetchCount(Limit(call).value));
    forall i | 0 <= i < |page.records| ensures Shows(page.records[i], rows[i], fields) {
      assert exists k :: 0 <= k < |server.table| && server.table[k] == rows[i] && ColumnNames(server.table[k]);
      RecordShows(rows[i], fields);
    }
  }

  lemma CutGivesPage(call: Call, fields: seq<string>, limit: nat, results: seq<TableRow>)
    requires Cut(call, fields, limit, results).Ok?
    ensures PageOf(results, fields, limit, Cut(call, fields, limit, results).value)
    ensures Fits(call.size, Cut(call, fields, limit, results).value.records, call.maxBytes)
  {
    var short := results[..Min(limit, |results|)];
    assert forall i :: 0 <= i < |short| ==> Records(short, fields)[i] == RecordOf(results[i], fields);
  }

  lemma PageIsStretchOf(table: seq<TableRow>, fields: seq<string>, place: nat, end: nat, limit: nat, page: Page)
    requires Columns(table) && place <= end <= |table| && PageOf(table[place..end], fields, limit, page)
    ensures Stretch(Records(table, fields), place, page.records)
    ensures page.next.Some? <==> page.truncated && page.records != []
    ensures page.next.Some? ==> CursorAt(table, page.next, place + |page.records|)
  {
    forall i | 0 <= i < |page.records| ensures page.records[i] == Records(table, fields)[place + i] {
      assert table[place..end][i] == table[place + i];
    }
    if page.records != [] {
      LastKeyOfStretch(table, fields, place, page.records);
    }
  }

  /**
   A page is the next stretch of rows, and its cursor stands right behind it. A page without a cursor
   is the last one exactly when the limit is positive and below the 32-bit maximum, or no more rows
   are left than one call can ask for.
   */
  lemma PageIsStretch(server: Server, fields: seq<string>, limit: nat, cursor: Option<Bytes>, place: nat, page: Page)
    requires Honest(server) && Columns(server.table) && CursorAt(server.table, cursor, place)
    requires Answers(server, fields, limit, cursor, page)
    ensures Follows(server.table, fields, place, limit, page)
  {
    ScanAt(server, cursor, place, FetchCount(limit));
    PageOfFollows(server.table, fields, place, limit, page);
  }

  lemma PageOfFollows(table: seq<TableRow>, fields: seq<string>, place: nat, limit: nat, page: Page)
    requires Columns(table) && place <= |table|
    requires PageOf(table[place..Min(place + FetchCount(limit), |table|)], fields, limit, page)
    ensures Follows(table, fields, place, limit, page)
  {
    PageIsStretchOf(table, fields, place, Min(place + FetchCount(limit), |table|), limit, page);
    if page.next.None? {
      CompleteIff(table, place, limit, |page.records|);
    }
  }

  ghost predicate Follows(table: seq<TableRow>, fields: seq<string>, place: nat, limit: nat, page: Page) {
    && Stretch(Records(table, fields), place, page.records)
    && (page.next.Some? ==> page.records != [] && CursorAt(table, page.next, place + |page.records|))
    && (page.next.None? ==> (place + |page.records| == |table| <==> Complete(table, place, limit)))
  }

  /** When everything fetched was returned, the rows left over are those one call could not ask for. */
  lemma CompleteIff(table: seq<TableRow>, place: nat, limit: nat, count: nat)
    requires place <= |table| && count <= limit && place + count <= Min(place + FetchCount(limit), |table|)
    requires place + count == Min(place + FetchCount(limit), |table|) || (count == 0 && limit == 0)
    ensures place + count == |table| <==> Complete(table, place, limit)
  {
  }

  // ---------------------------------------------------------------- chains of reads

  /** Successful reads with ordinary limits, each following the cursor of the one before. */
  ghost predicate Chain(server: Server, fields: seq<string>, cursor: Option<Bytes>, limits: seq<nat>, pages: seq<Page>)
    decreases |pages|
  {
    |limits| == |pages| &&
    (pages == [] ||
     ( && Answers(server, fields, limits[0], cursor, pages[0]) && 0 < limits[0] < I32_MAX
       && (|pages| > 1 ==> pages[0].next.Some?)
       && Chain(server, fields, pages[0].next, limits[1..], pages[1..])))
  }

  function Collected(pages: seq<Page>): seq<Record> {
    if pages == [] then [] else pages[0].records + Collected(pages[1..])
  }

  /** Pages that lie behind each other, the first at `place`; only the last may be without a cursor. */
  ghost predicate Laid(all: seq<Record>, place: nat, pages: seq<Page>)
    decreases |pages|
  {
    pages == [] ||
    ( && Behind(all, place, pages[0])
      && (pages[0].next.None? ==> |pages| == 1)
      && Laid(all, place + |pages[0].records|, pages[1..]))
  }

  /** The page stands at `place` and, unless it is the last, is not empty. */
  ghost predicate Behind(all: seq<Record>, place: nat, page: Page) {
    && Stretch(all, place, page.records)
    && (page.next.None? ==> place + |page.records| == |all|)
    && (page.next.Some? ==> page.records != [])
  }

  lemma OrdinaryPage(server: Server, fields: seq<string>, limit: nat, cursor: Option<Bytes>, place: nat, page: Page)
    requires Honest(server) && Columns(server.table) && CursorAt(server.table, cursor, place)
    requires Answers(server, fields, limit, cursor, page) && 0 < limit < I32_MAX
    ensures Behind(Records(server.table, fields), place, page)
    ensures page.next.Some? ==> CursorAt(server.table, page.next, place + |page.records|)
  {
    PageIsStretch(server, fields, limit, cursor, place, page);
  }

  /** A table as it should be, all of whose records are these. */
  ghost predicate AllRecords(server: Server, fields: seq<string>, all: seq<Record>) {
    Honest(server) && Columns(server.table) && all == Records(server.table, fields)
  }

  lemma {:induction false} ChainIsLaid(server: Server, fields: seq<string>, cursor: Option<Bytes>, place: nat,
                                       limits: seq<nat>, pages: seq<Page>, all: seq<Record>)
    requires AllRecords(server, fields, all) && CursorAt(server.table, cursor, place)
    requires Chain(server, fields, cursor, limits, pages)
    ensures Laid(all, place, pages)
    decreases |pages|
  {
    if pages != [] {
      ChainHead(server, fields, cursor, place, limits, pages, all);
      var next, behind := pages[0].next, place + |pages[0].records|;
      if next.Some? {
        ChainIsLaid(server, fields, next, behind, limits[1..], pages[1..], all);
      }
    }
  }

  lemma ChainHead(server: Server, fields: seq<string>, cursor: Option<Bytes>, place: nat, limits: seq<nat>,
                  pages: seq<Page>, all: seq<Record>)
    requires AllRecords(server, fields, all) && CursorAt(server.table, cursor, place)
    requires pages != [] && Chain(server, fields, cursor, limits, pages)
    ensures Behind(all, place, pages[0])
    ensures pages[0].next.Some? ==>
      && CursorAt(server.table, pages[0].next, place + |pages[0].records|)
      && Chain(server, fields, pages[0].next, limits[1..], pages[1..])
    ensures pages[0].next.None? ==> |pages| == 1
  {
    OrdinaryPage(server, fields, limits[0], cursor, place, pages[0]);
  }

  lemma {:induction false} LaidCovers(all: seq<Record>, place: nat, pages: seq<Page>)
    requires pages != [] && Laid(all, place, pages)
    ensures Stretch(all, place, Collected(pages))
    ensures pages[|pages| - 1].next.None? ==> place + |Collected(pages)| == |all|
    ensures |pages| <= |all| - place + 1
    decreases |pages|
  {
    var first, others := pages[0].records, pages[1..];
    if others == [] {
      assert Collected(pages) == first + [] == first;
    } else {
      assert others[|others| - 1] == pages[|pages| - 1];
      LaidCovers(all, place + |first|, others);
      StretchesJoin(all, place, first, Collected(others));
    }
  }

  /** Chained pages return every row of the table once and in key order, and there are at most |table| + 1 of them. */
  lemma ChainGivesWholeTable(server: Server, fields: seq<string>, limits: seq<nat>, pages: seq<Page>)
    requires Honest(server) && Columns(server.table) && pages != [] && Chain(server, fields, None, limits, pages)
    ensures Collected(pages) <= Records(server.table, fields)
    ensures pages[|pages| - 1].next.None? ==> Collected(pages) == Records(server.table, fields)
    ensures |pages| <= |server.table| + 1
  {
    var all := Records(server.table, fields);
    ChainIsLaid(server, fields, None, 0, limits, pages, all);
    LaidCovers(all, 0, pages);
    WholeStretch(Records(server.table, fields), Collected(pages));
  }

  /** With a row ceiling of zero the first page is empty and marked as truncated, but has no cursor to go on from. */
  lemma ZeroCeilingStopsTheScan(row: TableRow, size: Record -> nat)
    ensures Read(Server([row], _ => 0), [], Call(1, Ceilings(0, 1), size, 0), None) == Ok(Page([], None, true))
  {
    var none: seq<Record> := [];
    assert Scan(Server([row], _ => 0), None, 1) == [row];
    assert KeptCount(size, none, 0) == 0;
  }
}

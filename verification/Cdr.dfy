/** internal/pbxware/cdr.go: reading call records page by page until they get too old, and finding each call's
    record among those of its extension. */
module Cdr {
  import opened Text

  // ---------------------------------------------------------------------------------------------
  // One page
  // ---------------------------------------------------------------------------------------------

  /** A cell is a string or something else. */
  type Cell = Option<string>

  datatype Row = NotARow | Row(cells: seq<Cell>)

  datatype Page = Page(header: seq<Cell>, rows: seq<Row>, next: bool)

  datatype Response = CallFails | Got(page: Page)

  datatype Record = Record(uniqueID: string, start: int, duration: int, available: bool, status: string)

  datatype Columns = Columns(id: nat, start: nat, duration: nat, available: nat, status: Option<nat>)

  /** The last column of that name. */
  function Column(header: seq<Cell>, name: string): Option<nat> {
    if header == [] then None
    else if header[|header| - 1] == Some(name) then Some(|header| - 1)
    else Column(header[..|header| - 1], name)
  }

  /** A column is found exactly when the header has a cell of that name, and then it is the last such cell. */
  lemma {:induction false} ColumnIsLast(header: seq<Cell>, name: string)
    ensures match Column(header, name)
      case Some(i) => i < |header| && header[i] == Some(name) && forall j | i < j < |header| :: header[j] != Some(name)
      case None => forall j | 0 <= j < |header| :: header[j] != Some(name)
  {
    if header != [] { ColumnIsLast(header[..|header| - 1], name); }
  }

  const UNIQUE_ID := "Unique ID"
  const DATE_TIME := "Date/Time"
  const TOTAL_DURATION := "Total Duration"
  const RECORDING_AVAILABLE := "Recording Available"
  const STATUS := "Status"

  function FindColumns(header: seq<Cell>): Option<Columns> {
    var id, start := Column(header, UNIQUE_ID), Column(header, DATE_TIME);
    var duration, available := Column(header, TOTAL_DURATION), Column(header, RECORDING_AVAILABLE);
    if id.None? || start.None? || duration.None? || available.None? then None
    else Some(Columns(id.value, start.value, duration.value, available.value, Column(header, STATUS)))
  }

  function Str(c: Cell): string { if c.Some? then c.value else "" }

  const MAX_INT := 0x7FFF_FFFF_FFFF_FFFF

  function Unsigned(s: string): string { if s != "" && (s[0] == '-' || s[0] == '+') then s[1..] else s }

  predicate IsNumber(s: string) { Unsigned(s) != "" && AllDigits(Unsigned(s)) }

  /** The value strconv returns, whether or not it also reports an error. */
  function IntOf(s: string): int {
    var digits := Unsigned(s);
    if !IsNumber(s) then 0
    else if s[0] == '-' then (if Value(digits) > MAX_INT + 1 then -MAX_INT - 1 else 0 - Value(digits))
    else if Value(digits) > MAX_INT then MAX_INT else Value(digits)
  }

  const TRUE := "true"

  predicate Skips(col: Columns, row: Row) { row.NotARow? || |row.cells| <= col.available }

  function CellAt(cells: seq<Cell>, i: nat): string { if i < |cells| then Str(cells[i]) else "" }

  function StartOf(col: Columns, cells: seq<Cell>): int { IntOf(CellAt(cells, col.start)) }

  /** Reading the row is an index out of range. Of an old row only the date is looked at. */
  predicate Breaks(col: Columns, row: Row, since: int) {
    && !Skips(col, row)
    && (|row.cells| <= col.start ||
        (StartOf(col, row.cells) >= since && (|row.cells| <= col.duration || |row.cells| <= col.id)))
  }

  function RecordIn(col: Columns, cells: seq<Cell>): Record {
    Record(CellAt(cells, col.id), StartOf(col, cells), IntOf(CellAt(cells, col.duration)),
           ToLower(CellAt(cells, col.available)) == TRUE,
           if col.status.Some? then CellAt(cells, col.status.value) else "")
  }

  function RowRecords(col: Columns, row: Row): seq<Record> {
    if Skips(col, row) then [] else [RecordIn(col, row.cells)]
  }

  /** All records of the rows, in order. */
  function Records(col: Columns, rows: seq<Row>): seq<Record> {
    if rows == [] then [] else Records(col, rows[..|rows| - 1]) + RowRecords(col, rows[|rows| - 1])
  }

  /** The records that started at `since` or later. */
  function Kept(records: seq<Record>, since: int): seq<Record> {
    if records == [] then [] else
      Kept(records[..|records| - 1], since) +
      if records[|records| - 1].start >= since then [records[|records| - 1]] else []
  }

  predicate HasOlder(records: seq<Record>, since: int) {
    exists i | 0 <= i < |records| :: records[i].start < since
  }

  predicate AllInRange(col: Columns, rows: seq<Row>, since: int) {
    forall i | 0 <= i < |rows| :: !Breaks(col, rows[i], since)
  }

  // ---------------------------------------------------------------------------------------------
  // All pages
  // ---------------------------------------------------------------------------------------------

  /** `Panics` is a row that breaks. */
  datatype Outcome = Ok(records: seq<Record>) | CallFailed | MissingColumns | Panics

  function Prepend(out: seq<Record>, o: Outcome): Outcome { if o.Ok? then Ok(out + o.records) else o }

  /** The early-stopping read of the pages. Asking past the last page gets an empty one. */
  function Since(pages: seq<Response>, since: int): Outcome {
    if pages == [] then Ok([])
    else if pages[0].CallFails? then CallFailed
    else if pages[0].page.rows == [] then Ok([])
    else
      var col := FindColumns(pages[0].page.header);
      if col.None? then MissingColumns
      else if !AllInRange(col.value, pages[0].page.rows, since) then Panics
      else
        var records := Records(col.value, pages[0].page.rows);
        if !pages[0].page.next || HasOlder(records, since) then Ok(Kept(records, since))
        else Prepend(Kept(records, since), Since(pages[1..], since))
  }

  lemma {:induction false} KeptConcat(a: seq<Record>, b: seq<Record>, since: int)
    ensures Kept(a + b, since) == Kept(a, since) + Kept(b, since)
  {
    if b == [] {
      assert a + b == a;
    } else {
      assert (a + b)[..|a + b| - 1] == a + b[..|b| - 1];
      KeptConcat(a, b[..|b| - 1], since);
    }
  }

  lemma {:induction false} OlderConcat(a: seq<Record>, b: seq<Record>, since: int)
    ensures HasOlder(a + b, since) <==> HasOlder(a, since) || HasOlder(b, since)
  {
    if HasOlder(a, since) {
      var i :| 0 <= i < |a| && a[i].start < since;
      assert (a + b)[i].start < since;
    }
    if HasOlder(b, since) {
      var i :| 0 <= i < |b| && b[i].start < since;
      assert (a + b)[|a| + i].start < since;
    }
    if HasOlder(a + b, since) {
      var i :| 0 <= i < |a + b| && (a + b)[i].start < since;
      assert if i < |a| then a[i].start < since else b[i - |a|].start < since;
    }
  }

  /** What one more row does to what was kept and to having seen an old call. */
  lemma {:induction false} RowMore(col: Columns, rows: seq<Row>, i: nat, since: int)
    requires i < |rows|
    ensures Kept(Records(col, rows[..i + 1]), since) ==
            Kept(Records(col, rows[..i]), since) + Kept(RowRecords(col, rows[i]), since)
    ensures HasOlder(Records(col, rows[..i + 1]), since) <==>
            HasOlder(Records(col, rows[..i]), since) || HasOlder(RowRecords(col, rows[i]), since)
  {
    assert rows[..i + 1][..i] == rows[..i];
    KeptConcat(Records(col, rows[..i]), RowRecords(col, rows[i]), since);
    OlderConcat(Records(col, rows[..i]), RowRecords(col, rows[i]), since);
  }

  lemma {:induction false} KeptOne(r: Record, since: int)
    ensures Kept([r], since) == if r.start >= since then [r] else []
    ensures HasOlder([r], since) <==> r.start < since
  {
    assert [r][..0] == [] && [r][0] == r;
  }

  /** One row: what it adds, and whether it is old. */
  method ReadRow(col: Columns, row: Row, since: int) returns (ok: bool, kept: seq<Record>, older: bool)
    ensures ok <==> !Breaks(col, row, since)
    ensures ok ==> kept == Kept(RowRecords(col, row), since) && (older <==> HasOlder(RowRecords(col, row), since))
  {
    if row.NotARow? || |row.cells| <= col.available { return true, [], false; }
    if |row.cells| <= col.start { return false, [], false; }
    KeptOne(RecordIn(col, row.cells), since);
    var start := IntOf(Str(row.cells[col.start]));
    if start < since { return true, [], true; }
    if |row.cells| <= col.duration || |row.cells| <= col.id { return false, [], false; }
    var r := ReadCells(col, row.cells, start);
    return true, [r], false;
  }

  method ReadCells(col: Columns, cells: seq<Cell>, start: int) returns (r: Record)
    requires |cells| > col.id && |cells| > col.start && |cells| > col.duration && |cells| > col.available
    requires start == StartOf(col, cells)
    ensures r == RecordIn(col, cells)
  {
    var dur := IntOf(Str(cells[col.duration]));
    var available := ToLower(Str(cells[col.available])) == TRUE;
    var status := "";
    if col.status.Some? && col.status.value < |cells| { status := Str(cells[col.status.value]); }
    return Record(Str(cells[col.id]), start, dur, available, status);
  }

  lemma {:induction false} InRangeMore(col: Columns, rows: seq<Row>, i: nat, since: int)
    requires i < |rows| && AllInRange(col, rows[..i], since)
    ensures AllInRange(col, rows[..i + 1], since) <==> !Breaks(col, rows[i], since)
    ensures Breaks(col, rows[i], since) ==> !AllInRange(col, rows, since)
  {
    assert rows[..i + 1] == rows[..i] + [rows[i]];
  }

  /** The rows of one page. */
  method ReadRows(col: Columns, rows: seq<Row>, since: int)
    returns (ok: bool, out: seq<Record>, reachedOlder: bool)
    ensures ok <==> AllInRange(col, rows, since)
    ensures ok ==> out == Kept(Records(col, rows), since) && (reachedOlder <==> HasOlder(Records(col, rows), since))
  {
    out, reachedOlder := [], false;
    for i := 0 to |rows|
      invariant AllInRange(col, rows[..i], since)
      invariant out == Kept(Records(col, rows[..i]), since)
      invariant reachedOlder <==> HasOlder(Records(col, rows[..i]), since)
    {
      InRangeMore(col, rows, i, since);
      var fine, kept, older := ReadRow(col, rows[i], since);
      if !fine { return false, [], false; }
      RowMore(col, rows, i, since);
      out, reachedOlder := out + kept, reachedOlder || older;
    }
    assert rows[..|rows|] == rows;
    return true, out, reachedOlder;
  }

  lemma {:induction false} PrependTwice(a: seq<Record>, b: seq<Record>, o: Outcome)
    ensures Prepend(a, Prepend(b, o)) == Prepend(a + b, o)
  {
    if o.Ok? { assert a + (b + o.records) == a + b + o.records; }
  }

  method RecordingCDRsSince(pages: seq<Response>, since: int) returns (r: Outcome)
    ensures r == Since(pages, since)
  {
    var out: seq<Record> := [];
    var page := 0;
    assert pages[0..] == pages;
    while true
      invariant 0 <= page <= |pages| && Since(pages, since) == Prepend(out, Since(pages[page..], since))
      decreases |pages| - page
    {
      if page == |pages| { return Ok(out); }
      var response := pages[page];
      if response.CallFails? { return CallFailed; }
      var rows := response.page.rows;
      if rows == [] { return Ok(out); }
      var col := FindColumns(response.page.header);
      if col.None? { return MissingColumns; }
      var ok, kept, reachedOlder := ReadRows(col.value, rows, since);
      if !ok { return Panics; }
      assert pages[page..][1..] == pages[page + 1..];
      PrependTwice(out, kept, Since(pages[page + 1..], since));
      out := out + kept;
      if !response.page.next || reachedOlder { return Ok(out); }
      page := page + 1;
    }
  }

  // ---------------------------------------------------------------------------------------------
  // Stopping early against reading everything
  // ---------------------------------------------------------------------------------------------

  /** A page every row of which can be read. */
  predicate Readable(r: Response, since: int) {
    r.Got? && (r.page.rows != [] ==> FindColumns(r.page.header).Some? &&
                                     AllInRange(FindColumns(r.page.header).value, r.page.rows, since))
  }

  ghost predicate AllReadable(pages: seq<Response>, since: int) {
    forall i | 0 <= i < |pages| :: Readable(pages[i], since)
  }

  function RecordsOf(r: Response): seq<Record> {
    if r.CallFails? || FindColumns(r.page.header).None? then []
    else Records(FindColumns(r.page.header).value, r.page.rows)
  }

  /** The page ends the reading. */
  predicate Ends(r: Response, since: int) {
    r.CallFails? || r.page.rows == [] || !r.page.next || HasOlder(RecordsOf(r), since)
  }

  /** A complete answer: each page but the last announces another, and only the last may be empty. */
  ghost predicate Complete(pages: seq<Response>, since: int) {
    AllReadable(pages, since) && forall i | 0 <= i < |pages| - 1 :: pages[i].page.next && pages[i].page.rows != []
  }

  /** All records of all pages. */
  function AllRecords(pages: seq<Response>): seq<Record> {
    if pages == [] then [] else RecordsOf(pages[0]) + AllRecords(pages[1..])
  }

  /** How many pages are read before the reading stops. */
  function PagesRead(pages: seq<Response>, since: int): (n: nat)
    ensures n <= |pages|
  {
    if pages == [] then 0 else if Ends(pages[0], since) then 1 else 1 + PagesRead(pages[1..], since)
  }

  /** One page of the read. */
  lemma {:induction false} SinceFirst(pages: seq<Response>, since: int)
    requires pages != [] && Readable(pages[0], since)
    ensures Since(pages, since) == var kept := Kept(RecordsOf(pages[0]), since);
      if Ends(pages[0], since) then Ok(kept) else Prepend(kept, Since(pages[1..], since))
  {}

  lemma {:induction false} AllReadableTail(pages: seq<Response>, since: int)
    requires pages != [] && AllReadable(pages, since)
    ensures Readable(pages[0], since) && AllReadable(pages[1..], since)
  {
    forall i | 0 <= i < |pages| - 1 ensures Readable(pages[1..][i], since) { assert pages[1..][i] == pages[i + 1]; }
  }

  lemma {:induction false} KeptFirstPage(first: Response, rest: seq<Response>, since: int)
    ensures Kept(AllRecords([first] + rest), since) ==
            Kept(RecordsOf(first), since) + Kept(AllRecords(rest), since)
  {
    assert ([first] + rest)[0] == first && ([first] + rest)[1..] == rest;
    KeptConcat(RecordsOf(first), AllRecords(rest), since);
  }

  lemma {:induction false} TakeFirst(pages: seq<Response>, n: nat)
    requires 0 < n <= |pages|
    ensures pages[..n] == [pages[0]] + pages[1..][..n - 1]
  {}

  /** The read keeps exactly what the pages it read hold. */
  lemma {:induction false} ReadsItsPages(pages: seq<Response>, since: int)
    requires AllReadable(pages, since)
    ensures Since(pages, since) == Ok(Kept(AllRecords(pages[..PagesRead(pages, since)]), since))
  {
    if pages != [] {
      var n := PagesRead(pages, since);
      AllReadableTail(pages, since);
      SinceFirst(pages, since);
      TakeFirst(pages, n);
      KeptFirstPage(pages[0], pages[1..][..n - 1], since);
      if !Ends(pages[0], since) { ReadsItsPages(pages[1..], since); }
    }
  }

  lemma {:induction false} ConcatAssoc(a: seq<Record>, b: seq<Record>, c: seq<Record>)
    ensures a + (b + c) == a + b + c
  {}

  lemma {:induction false} AllRecordsConcat(a: seq<Response>, b: seq<Response>)
    ensures AllRecords(a + b) == AllRecords(a) + AllRecords(b)
  {
    if a == [] {
      assert a + b == b;
    } else {
      var rest := a[1..] + b;
      assert a + b == [a[0]] + rest;
      assert ([a[0]] + rest)[1..] == rest && ([a[0]] + rest)[0] == a[0];
      AllRecordsConcat(a[1..], b);
      ConcatAssoc(RecordsOf(a[0]), AllRecords(a[1..]), AllRecords(b));
    }
  }

  /** No page that ends the reading is before one with a record that is new enough. */
  ghost predicate NothingNewAfterAnEnd(pages: seq<Response>, since: int) {
    forall i, j | 0 <= i < j < |pages| && Ends(pages[i], since) :: Kept(RecordsOf(pages[j]), since) == []
  }

  /** Nothing is kept of the pages together exactly when nothing is kept of each. */
  lemma {:induction false} NothingKept(pages: seq<Response>, since: int)
    ensures Kept(AllRecords(pages), since) == [] <==>
            forall j | 0 <= j < |pages| :: Kept(RecordsOf(pages[j]), since) == []
  {
    if pages != [] {
      var rest := pages[1..];
      KeptConcat(RecordsOf(pages[0]), AllRecords(rest), since);
      NothingKept(rest, since);
      assert forall j | 0 <= j < |rest| :: rest[j] == pages[j + 1];
      assert forall j | 0 < j < |pages| :: pages[j] == rest[j - 1];
    }
  }

  /** The page that the reading stops at is the first that ends it. */
  lemma {:induction false} StopsAtFirstEnd(pages: seq<Response>, since: int)
    ensures var n := PagesRead(pages, since);
      && (forall i | 0 <= i < n - 1 :: !Ends(pages[i], since))
      && (n < |pages| ==> n > 0 && Ends(pages[n - 1], since))
  {
    if pages != [] && !Ends(pages[0], since) {
      StopsAtFirstEnd(pages[1..], since);
      assert forall i | 0 < i < |pages| :: pages[i] == pages[1..][i - 1];
    }
  }

  lemma {:induction false} KeptSplit(pages: seq<Response>, n: nat, since: int)
    requires n <= |pages|
    ensures Kept(AllRecords(pages), since) ==
            Kept(AllRecords(pages[..n]), since) + Kept(AllRecords(pages[n..]), since)
  {
    assert pages == pages[..n] + pages[n..];
    AllRecordsConcat(pages[..n], pages[n..]);
    KeptConcat(AllRecords(pages[..n]), AllRecords(pages[n..]), since);
  }

  /** What is lost is what would have been kept of the pages left unread. */
  lemma {:induction false} LosesTheRest(pages: seq<Response>, since: int)
    requires AllReadable(pages, since)
    ensures Since(pages, since) == Ok(Kept(AllRecords(pages), since)) <==>
            Kept(AllRecords(pages[PagesRead(pages, since)..]), since) == []
  {
    ReadsItsPages(pages, since);
    KeptSplit(pages, PagesRead(pages, since), since);
  }

  lemma {:induction false} NothingNewUnread(pages: seq<Response>, since: int)
    ensures NothingNewAfterAnEnd(pages, since) <==>
            forall j | PagesRead(pages, since) <= j < |pages| :: Kept(RecordsOf(pages[j]), since) == []
  {
    StopsAtFirstEnd(pages, since);
    var n := PagesRead(pages, since);
    if NothingNewAfterAnEnd(pages, since) {
      forall j | n <= j < |pages| ensures Kept(RecordsOf(pages[j]), since) == [] {
        assert Ends(pages[n - 1], since);
      }
    }
  }

  /** The same for the pages from the n-th on. */
  lemma {:induction false} NothingKeptFrom(pages: seq<Response>, n: nat, since: int)
    requires n <= |pages|
    ensures Kept(AllRecords(pages[n..]), since) == [] <==>
            forall j | n <= j < |pages| :: Kept(RecordsOf(pages[j]), since) == []
  {
    NothingKept(pages[n..], since);
    assert forall j | 0 <= j < |pages| - n :: pages[n..][j] == pages[n + j];
    assert forall j | n <= j < |pages| :: pages[j] == pages[n..][j - n];
  }

  /** Stopping early loses nothing exactly when no record that is new enough comes on a page after one that ends the
      reading. */
  lemma {:induction false} EarlyStopExactly(pages: seq<Response>, since: int)
    requires AllReadable(pages, since)
    ensures Since(pages, since) == Ok(Kept(AllRecords(pages), since)) <==> NothingNewAfterAnEnd(pages, since)
  {
    LosesTheRest(pages, since);
    NothingNewUnread(pages, since);
    NothingKeptFrom(pages, PagesRead(pages, since), since);
  }

  predicate NewestFirst(records: seq<Record>) {
    forall i, j | 0 <= i < j < |records| :: records[i].start >= records[j].start
  }

  lemma {:induction false} NoneKept(records: seq<Record>, since: int)
    requires forall i | 0 <= i < |records| :: records[i].start < since
    ensures Kept(records, since) == []
  {
    if records != [] { NoneKept(records[..|records| - 1], since); }
  }

  /** What follows an old record in newest-first order is old. */
  lemma {:induction false} OlderAfter(a: seq<Record>, b: seq<Record>, since: int)
    requires NewestFirst(a + b) && HasOlder(a, since)
    ensures Kept(b, since) == []
  {
    var i :| 0 <= i < |a| && a[i].start < since;
    forall j | 0 <= j < |b| ensures b[j].start < since {
      assert (a + b)[i] == a[i] && (a + b)[|a| + j] == b[j];
    }
    NoneKept(b, since);
  }

  lemma {:induction false} TailNewestFirst(a: seq<Record>, b: seq<Record>)
    requires NewestFirst(a + b)
    ensures NewestFirst(b)
  {
    forall i, j | 0 <= i < j < |b| ensures b[i].start >= b[j].start {
      assert (a + b)[|a| + i] == b[i] && (a + b)[|a| + j] == b[j];
    }
  }

  lemma {:induction false} CompleteTail(pages: seq<Response>, since: int)
    requires Complete(pages, since) && |pages| > 1
    ensures Complete(pages[1..], since) && Readable(pages[0], since) && pages[0].page.next && pages[0].page.rows != []
  {
    forall i | 0 <= i < |pages| - 1 ensures Readable(pages[1..][i], since) { assert pages[1..][i] == pages[i + 1]; }
  }

  /** For complete pages, newest first throughout, reading until the first old record is the same as reading
      everything and keeping what is new enough. */
  lemma {:induction false} EarlyStopIsFilter(pages: seq<Response>, since: int)
    requires Complete(pages, since) && NewestFirst(AllRecords(pages))
    ensures Since(pages, since) == Ok(Kept(AllRecords(pages), since))
  {
    if pages != [] {
      FirstAndRest(pages, since);
      var a, b := RecordsOf(pages[0]), AllRecords(pages[1..]);
      if |pages| > 1 && !HasOlder(a, since) {
        TailNewestFirst(a, b);
        CompleteTail(pages, since);
        EarlyStopIsFilter(pages[1..], since);
      } else if |pages| > 1 {
        OlderAfter(a, b, since);
      } else {
        assert pages[1..] == [];
      }
    }
  }

  lemma {:induction false} FirstAndRest(pages: seq<Response>, since: int)
    requires Complete(pages, since) && pages != []
    ensures Kept(AllRecords(pages), since) ==
            Kept(RecordsOf(pages[0]), since) + Kept(AllRecords(pages[1..]), since)
    ensures Since(pages, since) == var kept := Kept(RecordsOf(pages[0]), since);
      if Ends(pages[0], since) then Ok(kept) else Prepend(kept, Since(pages[1..], since))
    ensures |pages| > 1 ==> (Ends(pages[0], since) <==> HasOlder(RecordsOf(pages[0]), since))
  {
    assert Readable(pages[0], since);
    SinceFirst(pages, since);
    KeptConcat(RecordsOf(pages[0]), AllRecords(pages[1..]), since);
  }

  /** The page has a row whose date is no number. */
  predicate HasBadDate(r: Response, k: nat) {
    && r.Got? && FindColumns(r.page.header).Some? && k < |r.page.rows|
    && var col, row := FindColumns(r.page.header).value, r.page.rows[k];
      !Skips(col, row) && !IsNumber(CellAt(row.cells, col.start))
  }

  lemma {:induction false} RecordsHold(col: Columns, rows: seq<Row>, k: nat)
    requires k < |rows| && !Skips(col, rows[k])
    ensures RecordIn(col, rows[k].cells) in Records(col, rows)
  {
    if k < |rows| - 1 { RecordsHold(col, rows[..|rows| - 1], k); }
  }

  lemma {:induction false} BadDateEnds(r: Response, k: nat, since: int)
    requires HasBadDate(r, k) && since > 0
    ensures Ends(r, since)
  {
    var col := FindColumns(r.page.header).value;
    RecordsHold(col, r.page.rows, k);
    assert RecordIn(col, r.page.rows[k].cells).start == 0;
    assert RecordIn(col, r.page.rows[k].cells) in RecordsOf(r);
  }

  lemma {:induction false} TakeTail(pages: seq<Response>, i: nat)
    requires 0 < i < |pages|
    ensures pages[..i + 1][0] == pages[0] && pages[..i + 1][1..] == pages[1..][..i] && pages[1..][i - 1] == pages[i]
  {}

  /** A page that ends the reading is the last that matters. */
  lemma {:induction false} EndCuts(pages: seq<Response>, since: int, i: nat)
    requires i < |pages| && Ends(pages[i], since)
    ensures Since(pages, since) == Since(pages[..i + 1], since) && PagesRead(pages, since) <= i + 1
  {
    if i > 0 {
      TakeTail(pages, i);
      EndCuts(pages[1..], since, i - 1);
    }
  }

  /** A row whose date is no number counts as old: whatever pages come after its own, they are not read and do not
      change the answer. */
  lemma {:induction false} BadDateStops(pages: seq<Response>, since: int, i: nat, k: nat)
    requires i < |pages| && HasBadDate(pages[i], k) && since > 0
    ensures Since(pages, since) == Since(pages[..i + 1], since) && PagesRead(pages, since) <= i + 1
  {
    BadDateEnds(pages[i], k, since);
    EndCuts(pages, since, i);
  }

  /** A page that fails to come, is empty, announces no further one, or has a call older than asked for is the last that
      matters: what follows it does not change the answer. */
  lemma {:induction false} StopsAfter(pages: seq<Response>, since: int, i: nat)
    requires i < |pages|
    requires pages[i].CallFails? || pages[i].page.rows == [] || !pages[i].page.next ||
             exists k | 0 <= k < |RecordsOf(pages[i])| :: RecordsOf(pages[i])[k].start < since
    ensures Since(pages, since) == Since(pages[..i + 1], since)
  {
    EndCuts(pages, since, i);
  }

  // ---------------------------------------------------------------------------------------------
  // Rows that are too short
  // ---------------------------------------------------------------------------------------------

  /** The reading gets to page `i`. */
  ghost predicate Reached(pages: seq<Response>, since: int, i: int) {
    0 <= i < |pages| && forall j | 0 <= j < i :: Readable(pages[j], since) && !Ends(pages[j], since)
  }

  /** A page with a row that breaks. */
  ghost predicate Broken(r: Response, since: int) {
    && r.Got? && FindColumns(r.page.header).Some?
    && exists k | 0 <= k < |r.page.rows| :: Breaks(FindColumns(r.page.header).value, r.page.rows[k], since)
  }

  ghost predicate BreaksAt(pages: seq<Response>, since: int, i: int) {
    Reached(pages, since, i) && Broken(pages[i], since)
  }

  lemma {:induction false} BreaksLater(pages: seq<Response>, since: int, i: int)
    requires pages != [] && Readable(pages[0], since) && !Ends(pages[0], since)
    ensures BreaksAt(pages, since, i + 1) <==> BreaksAt(pages[1..], since, i)
  {
    var rest := pages[1..];
    assert forall j | 0 <= j < |rest| :: rest[j] == pages[j + 1];
    assert forall j | 0 < j < |pages| :: pages[j] == rest[j - 1];
  }

  /** The reading is cut short by an index out of range exactly when it gets to a page with a row that has an
      availability but no date, or is new enough and has no id or no duration. */
  lemma {:induction false} PanicsExactly(pages: seq<Response>, since: int)
    ensures Since(pages, since) == Panics <==> exists i :: BreaksAt(pages, since, i)
  {
    if pages != [] {
      if Readable(pages[0], since) && !Ends(pages[0], since) {
        SinceFirst(pages, since);
        PanicsExactly(pages[1..], since);
        if i :| BreaksAt(pages[1..], since, i) {
          BreaksLater(pages, since, i);
        }
        if i :| BreaksAt(pages, since, i) {
          assert i > 0;
          BreaksLater(pages, since, i - 1);
        }
      } else {
        assert BreaksAt(pages, since, 0) <==> Since(pages, since) == Panics;
      }
    }
  }

  /** A page that does not come, or whose header lacks a column needed. */
  ghost predicate FailsAt(pages: seq<Response>, since: int, i: int) { Reached(pages, since, i) && pages[i].CallFails? }

  ghost predicate LacksAt(pages: seq<Response>, since: int, i: int) {
    Reached(pages, since, i) && pages[i].Got? && pages[i].page.rows != [] && FindColumns(pages[i].page.header).None?
  }

  lemma {:induction false} LaterPage(pages: seq<Response>, since: int, i: int)
    requires pages != [] && Readable(pages[0], since) && !Ends(pages[0], since)
    ensures FailsAt(pages, since, i + 1) <==> FailsAt(pages[1..], since, i)
    ensures LacksAt(pages, since, i + 1) <==> LacksAt(pages[1..], since, i)
  {
    var rest := pages[1..];
    assert forall j | 0 <= j < |rest| :: rest[j] == pages[j + 1];
    assert forall j | 0 < j < |pages| :: pages[j] == rest[j - 1];
  }

  /** The read fails exactly when it gets to a page that does not come, and complains about the columns exactly when it
      gets to a page with rows whose header lacks one it needs. */
  lemma {:induction false} FailsExactly(pages: seq<Response>, since: int)
    ensures Since(pages, since) == CallFailed <==> exists i :: FailsAt(pages, since, i)
    ensures Since(pages, since) == MissingColumns <==> exists i :: LacksAt(pages, since, i)
  {
    if pages != [] {
      if Readable(pages[0], since) && !Ends(pages[0], since) {
        SinceFirst(pages, since);
        FailsExactly(pages[1..], since);
        if i :| FailsAt(pages[1..], since, i) { LaterPage(pages, since, i); }
        if i :| FailsAt(pages, since, i) { LaterPage(pages, since, i - 1); }
        if i :| LacksAt(pages[1..], since, i) { LaterPage(pages, since, i); }
        if i :| LacksAt(pages, since, i) { LaterPage(pages, since, i - 1); }
      } else {
        assert FailsAt(pages, since, 0) <==> Since(pages, since) == CallFailed;
        assert LacksAt(pages, since, 0) <==> Since(pages, since) == MissingColumns;
      }
    }
  }

  const HEADER: seq<Cell> := [Some(DATE_TIME), Some(RECORDING_AVAILABLE), Some(UNIQUE_ID), Some(TOTAL_DURATION)]

  const COLUMNS := Columns(2, 0, 3, 1, None)

  function OneRow(cells: seq<Cell>, next: bool): Response { Got(Page(HEADER, [Row(cells)], next)) }

  lemma {:induction false} ColumnMore(front: seq<Cell>, c: Cell, name: string)
    ensures Column(front + [c], name) == if c == Some(name) then Some(|front|) else Column(front, name)
  {
    assert (front + [c])[..|front|] == front;
  }

  lemma {:induction false} ColumnOf(name: string)
    requires name in [DATE_TIME, RECORDING_AVAILABLE, UNIQUE_ID, TOTAL_DURATION, STATUS]
    ensures name == STATUS ==> Column(HEADER, name).None?
    ensures name != STATUS ==> exists i: nat | i < 4 :: HEADER[i] == Some(name) && Column(HEADER, name) == Some(i)
  {
    assert |STATUS| == 6 && |TOTAL_DURATION| == 14 && |RECORDING_AVAILABLE| == 19 && |UNIQUE_ID| == 9;
    assert |DATE_TIME| == 9 && DATE_TIME[0] != UNIQUE_ID[0];
    ColumnMore([], HEADER[0], name);
    ColumnMore([] + [HEADER[0]], HEADER[1], name);
    ColumnMore([] + [HEADER[0]] + [HEADER[1]], HEADER[2], name);
    ColumnMore([] + [HEADER[0]] + [HEADER[1]] + [HEADER[2]], HEADER[3], name);
    assert [] + [HEADER[0]] + [HEADER[1]] + [HEADER[2]] + [HEADER[3]] == HEADER;
  }

  lemma {:induction false} HeaderColumns()
    ensures FindColumns(HEADER) == Some(COLUMNS)
  {
    ColumnOf(DATE_TIME);
    ColumnOf(RECORDING_AVAILABLE);
    ColumnOf(UNIQUE_ID);
    ColumnOf(TOTAL_DURATION);
    ColumnOf(STATUS);
    assert |STATUS| == 6 && |TOTAL_DURATION| == 14 && |RECORDING_AVAILABLE| == 19 && |UNIQUE_ID| == 9;
    assert |DATE_TIME| == 9 && DATE_TIME[0] != UNIQUE_ID[0];
  }

  /** A page of that one row. */
  lemma {:induction false} RowOfRead(header: seq<Cell>, col: Columns, cells: seq<Cell>, next: bool, since: int)
    requires FindColumns(header) == Some(col) && |cells| > col.available
    ensures var r := Got(Page(header, [Row(cells)], next));
      && RecordsOf(r) == [RecordIn(col, cells)]
      && (Broken(r, since) <==> Breaks(col, Row(cells), since))
      && (Readable(r, since) <==> !Breaks(col, Row(cells), since))
      && (HasOlder(RecordsOf(r), since) <==> StartOf(col, cells) < since)
      && Kept(RecordsOf(r), since) == if StartOf(col, cells) < since then [] else [RecordIn(col, cells)]
  {
    RowOfRecords(col, cells);
    RowOfBreaks(col, Row(cells), since);
    KeptOne(RecordIn(col, cells), since);
  }

  lemma {:induction false} RowOfRecords(col: Columns, cells: seq<Cell>)
    requires |cells| > col.available
    ensures Records(col, [Row(cells)]) == [RecordIn(col, cells)]
  {
    assert [Row(cells)][..0] == [] && [] + [RecordIn(col, cells)] == [RecordIn(col, cells)];
  }

  lemma {:induction false} RowOfBreaks(col: Columns, row: Row, since: int)
    ensures AllInRange(col, [row], since) <==> !Breaks(col, row, since)
    ensures (exists k | 0 <= k < |[row]| :: Breaks(col, [row][k], since)) <==> Breaks(col, row, since)
  {
    assert [row][0] == row;
  }

  lemma {:induction false} OneRowRead(cells: seq<Cell>, next: bool, since: int)
    requires |cells| > 1
    ensures var r := OneRow(cells, next);
      && RecordsOf(r) == [RecordIn(COLUMNS, cells)]
      && (Broken(r, since) <==> Breaks(COLUMNS, Row(cells), since))
      && (Readable(r, since) <==> !Breaks(COLUMNS, Row(cells), since))
      && (HasOlder(RecordsOf(r), since) <==> StartOf(COLUMNS, cells) < since)
      && Kept(RecordsOf(r), since) == if StartOf(COLUMNS, cells) < since then [] else [RecordIn(COLUMNS, cells)]
  {
    HeaderColumns();
    RowOfRead(HEADER, COLUMNS, cells, next, since);
  }

  /** A row with all its cells gives a record of just these: its id, the numbers in its date and duration, whether the
      recording is there, and no status where the header has none. */
  lemma {:induction false} RowRead(start: string, available: string, id: string, duration: string, since: int)
    requires IntOf(start) >= since
    ensures var cells := [Some(start), Some(available), Some(id), Some(duration)];
      Since([OneRow(cells, false)], since) ==
      Ok([Record(id, IntOf(start), IntOf(duration), ToLower(available) == "true", "")])
  {
    var cells := [Some(start), Some(available), Some(id), Some(duration)];
    OneRowRead(cells, false, since);
    SinceFirst([OneRow(cells, false)], since);
  }

  lemma {:induction false} StatusColumns()
    ensures FindColumns(HEADER + [Some(STATUS)]) == Some(COLUMNS.(status := Some(4)))
  {
    HeaderColumns();
    assert |STATUS| == 6 && |TOTAL_DURATION| == 14 && |RECORDING_AVAILABLE| == 19 && |UNIQUE_ID| == |DATE_TIME| == 9;
    ColumnMore(HEADER, Some(STATUS), STATUS);
    ColumnMore(HEADER, Some(STATUS), DATE_TIME);
    ColumnMore(HEADER, Some(STATUS), RECORDING_AVAILABLE);
    ColumnMore(HEADER, Some(STATUS), UNIQUE_ID);
    ColumnMore(HEADER, Some(STATUS), TOTAL_DURATION);
  }

  /** Under a header that has a status column the record has that cell as well, and no status if the row ends before. */
  lemma {:induction false} StatusRead(
    start: string, available: string, id: string, duration: string, more: seq<Cell>, since: int)
    requires IntOf(start) >= since
    ensures var cells := [Some(start), Some(available), Some(id), Some(duration)] + more;
      Since([Got(Page(HEADER + [Some(STATUS)], [Row(cells)], false))], since) ==
      Ok([Record(id, IntOf(start), IntOf(duration), ToLower(available) == "true",
                 if more != [] && more[0].Some? then more[0].value else "")])
  {
    var cells := [Some(start), Some(available), Some(id), Some(duration)] + more;
    var header, col := HEADER + [Some(STATUS)], COLUMNS.(status := Some(4));
    StatusColumns();
    RowOfRead(header, col, cells, false, since);
    SinceFirst([Got(Page(header, [Row(cells)], false))], since);
  }

  /** A number is read as itself, cut off at 64 bits. */
  lemma {:induction false} IntOfNumber(n: nat)
    ensures IntOf(Decimal(n)) == if n > MAX_INT then MAX_INT else n
  {
    DecimalValue(n);
    assert IsDigit(Decimal(n)[0]);
  }

  /** And so is one with a sign. */
  lemma {:induction false} IntOfSigned(n: nat, sign: char)
    requires sign == '-' || sign == '+'
    ensures IntOf([sign] + Decimal(n)) ==
      if sign == '-' then (if n > MAX_INT + 1 then -MAX_INT - 1 else 0 - n) else if n > MAX_INT then MAX_INT else n
  {
    var s := [sign] + Decimal(n);
    DecimalValue(n);
    assert s[0] == sign && s[1..] == Decimal(n);
  }

  /** Anything else is read as nothing. */
  lemma {:induction false} IntOfText(s: string, i: nat)
    requires i < |s| && !IsDigit(s[i]) && (i > 0 || (s[i] != '-' && s[i] != '+'))
    ensures IntOf(s) == 0
  {
    assert Unsigned(s) == s || (Unsigned(s) == s[1..] && i > 0 && s[1..][i - 1] == s[i]);
  }

  /** `kept` are the records at these places. */
  ghost predicate TakenAt(records: seq<Record>, from: seq<nat>, kept: seq<Record>) {
    && |from| == |kept| && (forall i | 0 <= i < |from| :: from[i] < |records| && kept[i] == records[from[i]])
    && (forall i, j | 0 <= i < j < |from| :: from[i] < from[j])
  }

  lemma {:induction false} TakenMore(records: seq<Record>, r: Record, from: seq<nat>, kept: seq<Record>)
    requires TakenAt(records, from, kept)
    ensures TakenAt(records + [r], from, kept) && TakenAt(records + [r], from + [|records|], kept + [r])
  {}

  /** What is kept is the records that started at `since` or later, all of them, once each and in the same order. */
  lemma {:induction false} KeptAre(records: seq<Record>, since: int) returns (from: seq<nat>)
    ensures TakenAt(records, from, Kept(records, since))
    ensures forall k: nat | k < |records| :: k in from <==> records[k].start >= since
  {
    from := [];
    if records != [] {
      var n := |records| - 1;
      var front, r := records[..n], records[n];
      var before := KeptAre(front, since);
      assert records == front + [r];
      TakenMore(front, r, before, Kept(front, since));
      from := if r.start >= since then before + [n] else before;
      assert Kept(front, since) + [] == Kept(front, since);
      PlacesMore(front, r, since, before, from);
    }
  }

  lemma {:induction false} PlacesMore(front: seq<Record>, r: Record, since: int, before: seq<nat>, from: seq<nat>)
    requires forall k: nat | k < |front| :: k in before <==> front[k].start >= since
    requires forall k | k in before :: k < |front|
    requires from == if r.start >= since then before + [|front|] else before
    ensures forall k: nat | k < |front| + 1 :: k in from <==> (front + [r])[k].start >= since
  {}

  const SHORT: seq<Cell> := [Some("5"), Some("true")]

  /** The same row without an id breaks the reading when it is new enough, and is passed over when it is old. */
  lemma {:induction false} ShortRow()
    ensures Since([OneRow(SHORT, false)], 5) == Panics && Since([OneRow(SHORT, false)], 6) == Ok([])
  {
    var pages := [OneRow(SHORT, false)];
    assert StartOf(COLUMNS, SHORT) == 5;
    OneRowRead(SHORT, false, 5);
    assert BreaksAt(pages, 5, 0);
    PanicsExactly(pages, 5);
    OneRowRead(SHORT, false, 6);
    SinceFirst(pages, 6);
  }

  const UNDATED: seq<Cell> := [Some("?"), Some("true"), Some("a"), Some("1")]

  const NEW: seq<Cell> := [Some("9"), Some("true"), Some("b"), Some("1")]

  /** Of two pages only the first is read if it ends the reading. */
  lemma {:induction false} OnlyTheFirst(a: Response, b: Response, since: int)
    requires Readable(a, since) && Readable(b, since) && Ends(a, since)
    ensures AllReadable([a, b], since) && Since([a, b], since) == Ok(Kept(RecordsOf(a), since))
    ensures Kept(AllRecords([a, b]), since) == Kept(RecordsOf(a), since) + Kept(RecordsOf(b), since)
  {
    SinceFirst([a, b], since);
    assert [a, b] == [a] + [b] && [b] == [b] + [];
    KeptFirstPage(a, [b], since);
    KeptFirstPage(b, [], since);
  }

  /** A new call is lost behind one without a readable date. */
  lemma {:induction false} BadDateLoses()
    ensures var pages := [OneRow(UNDATED, true), OneRow(NEW, false)];
      && AllReadable(pages, 5) && Since(pages, 5) == Ok([])
      && Kept(AllRecords(pages), 5) == [RecordIn(COLUMNS, NEW)]
  {
    assert StartOf(COLUMNS, UNDATED) == 0;
    assert StartOf(COLUMNS, NEW) == 9;
    var first, second := OneRow(UNDATED, true), OneRow(NEW, false);
    OneRowRead(UNDATED, true, 5);
    OneRowRead(NEW, false, 5);
    OnlyTheFirst(first, second, 5);
  }

  // ---------------------------------------------------------------------------------------------
  // The record of a call
  // ---------------------------------------------------------------------------------------------

  /** A record as far as it is matched: the extension that called, its id and its start. */
  datatype Entry = Entry(from: string, uniqueID: string, start: int)

  /** A call to find: its extension, and when it started and ended, in whole seconds. */
  datatype Window = Window(ext: string, start: int, end: int)

  const TOLERANCE := 15

  predicate Fits(e: Entry, w: Window) {
    e.from == w.ext && w.start - TOLERANCE <= e.start <= w.end + TOLERANCE
  }

  function Distance(e: Entry, w: Window): nat { if e.start >= w.start then e.start - w.start else w.start - e.start }

  /** The best match of a scan over all entries. */
  function Best(entries: seq<Entry>, w: Window): Option<Entry> {
    if entries == [] then None
    else
      var b, e := Best(entries[..|entries| - 1], w), entries[|entries| - 1];
      if Fits(e, w) && (b.None? || Distance(e, w) < Distance(b.value, w)) then Some(e) else b
  }

  /** Entry `k` is a match at least as near as all of them, and nearer than those before it. */
  ghost predicate NearestAt(entries: seq<Entry>, w: Window, k: int) {
    && 0 <= k < |entries| && Fits(entries[k], w)
    && forall j | 0 <= j < |entries| && j != k :: Beaten(entries[j], w, Distance(entries[k], w), j < k)
  }

  predicate Beaten(e: Entry, w: Window, d: nat, earlier: bool) {
    Fits(e, w) ==> d < Distance(e, w) || (d == Distance(e, w) && !earlier)
  }

  lemma {:induction false} NearestStays(front: seq<Entry>, e: Entry, w: Window, k: int)
    requires NearestAt(front, w, k) && (Fits(e, w) ==> Distance(e, w) >= Distance(front[k], w))
    ensures NearestAt(front + [e], w, k)
  {}

  lemma {:induction false} NearestMoves(front: seq<Entry>, e: Entry, w: Window, k: int)
    requires NearestAt(front, w, k) && Fits(e, w) && Distance(e, w) < Distance(front[k], w)
    ensures NearestAt(front + [e], w, |front|)
  {
    var all := front + [e];
    forall j | 0 <= j < |front| ensures Beaten(all[j], w, Distance(e, w), true) {
      assert j != k ==> Beaten(front[j], w, Distance(front[k], w), j < k);
    }
  }

  /** There is a match exactly when some entry of the extension lies within tolerance, and then it is the first of
      those nearest to the call's start. */
  lemma {:induction false} BestIsNearest(entries: seq<Entry>, w: Window)
    ensures Best(entries, w).None? <==> forall j | 0 <= j < |entries| :: !Fits(entries[j], w)
    ensures Best(entries, w).Some? ==> exists k :: NearestAt(entries, w, k) && entries[k] == Best(entries, w).value
  {
    if entries != [] {
      var n := |entries| - 1;
      var front, e := entries[..n], entries[n];
      assert entries == front + [e];
      BestIsNearest(front, w);
      if Best(front, w).Some? {
        var k :| NearestAt(front, w, k) && front[k] == Best(front, w).value;
        if Fits(e, w) && Distance(e, w) < Distance(front[k], w) {
          NearestMoves(front, e, w, k);
        } else {
          NearestStays(front, e, w, k);
        }
        assert Fits(entries[k], w);
      } else if Fits(e, w) {
        assert NearestAt(entries, w, n);
      }
    }
  }

  /** The entry is of the call's extension and began at most fifteen seconds before the call or after its end. */
  predicate Matches(e: Entry, w: Window) { e.from == w.ext && w.start - 15 <= e.start <= w.end + 15 }

  /** Entry `k` matches, no matching entry began closer to the call's start, and none before it as close. */
  ghost predicate ClosestAt(entries: seq<Entry>, w: Window, k: int) {
    && 0 <= k < |entries| && Matches(entries[k], w)
    && forall j | 0 <= j < |entries| && Matches(entries[j], w) ::
      var mine, other := entries[k].start - w.start, entries[j].start - w.start;
      var near, far := if mine < 0 then -mine else mine, if other < 0 then -other else other;
      near <= far && (near == far ==> k <= j)
  }

  /** In plain terms: an id is found exactly when some entry matches, and it is that of the closest. */
  lemma {:induction false} BestIsClosest(entries: seq<Entry>, w: Window)
    ensures Best(entries, w).None? <==> forall j | 0 <= j < |entries| :: !Matches(entries[j], w)
    ensures Best(entries, w).Some? ==> exists k :: ClosestAt(entries, w, k) && entries[k] == Best(entries, w).value
  {
    BestIsNearest(entries, w);
    assert forall j | 0 <= j < |entries| :: Matches(entries[j], w) <==> Fits(entries[j], w);
    if Best(entries, w).Some? {
      var k :| NearestAt(entries, w, k) && entries[k] == Best(entries, w).value;
      assert forall j | 0 <= j < |entries| && j != k :: Beaten(entries[j], w, Distance(entries[k], w), j < k);
      assert ClosestAt(entries, w, k);
    }
  }

  /** The entries of one extension, in order. */
  function OfExt(entries: seq<Entry>, ext: string): seq<Entry> {
    if entries == [] then [] else
      OfExt(entries[..|entries| - 1], ext) +
      if entries[|entries| - 1].from == ext then [entries[|entries| - 1]] else []
  }

  /** Looking only among the extension's own entries finds the same. */
  lemma {:induction false} IndexIsScan(entries: seq<Entry>, w: Window)
    ensures Best(OfExt(entries, w.ext), w) == Best(entries, w)
  {
    if entries != [] {
      var n := |entries| - 1;
      IndexIsScan(entries[..n], w);
      var own := OfExt(entries[..n], w.ext);
      var more := own + [entries[n]];
      assert more[..|own|] == own && more[|own|] == entries[n] && own + [] == own;
    }
  }

  function Entries(byExt: map<string, seq<Entry>>, ext: string): seq<Entry> {
    if ext in byExt then byExt[ext] else []
  }

  ghost predicate Indexes(byExt: map<string, seq<Entry>>, entries: seq<Entry>) {
    forall ext :: Entries(byExt, ext) == OfExt(entries, ext)
  }

  lemma {:induction false} OneMore(byExt: map<string, seq<Entry>>, entries: seq<Entry>, e: Entry)
    requires Indexes(byExt, entries)
    ensures Indexes(byExt[e.from := Entries(byExt, e.from) + [e]], entries + [e])
  {
    var more := byExt[e.from := Entries(byExt, e.from) + [e]];
    assert (entries + [e])[..|entries|] == entries;
    forall ext ensures Entries(more, ext) == OfExt(entries + [e], ext) {
      assert Entries(byExt, ext) == OfExt(entries, ext);
    }
  }

  method IndexByExt(entries: seq<Entry>) returns (byExt: map<string, seq<Entry>>)
    ensures Indexes(byExt, entries)
  {
    byExt := map[];
    for i := 0 to |entries|
      invariant Indexes(byExt, entries[..i])
    {
      var e := entries[i];
      OneMore(byExt, entries[..i], e);
      assert entries[..i + 1] == entries[..i] + [e];
      byExt := byExt[e.from := (if e.from in byExt then byExt[e.from] else []) + [e]];
    }
    assert entries[..|entries|] == entries;
  }

  method FindBest(entries: seq<Entry>, w: Window) returns (best: Option<Entry>)
    requires forall i | 0 <= i < |entries| :: entries[i].from == w.ext
    ensures best == Best(entries, w)
  {
    best := None;
    for i := 0 to |entries|
      invariant best == Best(entries[..i], w)
    {
      assert entries[..i + 1][..i] == entries[..i];
      var e := entries[i];
      if e.start < w.start - TOLERANCE || e.start > w.end + TOLERANCE { continue; }
      var diff := e.start - w.start;
      if diff < 0 { diff := -diff; }
      if best.None? || diff < Distance(best.value, w) { best := Some(e); }
    }
    assert entries[..|entries|] == entries;
  }

  lemma {:induction false} OfExtOwn(entries: seq<Entry>, ext: string)
    ensures forall i | 0 <= i < |OfExt(entries, ext)| :: OfExt(entries, ext)[i].from == ext
  {
    if entries != [] { OfExtOwn(entries[..|entries| - 1], ext); }
  }

  method FindOne(ghost entries: seq<Entry>, byExt: map<string, seq<Entry>>, w: Window) returns (best: Option<Entry>)
    requires Indexes(byExt, entries)
    ensures best == Best(entries, w)
  {
    OfExtOwn(entries, w.ext);
    IndexIsScan(entries, w);
    assert Entries(byExt, w.ext) == OfExt(entries, w.ext);
    best := FindBest(if w.ext in byExt then byExt[w.ext] else [], w);
  }

  /** batchFindCDRUniqueIDs once the entries are downloaded: by way of an index, each window gets the id that a scan
      over all entries would find, and none if that finds none. */
  method FindUniqueIDs(entries: seq<Entry>, windows: seq<Window>) returns (ids: map<nat, string>)
    ensures forall i: nat :: i in ids <==> i < |windows| && Best(entries, windows[i]).Some?
    ensures forall i: nat | i in ids :: ids[i] == Best(entries, windows[i]).value.uniqueID
  {
    var byExt := IndexByExt(entries);
    ids := map[];
    for i := 0 to |windows|
      invariant forall k: nat :: k in ids <==> k < i && Best(entries, windows[k]).Some?
      invariant forall k: nat | k in ids :: ids[k] == Best(entries, windows[k]).value.uniqueID
    {
      var w := windows[i];
      var best := FindOne(entries, byExt, w);
      if best.Some? { ids := ids[i := best.value.uniqueID]; }
    }
  }
}

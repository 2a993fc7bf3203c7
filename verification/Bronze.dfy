/**
 * Bronze extraction as values: the two keyset lanes of one run, their queries and pages, and the
 * source as an oracle over rows in lane order.
 *
 * Rows with a watermark are read in (watermark, identity) order, rows without one in identity
 * order. A page's hash is modelled by its rows.
 */
module Bronze {
  import opened Wrappers
  import opened Text
  import Campaign

  datatype Lane = Primary | NullWatermark

  /** Inclusive bounds, as the source text that the queries compare with. */
  datatype Window = Window(effectiveFrom: string, requestedFrom: string, requestedTo: string)

  type Positive = Campaign.Positive

  datatype Plan = Plan(window: Window, pageSize: Positive, maxRows: Positive)

  /** `conforms` is the check of the remaining columns against the frozen contract. */
  datatype Row = Row(identity: string, watermark: Option<string>, fallback: Option<string>, department: string,
                     conforms: bool, payload: string)

  datatype Cursor = Cursor(timestamp: Option<string>, identity: string)

  function CursorOf(row: Row, lane: Lane): Cursor {
    Cursor(if lane == Primary then row.watermark else None, row.identity)
  }

  /** The order of the cursor fields, timestamp first. */
  predicate Before(a: Cursor, b: Cursor) {
    || (a.timestamp.Some? && b.timestamp.Some? && Less(a.timestamp.value, b.timestamp.value))
    || (a.timestamp == b.timestamp && Less(a.identity, b.identity))
  }

  predicate Follows(requested: Option<Cursor>, row: Row, lane: Lane) {
    requested.Some? ==> Before(requested.value, CursorOf(row, lane))
  }

  // ---- Queries ----------------------------------------------------------------------------

  datatype Query = Query(lane: Lane, window: Window, limit: int, cursor: Option<Cursor>)

  predicate AtLeast(a: string, b: string) { !Less(a, b) }

  predicate InWindow(row: Row, window: Window, lane: Lane) {
    && row.department == Campaign.DEPARTMENT
    && match lane
       case Primary =>
         row.watermark.Some? && AtLeast(row.watermark.value, window.effectiveFrom) && AtLeast(window.requestedTo, row.watermark.value)
       case NullWatermark =>
         row.watermark.None? && row.fallback.Some?
         && AtLeast(row.fallback.value, window.requestedFrom) && AtLeast(window.requestedTo, row.fallback.value)
  }

  /** The keyset predicates as the queries spell them out. */
  predicate PastCursor(row: Row, cursor: Cursor, lane: Lane) {
    match lane
    case Primary =>
      row.watermark.Some? && cursor.timestamp.Some?
      && (Less(cursor.timestamp.value, row.watermark.value)
          || (row.watermark == cursor.timestamp && Less(cursor.identity, row.identity)))
    case NullWatermark => Less(cursor.identity, row.identity)
  }

  predicate Matches(row: Row, query: Query) {
    InWindow(row, query.window, query.lane) && (query.cursor.Some? ==> PastCursor(row, query.cursor.value, query.lane))
  }

  function Select(table: seq<Row>, query: Query): (out: seq<Row>)
    ensures forall row :: row in out <==> row in table && Matches(row, query)
  {
    if table == [] then []
    else
      assert forall row :: row in table <==> row == table[0] || row in table[1..];
      if Matches(table[0], query) then [table[0]] + Select(table[1..], query) else Select(table[1..], query)
  }

  /** A source whose rows are listed lane by lane, each in its lane's order. */
  datatype Truth = Truth(primary: seq<Row>, rest: seq<Row>)
  {
    function Rows(lane: Lane): seq<Row> { if lane == Primary then primary else rest }
  }

  predicate Sorted(rows: seq<Row>, lane: Lane) {
    forall i, j :: 0 <= i < j < |rows| ==> Before(CursorOf(rows[i], lane), CursorOf(rows[j], lane))
  }

  predicate TruthOk(t: Truth) {
    && (forall row :: row in t.primary ==> row.watermark.Some?) && (forall row :: row in t.rest ==> row.watermark.None?)
    && Sorted(t.primary, Primary) && Sorted(t.rest, NullWatermark)
  }

  /** The first rows the query matches, in lane order, at most its limit. */
  function Answer(t: Truth, query: Query): seq<Row> {
    var rows := Select(t.Rows(query.lane), query);
    if 0 <= query.limit < |rows| then rows[..query.limit] else rows
  }

  /** Everything of one lane that lies in the window. */
  function LaneWindow(t: Truth, window: Window, lane: Lane): seq<Row> {
    Select(t.Rows(lane), Query(lane, window, 0, None))
  }

  // ---- Pages ------------------------------------------------------------------------------

  datatype Page = Page(lane: Lane, sequence: nat, rows: seq<Row>, requested: Option<Cursor>, final: Option<Cursor>,
      query: Query)

  datatype Run = Run(pages: seq<Page>, primaryDone: bool, nullDone: bool, truncated: bool, received: int)
  {
    predicate Done(lane: Lane) { if lane == Primary then primaryDone else nullDone }

    function Finished(lane: Lane): Run {
      if lane == Primary then this.(primaryDone := true) else this.(nullDone := true)
    }

    predicate RangeComplete() { primaryDone && nullDone && !truncated }
  }

  const BLANK := Run([], false, false, false, 0)

  /** What `validate_page` and the cursor construction demand of a row. */
  predicate Acceptable(row: Row, lane: Lane) {
    row.conforms && row.identity != "" && if lane == Primary then row.watermark.Some? && row.watermark.value != "" else row.fallback.Some?
  }

  predicate ProgressAt(rows: seq<Row>, lane: Lane, requested: Option<Cursor>, i: nat)
    requires i < |rows|
  {
    Follows(if i == 0 then requested else Some(CursorOf(rows[i - 1], lane)), rows[i], lane)
  }

  /** Every row is past the one before it, the first one past the requested cursor. */
  predicate Progresses(rows: seq<Row>, lane: Lane, requested: Option<Cursor>) {
    forall i :: 0 <= i < |rows| ==> ProgressAt(rows, lane, requested, i)
  }

  predicate ValidPage(rows: seq<Row>, lane: Lane, requested: Option<Cursor>) {
    (forall i :: 0 <= i < |rows| ==> Acceptable(rows[i], lane)) && Progresses(rows, lane, requested)
  }

  function LaneRows(pages: seq<Page>, lane: Lane): seq<Row> {
    if pages == [] then []
    else
      var n := |pages| - 1;
      LaneRows(pages[..n], lane) + if pages[n].lane == lane then pages[n].rows else []
  }

  function LaneCount(pages: seq<Page>, lane: Lane): nat {
    if pages == [] then 0 else LaneCount(pages[..|pages| - 1], lane) + if pages[|pages| - 1].lane == lane then 1 else 0
  }

  function Total(pages: seq<Page>): nat {
    if pages == [] then 0 else Total(pages[..|pages| - 1]) + |pages[|pages| - 1].rows|
  }

  /** The cursor a lane continues from. */
  function LastCursor(pages: seq<Page>, lane: Lane): Option<Cursor> {
    var rows := LaneRows(pages, lane);
    if rows == [] then None else Some(CursorOf(rows[|rows| - 1], lane))
  }

  function NextQuery(plan: Plan, pages: seq<Page>, lane: Lane): Query {
    Query(lane, plan.window, Campaign.Min(plan.pageSize, plan.maxRows - Total(pages)), LastCursor(pages, lane))
  }

  function NewPage(plan: Plan, pages: seq<Page>, lane: Lane, rows: seq<Row>): Page
    requires rows != []
  {
    Page(lane, LaneCount(pages, lane) + 1, rows, LastCursor(pages, lane), Some(CursorOf(rows[|rows| - 1], lane)),
         NextQuery(plan, pages, lane))
  }

  predicate PageOk(plan: Plan, before: seq<Page>, page: Page) {
    && 0 < |page.rows| <= page.query.limit && page == NewPage(plan, before, page.lane, page.rows)
    && ValidPage(page.rows, page.lane, page.requested)
    && (page.lane == Primary ==> LaneCount(before, NullWatermark) == 0)
  }

  function Taken(plan: Plan, run: Run, lane: Lane, rows: seq<Row>): Run
    requires rows != []
  {
    run.(pages := run.pages + [NewPage(plan, run.pages, lane, rows)], received := run.received + |rows|)
  }
}

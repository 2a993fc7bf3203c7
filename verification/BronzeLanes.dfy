/**
 * What a Bronze run keeps page by page: the row cap, keyset progress in each lane, and, against an
 * unchanging source, exact coverage of each lane's window.
 */
module BronzeLanes {
  import opened Wrappers
  import opened Text
  import opened Bronze
  import Campaign

  // ---- Cursor order -----------------------------------------------------------------------

  lemma BeforeTransitive(a: Cursor, b: Cursor, c: Cursor)
    requires Before(a, b) && Before(b, c)
    ensures Before(a, c)
  {
    if a.timestamp.Some? && b.timestamp.Some? && c.timestamp.Some? {
      if Less(a.timestamp.value, b.timestamp.value) && Less(b.timestamp.value, c.timestamp.value) {
        LessTransitive(a.timestamp.value, b.timestamp.value, c.timestamp.value);
      }
    }
    if Less(a.identity, b.identity) && Less(b.identity, c.identity) { LessTransitive(a.identity, b.identity, c.identity); }
  }

  lemma BeforeAsymmetric(a: Cursor, b: Cursor)
    requires Before(a, b)
    ensures !Before(b, a) && a != b
  {
    LessIrreflexive(a.identity);
    if a.timestamp.Some? { LessIrreflexive(a.timestamp.value); }
    if Before(b, a) {
      BeforeTransitive(a, b, a);
    }
  }

  /** The keyset predicates of the queries are the cursor order of their lane. */
  lemma KeysetIsCursorOrder(row: Row, cursor: Cursor, lane: Lane)
    requires row.watermark.Some? == (lane == Primary) && cursor.timestamp.Some? == (lane == Primary)
    ensures PastCursor(row, cursor, lane) <==> Before(cursor, CursorOf(row, lane))
  {
  }

  lemma SortedConcat(a: seq<Row>, b: seq<Row>, lane: Lane)
    requires Sorted(a, lane) && Sorted(b, lane)
    requires a != [] && b != [] ==> Before(CursorOf(a[|a| - 1], lane), CursorOf(b[0], lane))
    ensures Sorted(a + b, lane)
  {
    forall i, j | 0 <= i < j < |a + b| ensures Before(CursorOf((a + b)[i], lane), CursorOf((a + b)[j], lane)) {
      if i < |a| <= j {
        if i < |a| - 1 { BeforeTransitive(CursorOf(a[i], lane), CursorOf(a[|a| - 1], lane), CursorOf(b[0], lane)); }
        if |a| < j { BeforeTransitive(CursorOf(a[i], lane), CursorOf(b[0], lane), CursorOf(b[j - |a|], lane)); }
      }
    }
  }

  /** Row-by-row progress makes a page sorted. */
  lemma {:induction false} ProgressSorts(rows: seq<Row>, lane: Lane, requested: Option<Cursor>)
    requires Progresses(rows, lane, requested)
    ensures Sorted(rows, lane)
  {
    if rows != [] {
      var n := |rows| - 1;
      var before := rows[..n];
      forall i | 0 <= i < |before| ensures ProgressAt(before, lane, requested, i) {
        assert ProgressAt(rows, lane, requested, i);
      }
      ProgressSorts(before, lane, requested);
      assert ProgressAt(rows, lane, requested, n);
      SortedConcat(before, [rows[n]], lane);
      assert before + [rows[n]] == rows;
    }
  }

  // ---- The invariant of a run -------------------------------------------------------------

  predicate PagesOk(plan: Plan, pages: seq<Page>) {
    forall i :: 0 <= i < |pages| ==> PageOk(plan, pages[..i], pages[i])
  }

  predicate Kept(plan: Plan, run: Run) {
    && PagesOk(plan, run.pages) && run.received == Total(run.pages)
    && (run.nullDone || LaneCount(run.pages, NullWatermark) > 0 ==> run.primaryDone)
    && (run.truncated ==> run.received >= plan.maxRows && !(run.primaryDone && run.nullDone))
  }

  /** Every page holds what an unchanging source answers, and a finished lane has nothing left to answer. */
  predicate Served(plan: Plan, run: Run, truth: Truth) {
    && (forall i :: 0 <= i < |run.pages| ==> run.pages[i].rows == Answer(truth, run.pages[i].query))
    && (run.primaryDone ==> LaneRows(run.pages, Primary) == LaneWindow(truth, plan.window, Primary))
    && (run.nullDone ==> LaneRows(run.pages, NullWatermark) == LaneWindow(truth, plan.window, NullWatermark))
  }

  lemma BlankKept(plan: Plan, truth: Truth)
    ensures Kept(plan, BLANK) && Served(plan, BLANK, truth)
  {
  }

  lemma PrefixOk(plan: Plan, pages: seq<Page>)
    requires pages != [] && PagesOk(plan, pages)
    ensures PagesOk(plan, pages[..|pages| - 1]) && PageOk(plan, pages[..|pages| - 1], pages[|pages| - 1])
  {
    var before := pages[..|pages| - 1];
    forall i | 0 <= i < |before| ensures PageOk(plan, before[..i], before[i]) {
      assert before[..i] == pages[..i];
      assert PageOk(plan, pages[..i], pages[i]);
    }
  }

  /** However often a run is interrupted and resumed, it never takes in more rows than its cap. */
  lemma {:induction false} WithinCap(plan: Plan, pages: seq<Page>)
    requires PagesOk(plan, pages)
    ensures Total(pages) <= plan.maxRows
  {
    if pages != [] {
      PrefixOk(plan, pages);
      WithinCap(plan, pages[..|pages| - 1]);
    }
  }

  /** The rows of a lane strictly increase in its order, whatever the source answered. */
  lemma {:induction false} LaneSorted(plan: Plan, pages: seq<Page>, lane: Lane)
    requires PagesOk(plan, pages)
    ensures Sorted(LaneRows(pages, lane), lane)
  {
    if pages != [] {
      var n := |pages| - 1;
      PrefixOk(plan, pages);
      LaneSorted(plan, pages[..n], lane);
      if pages[n].lane == lane {
        var before, rows := LaneRows(pages[..n], lane), pages[n].rows;
        ProgressSorts(rows, lane, pages[n].requested);
        assert ProgressAt(rows, lane, pages[n].requested, 0);
        SortedConcat(before, rows, lane);
      }
    }
  }

  lemma LaneRowsSnoc(pages: seq<Page>, page: Page, lane: Lane)
    ensures LaneRows(pages + [page], lane) == LaneRows(pages, lane) + if page.lane == lane then page.rows else []
    ensures LaneCount(pages + [page], lane) == LaneCount(pages, lane) + if page.lane == lane then 1 else 0
    ensures Total(pages + [page]) == Total(pages) + |page.rows|
  {
    assert (pages + [page])[..|pages|] == pages;
  }

  // ---- Steps ------------------------------------------------------------------------------

  lemma TakenKept(plan: Plan, run: Run, lane: Lane, rows: seq<Row>)
    requires Kept(plan, run) && run.received < plan.maxRows && !run.Done(lane) && (lane == NullWatermark ==> run.primaryDone)
    requires 0 < |rows| <= NextQuery(plan, run.pages, lane).limit && ValidPage(rows, lane, LastCursor(run.pages, lane))
    ensures Kept(plan, Taken(plan, run, lane, rows))
  {
    hide ValidPage, LastCursor;
    var page := NewPage(plan, run.pages, lane, rows);
    var pages := run.pages + [page];
    LaneRowsSnoc(run.pages, page, NullWatermark);
    forall i | 0 <= i < |pages| ensures PageOk(plan, pages[..i], pages[i]) {
      if i < |run.pages| {
        assert PageOk(plan, run.pages[..i], run.pages[i]);
        assert pages[..i] == run.pages[..i];
      } else {
        assert pages[..i] == run.pages;
      }
    }
  }

  // ---- Against an unchanging source -------------------------------------------------------

  /** The rows past a cursor. */
  function After(rows: seq<Row>, cursor: Option<Cursor>, lane: Lane): seq<Row> {
    if cursor.None? || rows == [] then rows
    else if Before(cursor.value, CursorOf(rows[0], lane)) then [rows[0]] + After(rows[1..], cursor, lane)
    else After(rows[1..], cursor, lane)
  }

  predicate LaneShaped(rows: seq<Row>, lane: Lane) {
    forall i :: 0 <= i < |rows| ==> rows[i].watermark.Some? == (lane == Primary)
  }

  lemma TruthShaped(t: Truth, lane: Lane)
    requires TruthOk(t)
    ensures LaneShaped(t.Rows(lane), lane) && Sorted(t.Rows(lane), lane)
  {
  }

  lemma {:induction false} SelectAfter(table: seq<Row>, window: Window, limit: int, cursor: Option<Cursor>, lane: Lane)
    requires LaneShaped(table, lane) && (cursor.Some? ==> cursor.value.timestamp.Some? == (lane == Primary))
    ensures Select(table, Query(lane, window, limit, cursor)) == After(Select(table, Query(lane, window, 0, None)), cursor, lane)
  {
    hide InWindow, Before, PastCursor;
    if table != [] {
      assert forall i :: 0 <= i < |table[1..]| ==> table[1..][i] == table[i + 1];
      SelectAfter(table[1..], window, limit, cursor, lane);
      if cursor.Some? { KeysetIsCursorOrder(table[0], cursor.value, lane); }
      var rest := Select(table[1..], Query(lane, window, 0, None));
      assert ([table[0]] + rest)[1..] == rest;
    }
  }

  lemma {:induction false} SelectSorted(table: seq<Row>, query: Query)
    requires Sorted(table, query.lane)
    ensures Sorted(Select(table, query), query.lane)
  {
    hide Before, Matches;
    if table != [] {
      var tail := table[1..];
      assert forall i :: 0 <= i < |tail| ==> tail[i] == table[i + 1];
      SelectSorted(tail, query);
      var rest := Select(tail, query);
      if Matches(table[0], query) {
        if rest != [] {
          assert rest[0] in tail;
          var k :| 0 <= k < |tail| && tail[k] == rest[0];
          assert Before(CursorOf(table[0], query.lane), CursorOf(table[k + 1], query.lane));
        }
        SortedConcat([table[0]], rest, query.lane);
      }
    }
  }

  lemma {:induction false} AfterKeeps(rows: seq<Row>, cursor: Cursor, lane: Lane)
    requires forall i :: 0 <= i < |rows| ==> Before(cursor, CursorOf(rows[i], lane))
    ensures After(rows, Some(cursor), lane) == rows
  {
    hide Before;
    if rows != [] {
      assert forall i :: 0 <= i < |rows[1..]| ==> rows[1..][i] == rows[i + 1];
      AfterKeeps(rows[1..], cursor, lane);
    }
  }

  /** On rows in lane order, filtering past the k-th row's cursor drops exactly the first k rows. */
  lemma {:induction false} AfterDrops(rows: seq<Row>, k: nat, lane: Lane)
    requires Sorted(rows, lane) && 0 < k <= |rows|
    ensures After(rows, Some(CursorOf(rows[k - 1], lane)), lane) == rows[k..]
  {
    hide Before;
    var cursor := CursorOf(rows[k - 1], lane);
    var tail := rows[1..];
    assert forall i :: 0 <= i < |tail| ==> tail[i] == rows[i + 1];
    if k == 1 {
      NotBeforeItself(cursor);
      AfterKeeps(tail, cursor, lane);
    } else {
      BeforeAsymmetric(CursorOf(rows[0], lane), cursor);
      AfterDrops(tail, k - 1, lane);
      assert tail[k - 1..] == rows[k..];
    }
  }

  lemma NotBeforeItself(c: Cursor)
    ensures !Before(c, c)
  {
    LessIrreflexive(c.identity);
    if c.timestamp.Some? { LessIrreflexive(c.timestamp.value); }
  }

  /** The next answer continues the window exactly where the first k rows end. */
  lemma NextAnswer(t: Truth, window: Window, lane: Lane, k: nat, limit: int, cursor: Option<Cursor>)
    requires TruthOk(t) && limit > 0 && k <= |LaneWindow(t, window, lane)|
    requires cursor == if k == 0 then None else Some(CursorOf(LaneWindow(t, window, lane)[k - 1], lane))
    ensures var wanted := LaneWindow(t, window, lane);
            var rows := Answer(t, Query(lane, window, limit, cursor));
            && k + |rows| <= |wanted| && rows == wanted[k..k + |rows|]
            && (|rows| < limit ==> k + |rows| == |wanted|)
  {
    hide Matches, Select, Before;
    var wanted := LaneWindow(t, window, lane);
    TruthShaped(t, lane);
    SelectSorted(t.Rows(lane), Query(lane, window, 0, None));
    if k > 0 {
      assert wanted[k - 1] in t.Rows(lane);
      AfterDrops(wanted, k, lane);
    }
    SelectAfter(t.Rows(lane), window, limit, cursor, lane);
    assert Select(t.Rows(lane), Query(lane, window, limit, cursor)) == wanted[k..];
  }

  /** A lane's pages hold a prefix of its window. */
  predicate Prefixed(pages: seq<Page>, wanted: seq<Row>, lane: Lane) {
    var rows := LaneRows(pages, lane);
    |rows| <= |wanted| && rows == wanted[..|rows|]
  }

  lemma NextPrefix(plan: Plan, before: seq<Page>, page: Page, t: Truth)
    requires PageOk(plan, before, page) && TruthOk(t) && page.rows == Answer(t, page.query)
    requires Prefixed(before, LaneWindow(t, plan.window, page.lane), page.lane)
    ensures Prefixed(before + [page], LaneWindow(t, plan.window, page.lane), page.lane)
  {
    hide LaneWindow, Answer, TruthOk, ValidPage, LaneRows;
    LaneRowsSnoc(before, page, page.lane);
    NextAnswer(t, plan.window, page.lane, |LaneRows(before, page.lane)|, page.query.limit, LastCursor(before, page.lane));
  }

  lemma {:induction false} LanePrefix(plan: Plan, pages: seq<Page>, t: Truth, lane: Lane)
    requires PagesOk(plan, pages) && TruthOk(t)
    requires forall i :: 0 <= i < |pages| ==> pages[i].rows == Answer(t, pages[i].query)
    ensures Prefixed(pages, LaneWindow(t, plan.window, lane), lane)
  {
    hide LaneWindow, Answer, Select, TruthOk, PagesOk, PageOk;
    if pages != [] {
      var n := |pages| - 1;
      var before, page := pages[..n], pages[n];
      PrefixOk(plan, pages);
      LanePrefix(plan, before, t, lane);
      assert pages == before + [page];
      if page.lane == lane { NextPrefix(plan, before, page, t); } else { LaneRowsSnoc(before, page, lane); }
    }
  }

  lemma TakenServed(plan: Plan, run: Run, lane: Lane, rows: seq<Row>, t: Truth)
    requires Served(plan, run, t) && rows != [] && !run.Done(lane)
    requires rows == Answer(t, NextQuery(plan, run.pages, lane))
    ensures Served(plan, Taken(plan, run, lane, rows), t)
  {
    hide LaneWindow, Answer, NextQuery;
    var page := NewPage(plan, run.pages, lane, rows);
    LaneRowsSnoc(run.pages, page, Primary);
    LaneRowsSnoc(run.pages, page, NullWatermark);
  }

  /** A short answer means that the lane's window is exhausted. */
  lemma ShortAnswerFinishes(plan: Plan, run: Run, lane: Lane, rows: seq<Row>, t: Truth)
    requires Kept(plan, run) && Served(plan, run, t) && TruthOk(t) && run.received < plan.maxRows
    requires rows == Answer(t, NextQuery(plan, run.pages, lane)) && |rows| < NextQuery(plan, run.pages, lane).limit
    ensures LaneRows(run.pages, lane) + rows == LaneWindow(t, plan.window, lane)
  {
    hide LaneWindow, Answer, TruthOk, PagesOk;
    LanePrefix(plan, run.pages, t, lane);
    NextAnswer(t, plan.window, lane, |LaneRows(run.pages, lane)|, NextQuery(plan, run.pages, lane).limit,
        LastCursor(run.pages, lane));
  }

  // ---- What is accepted -------------------------------------------------------------------

  /**
   * A page is accepted exactly when every row conforms, has an identity and the date of its lane, and
   * each row comes after the one before it, the first one after the cursor that was asked past.
   */
  lemma ValidPageExact(rows: seq<Row>, lane: Lane, requested: Option<Cursor>)
    ensures ValidPage(rows, lane, requested) <==>
              && (forall row :: row in rows ==> row.conforms && row.identity != "")
              && (lane == Primary ==> forall row :: row in rows ==> row.watermark.Some? && row.watermark.value != "")
              && (lane == NullWatermark ==> forall row :: row in rows ==> row.fallback.Some?)
              && Sorted(rows, lane)
              && (requested.Some? && rows != [] ==> Before(requested.value, CursorOf(rows[0], lane)))
  {
    hide Before, CursorOf;
    if ValidPage(rows, lane, requested) {
      ProgressSorts(rows, lane, requested);
      assert rows != [] ==> ProgressAt(rows, lane, requested, 0);
    }
    if Sorted(rows, lane) && (requested.Some? && rows != [] ==> Before(requested.value, CursorOf(rows[0], lane))) {
      forall i | 0 <= i < |rows| ensures ProgressAt(rows, lane, requested, i) {
        if i > 0 { assert Before(CursorOf(rows[i - 1], lane), CursorOf(rows[i], lane)); }
      }
    }
    assert forall i :: 0 <= i < |rows| ==> rows[i] in rows;
  }

  /** Every row of the source conforms and carries its identity. */
  predicate Wellformed(t: Truth) {
    && (forall row :: row in t.primary ==> row.conforms && row.identity != "" && row.watermark != Some(""))
    && (forall row :: row in t.rest ==> row.conforms && row.identity != "")
  }

  /** What a well-formed source that does not change answers is always accepted. */
  lemma HonestAccepted(plan: Plan, run: Run, t: Truth, lane: Lane)
    requires Kept(plan, run) && Served(plan, run, t) && TruthOk(t) && Wellformed(t) && run.received < plan.maxRows
    ensures ValidPage(Answer(t, NextQuery(plan, run.pages, lane)), lane, LastCursor(run.pages, lane))
  {
    hide LaneWindow, Answer, TruthOk, PagesOk, ValidPage, Wellformed, CursorOf;
    var k := |LaneRows(run.pages, lane)|;
    LanePrefix(plan, run.pages, t, lane);
    NextAnswer(t, plan.window, lane, k, NextQuery(plan, run.pages, lane).limit, LastCursor(run.pages, lane));
    WindowAccepted(t, plan.window, lane, k, k + |Answer(t, NextQuery(plan, run.pages, lane))|);
  }

  /** Any stretch of a lane's window is an acceptable page. */
  lemma WindowAccepted(t: Truth, window: Window, lane: Lane, from: nat, to: nat)
    requires TruthOk(t) && Wellformed(t) && from <= to <= |LaneWindow(t, window, lane)|
    ensures var wanted := LaneWindow(t, window, lane);
            ValidPage(wanted[from..to], lane, if from == 0 then None else Some(CursorOf(wanted[from - 1], lane)))
  {
    var wanted := LaneWindow(t, window, lane);
    TruthShaped(t, lane);
    SelectSorted(t.Rows(lane), Query(lane, window, 0, None));
    var rows := wanted[from..to];
    forall row | row in rows
      ensures row.conforms && row.identity != ""
      ensures if lane == Primary then row.watermark.Some? && row.watermark.value != "" else row.fallback.Some?
    {
      assert row in wanted;
      WindowRows(t, window, row);
    }
    hide Before, CursorOf, Select, ValidPage, LaneWindow;
    assert Sorted(rows, lane);
    ValidPageExact(rows, lane, if from == 0 then None else Some(CursorOf(wanted[from - 1], lane)));
  }

  // ---- What a window holds, row by row ----------------------------------------------------

  /** Updated within the window, which for updates starts earlier by the overlap. */
  predicate Updated(row: Row, window: Window) {
    && row.department == "Antioquia" && row.watermark.Some?
    && !Less(row.watermark.value, window.effectiveFrom) && !Less(window.requestedTo, row.watermark.value)
  }

  /** Never updated, and signed within what was asked for. */
  predicate Signed(row: Row, window: Window) {
    && row.department == "Antioquia" && row.watermark.None? && row.fallback.Some?
    && !Less(row.fallback.value, window.requestedFrom) && !Less(window.requestedTo, row.fallback.value)
  }

  lemma WindowRows(t: Truth, window: Window, row: Row)
    ensures row in LaneWindow(t, window, Primary) <==> row in t.primary && Updated(row, window)
    ensures row in LaneWindow(t, window, NullWatermark) <==> row in t.rest && Signed(row, window)
  {
  }

  /** A page of the lane holds the row. */
  predicate Holds(pages: seq<Page>, lane: Lane, row: Row) {
    exists p :: 0 <= p < |pages| && pages[p].lane == lane && row in pages[p].rows
  }

  lemma {:induction false} LaneRowsHeld(pages: seq<Page>, lane: Lane, row: Row)
    ensures row in LaneRows(pages, lane) <==> Holds(pages, lane, row)
  {
    if pages != [] {
      var n := |pages| - 1;
      LaneRowsHeld(pages[..n], lane, row);
      if p :| 0 <= p < n && pages[..n][p].lane == lane && row in pages[..n][p].rows { assert pages[p].lane == lane; }
      if p :| 0 <= p < n && pages[p].lane == lane && row in pages[p].rows { assert pages[..n][p] == pages[p]; }
    }
  }

  /** The pages hold exactly the rows of the source that belong in the window. */
  ghost predicate CoversWindow(pages: seq<Page>, window: Window, t: Truth) {
    && (forall row :: Holds(pages, Primary, row) <==> row in t.primary && Updated(row, window))
    && (forall row :: Holds(pages, NullWatermark, row) <==> row in t.rest && Signed(row, window))
  }

  lemma WindowsCovered(pages: seq<Page>, window: Window, t: Truth)
    requires LaneRows(pages, Primary) == LaneWindow(t, window, Primary)
    requires LaneRows(pages, NullWatermark) == LaneWindow(t, window, NullWatermark)
    ensures CoversWindow(pages, window, t)
  {
    hide Holds, LaneRows, LaneWindow, Updated, Signed;
    forall row ensures Holds(pages, Primary, row) <==> row in t.primary && Updated(row, window) {
      WindowRows(t, window, row);
      LaneRowsHeld(pages, Primary, row);
    }
    forall row ensures Holds(pages, NullWatermark, row) <==> row in t.rest && Signed(row, window) {
      WindowRows(t, window, row);
      LaneRowsHeld(pages, NullWatermark, row);
    }
  }

  // ---- Results ----------------------------------------------------------------------------

  /** No row of one lane's window can be in the other's. */
  lemma LanesDisjoint(t: Truth, window: Window, row: Row)
    ensures !(row in LaneWindow(t, window, Primary) && row in LaneWindow(t, window, NullWatermark))
  {
  }

  /**
   * A run is declared complete exactly when both lanes are; it then holds, against an unchanging
   * source, each lane's window in order, every row once, and never more rows than the cap.
   */
  lemma RangeCompleteExact(plan: Plan, run: Run, t: Truth)
    requires Kept(plan, run) && Served(plan, run, t) && TruthOk(t)
    ensures run.RangeComplete() <==> run.primaryDone && run.nullDone
    ensures run.received <= plan.maxRows && (run.truncated ==> run.received == plan.maxRows)
    ensures run.RangeComplete() ==>
              && LaneRows(run.pages, Primary) == LaneWindow(t, plan.window, Primary)
              && LaneRows(run.pages, NullWatermark) == LaneWindow(t, plan.window, NullWatermark)
              && run.received == |LaneWindow(t, plan.window, Primary)| + |LaneWindow(t, plan.window, NullWatermark)|
  {
    WithinCap(plan, run.pages);
    TotalSplits(run.pages);
  }

  lemma {:induction false} TotalSplits(pages: seq<Page>)
    ensures Total(pages) == |LaneRows(pages, Primary)| + |LaneRows(pages, NullWatermark)|
  {
    if pages != [] { TotalSplits(pages[..|pages| - 1]); }
  }
}

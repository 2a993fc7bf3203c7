/**
 * The source as an oracle over rows ordered by identity, and what an accepted campaign against an
 * unchanging source has covered.
 */
module CampaignSource {
  import opened Wrappers
  import opened Text
  import opened Campaign
  import opened CampaignVerifier
  import opened CampaignSoundness

  predicate Matches(row: Row, filter: Filter) {
    match filter
    case InScope(scope, after) => scope.Contains(row) && (after.Some? ==> Less(after.value, row.id))
    case OneOf(ids) => row.department == DEPARTMENT && row.id in ids
  }

  function Select(table: seq<Row>, filter: Filter): (out: seq<Row>)
    ensures forall row :: row in out <==> row in table && Matches(row, filter)
  {
    if table == [] then []
    else
      assert forall row :: row in table <==> row == table[0] || row in table[1..];
      if Matches(table[0], filter) then [table[0]] + Select(table[1..], filter) else Select(table[1..], filter)
  }

  /** The answer to a query: the matching rows in identity order, at most `limit` of them. */
  function Answer(table: seq<Row>, query: Query): seq<Row> {
    var rows := Select(table, query.filter);
    if 0 <= query.limit < |rows| then rows[..query.limit] else rows
  }

  predicate TableOk(table: seq<Row>) { Increasing(RowIds(table)) }

  /** Every page holds what an unchanging source answers to the page's own query. */
  predicate ServedBy(pages: seq<Page>, table: seq<Row>) {
    forall i :: 0 <= i < |pages| ==> pages[i].digest == Answer(table, pages[i].query)
  }

  // ---- What is accepted -------------------------------------------------------------------

  /** A row that any page may hold: of the contract and the department, with a usable identity. */
  predicate Proper(row: Row) { row.conforms && Usable(row.id) && row.department == "Antioquia" }

  /** Which answers a lane takes: proper rows in strict order of identity, past the cursor and in scope, or asked for. */
  lemma PageRowsExact(rows: seq<Row>, scope: Scope, cursor: Option<string>, batch: seq<string>)
    ensures ValidScanRows(rows, scope, cursor) <==>
              && (forall i :: 0 <= i < |rows| ==> Proper(rows[i]))
              && (forall i, j :: 0 <= i < j < |rows| ==> Less(rows[i].id, rows[j].id))
              && (cursor.Some? && rows != [] ==> Less(cursor.value, rows[0].id))
              && (forall i :: 0 <= i < |rows| ==> rows[i].signing.Some? && scope.from <= rows[i].signing.value < scope.to)
    ensures ValidMemberRows(rows, batch) <==>
              && (forall i :: 0 <= i < |rows| ==> Proper(rows[i]))
              && (forall i, j :: 0 <= i < j < |rows| ==> Less(rows[i].id, rows[j].id))
              && (forall i :: 0 <= i < |rows| ==> rows[i].id in batch)
  {
    hide Usable, Less;
    if Increasing(RowIds(rows)) {
      forall i, j | 0 <= i < j < |rows| ensures Less(rows[i].id, rows[j].id) {
        assert Less(RowIds(rows)[i], RowIds(rows)[j]);
      }
    }
  }

  /** What a lane takes as a page. */
  predicate Takes(lane: Lane, rows: seq<Row>, scope: Scope, cursor: Option<string>, batch: seq<string>) {
    if lane == ScanLane then ValidScanRows(rows, scope, cursor) else ValidMemberRows(rows, batch)
  }

  /** Every row of the source conforms and has a usable identity. */
  predicate Wellformed(table: seq<Row>) { forall row :: row in table ==> row.conforms && Usable(row.id) }

  lemma AnswerIncreasing(table: seq<Row>, query: Query)
    requires TableOk(table)
    ensures forall i, j :: 0 <= i < j < |Answer(table, query)| ==> Less(Answer(table, query)[i].id, Answer(table, query)[j].id)
    ensures forall i :: 0 <= i < |Answer(table, query)| ==>
              Answer(table, query)[i] in table && Matches(Answer(table, query)[i], query.filter)
    ensures 0 <= query.limit ==> |Answer(table, query)| <= query.limit
  {
    hide Matches, Less;
    SelectIncreasing(table, query.filter);
    var rows := Select(table, query.filter);
    forall i, j | 0 <= i < j < |rows| ensures Less(rows[i].id, rows[j].id) {
      assert Less(RowIds(rows)[i], RowIds(rows)[j]);
    }
  }

  /** What a well-formed source that does not change answers to a scan page is always accepted. */
  lemma HonestScan(table: seq<Row>, scope: Scope, projection: seq<string>, limit: int, cursor: Option<string>)
    requires TableOk(table) && Wellformed(table)
    ensures Takes(ScanLane, Answer(table, ScopeQuery(scope, projection, limit, cursor)), scope, cursor, [])
  {
    hide Usable, Less;
    AnswerIncreasing(table, ScopeQuery(scope, projection, limit, cursor));
    PageRowsExact(Answer(table, ScopeQuery(scope, projection, limit, cursor)), scope, cursor, []);
  }

  lemma HonestMembers(table: seq<Row>, batch: seq<string>, projection: seq<string>, scope: Scope)
    requires TableOk(table) && Wellformed(table)
    ensures Takes(MemberLane, Answer(table, MemberQuery(batch, projection)), scope, None, batch)
  {
    hide Usable, Less;
    AnswerIncreasing(table, MemberQuery(batch, projection));
    PageRowsExact(Answer(table, MemberQuery(batch, projection)), Scope(0, 0), None, batch);
  }

  // ---- Selection keeps order --------------------------------------------------------------

  lemma {:induction false} SelectIncreasing(table: seq<Row>, filter: Filter)
    requires TableOk(table)
    ensures TableOk(Select(table, filter))
  {
    if table != [] {
      TailOk(table);
      SelectIncreasing(table[1..], filter);
      var rest := Select(table[1..], filter);
      if Matches(table[0], filter) {
        if rest != [] {
          assert rest[0] in table[1..];
          var k :| 0 <= k < |table[1..]| && table[1..][k] == rest[0];
          assert RowIds(table)[k + 1] == rest[0].id;
          assert Less(RowIds(table)[0], RowIds(table)[k + 1]);
        }
        assert RowIds([table[0]] + rest) == [table[0].id] + RowIds(rest);
        IncreasingConcat([table[0].id], RowIds(rest));
      }
    }
  }

  lemma TailOk(table: seq<Row>)
    requires TableOk(table) && table != []
    ensures TableOk(table[1..])
  {
    forall i, j | 0 <= i < j < |table[1..]| ensures Less(RowIds(table[1..])[i], RowIds(table[1..])[j]) {
      assert Less(RowIds(table)[i + 1], RowIds(table)[j + 1]);
    }
  }

  function After(rows: seq<Row>, cursor: Option<string>): seq<Row> {
    if cursor.None? || rows == [] then rows
    else if Less(cursor.value, rows[0].id) then [rows[0]] + After(rows[1..], cursor)
    else After(rows[1..], cursor)
  }

  /** The keyset predicate filters the in-scope rows by the cursor. */
  lemma {:induction false} SelectAfter(table: seq<Row>, scope: Scope, cursor: Option<string>)
    ensures Select(table, InScope(scope, cursor)) == After(Select(table, InScope(scope, None)), cursor)
  {
    if table != [] {
      SelectAfter(table[1..], scope, cursor);
      var rest := Select(table[1..], InScope(scope, None));
      if scope.Contains(table[0]) {
        assert ([table[0]] + rest)[1..] == rest;
      }
    }
  }

  /** On rows in identity order, filtering past the k-th identity drops exactly the first k rows. */
  lemma {:induction false} AfterDrops(rows: seq<Row>, k: nat)
    requires TableOk(rows) && 0 < k <= |rows|
    ensures After(rows, Some(rows[k - 1].id)) == rows[k..]
  {
    var cursor := rows[k - 1].id;
    var ids := RowIds(rows);
    if k == 1 {
      LessIrreflexive(cursor);
      TailOk(rows);
      forall i | 0 <= i < |rows[1..]| ensures Less(cursor, rows[1..][i].id) {
        assert Less(ids[0], ids[i + 1]);
      }
      AfterKeeps(rows[1..], cursor);
    } else {
      assert Less(ids[0], ids[k - 1]);
      LessAsymmetric(ids[0], cursor);
      TailOk(rows);
      AfterDrops(rows[1..], k - 1);
      assert rows[1..][k - 1..] == rows[k..];
    }
  }

  lemma {:induction false} AfterKeeps(rows: seq<Row>, cursor: string)
    requires forall i :: 0 <= i < |rows| ==> Less(cursor, rows[i].id)
    ensures After(rows, Some(cursor)) == rows
  {
    if rows != [] {
      assert forall i :: 0 <= i < |rows[1..]| ==> rows[1..][i] == rows[i + 1];
      AfterKeeps(rows[1..], cursor);
    }
  }

  // ---- Scan completeness ------------------------------------------------------------------

  predicate Covers(pages: seq<Page>, wanted: seq<Row>, p: Progress) {
    var k := |ScanIds(pages)|;
    && k <= |wanted| && ScanIds(pages) == RowIds(wanted[..k])
    && p.cursor == (if k == 0 then None else Some(wanted[k - 1].id))
    && (p.scanComplete ==> k == |wanted|)
  }

  lemma {:induction false} ScanCovers(plan: Plan, pages: seq<Page>, table: seq<Row>)
    requires Replay(plan, pages).Some? && TableOk(table) && ServedBy(pages, table)
    requires forall i :: 0 <= i < |pages| ==> pages[i].query.limit > 0
    ensures Covers(pages, Select(table, InScope(plan.scope, None)), Replay(plan, pages).value)
  {
    hide Advance, Select, Covers, Answer;
    if pages == [] {
      NothingCovered(Select(table, InScope(plan.scope, None)));
    } else {
      var n := |pages| - 1;
      ScanCovers(plan, pages[..n], table);
      PageCovers(plan, pages[..n], Replay(plan, pages[..n]).value, pages[n], table);
      assert pages[..n] + [pages[n]] == pages;
    }
  }

  lemma NothingCovered(wanted: seq<Row>)
    ensures Covers([], wanted, START)
  {
    assert RowIds(wanted[..0]) == [];
  }

  lemma PageCovers(plan: Plan, pages: seq<Page>, p: Progress, page: Page, table: seq<Row>)
    requires TableOk(table) && p.offset <= |plan.Ids()|
    requires Covers(pages, Select(table, InScope(plan.scope, None)), p)
    requires Advance(plan, p, page, |pages| + 1).Some?
    requires page.digest == Answer(table, page.query) && page.query.limit > 0
    ensures Covers(pages + [page], Select(table, InScope(plan.scope, None)), Advance(plan, p, page, |pages| + 1).value)
  {
    AdvancedScan(plan, p, page, |pages| + 1);
    ScanIdsSnoc(pages, page);
    var q := Advance(plan, p, page, |pages| + 1).value;
    hide Advance, ScanIds, ValidScanRows, ValidMemberRows, Matches, Select, Answer, NextCursor;
    if page.lane == ScanLane {
      var k := |ScanIds(pages)|;
      NextPage(plan, table, k, p.cursor, page.query.limit);
      assert |ScanIds(pages + [page])| == k + |page.digest|;
      hide RowIds;
      assert q.cursor == NextCursor(p.cursor, page.digest);
    } else {
      assert ScanIds(pages + [page]) == ScanIds(pages);
    }
  }

  /** The page asked for after the first k in-scope rows holds the next ones, as many as the limit allows. */
  lemma NextPage(plan: Plan, table: seq<Row>, k: nat, cursor: Option<string>, limit: int)
    requires TableOk(table) && limit > 0
    requires k <= |Select(table, InScope(plan.scope, None))|
    requires cursor == if k == 0 then None else Some(Select(table, InScope(plan.scope, None))[k - 1].id)
    ensures var wanted := Select(table, InScope(plan.scope, None));
            var rows := Answer(table, ScopeQuery(plan.scope, plan.projection, limit, cursor));
            && k + |rows| <= |wanted| && rows == wanted[k..k + |rows|]
            && RowIds(wanted[..k]) + RowIds(rows) == RowIds(wanted[..k + |rows|])
            && (|rows| < limit ==> k + |rows| == |wanted|)
            && NextCursor(cursor, rows) == if k + |rows| == 0 then None else Some(wanted[k + |rows| - 1].id)
  {
    hide Matches, Select;
    var wanted := Select(table, InScope(plan.scope, None));
    SelectIncreasing(table, InScope(plan.scope, None));
    SelectAfter(table, plan.scope, cursor);
    if k > 0 {
      AfterDrops(wanted, k);
    } else {
      assert wanted[0..] == wanted;
    }
    assert Select(table, InScope(plan.scope, cursor)) == wanted[k..];
  }

  /**
   * Scan completeness: against an unchanging source the scan pages of any accepted log hold a
   * prefix of the in-scope identities in order, and all of them, each once, when the lane is complete.
   */
  lemma ScanCompleteness(m: Manifest, files: map<Path, seq<Row>>, metadata: Option<Metadata>, table: seq<Row>)
    requires Accepts(m, files, metadata) && TableOk(table) && ServedBy(m.pages, table)
    ensures ScanIds(m.pages) <= RowIds(Select(table, InScope(m.scope, None)))
    ensures m.scan.complete ==> ScanIds(m.pages) == RowIds(Select(table, InScope(m.scope, None)))
  {
    assert forall i :: 0 <= i < |m.pages| ==> PageBounded(m.pages[i], m.parameters.pageSize);
    ScanCovers(m.parameters, m.pages, table);
    var wanted := Select(table, InScope(m.scope, None));
    assert wanted[..|wanted|] == wanted;
  }

  // ---- Membership completeness ------------------------------------------------------------

  lemma {:induction false} IncreasingDistinct(ids: seq<string>, within: seq<string>)
    requires Increasing(ids) && forall id :: id in ids ==> id in within
    ensures |ids| <= |within|
  {
    DistinctCount(ids);
    SetCount(within);
    assert Elements(ids) <= Elements(within);
    SubsetCount(Elements(ids), Elements(within));
  }

  lemma {:induction false} DistinctCount(ids: seq<string>)
    requires Increasing(ids)
    ensures |Elements(ids)| == |ids|
  {
    if ids != [] {
      var n := |ids| - 1;
      DistinctCount(ids[..n]);
      if ids[n] in ids[..n] {
        var i :| 0 <= i < n && ids[i] == ids[n];
        LessIrreflexive(ids[n]);
        assert false;
      }
      assert ids == ids[..n] + [ids[n]];
      assert Elements(ids) == Elements(ids[..n]) + {ids[n]};
    }
  }

  lemma {:induction false} SetCount(ids: seq<string>)
    ensures |Elements(ids)| <= |ids|
  {
    if ids != [] {
      var n := |ids| - 1;
      SetCount(ids[..n]);
      assert ids == ids[..n] + [ids[n]];
      assert Elements(ids) == Elements(ids[..n]) + {ids[n]};
    }
  }

  lemma SubsetCount(a: set<string>, b: set<string>)
    requires a <= b
    ensures |a| <= |b|
  {
    assert b == a + (b - a);
  }

  /** A fixed batch never needs a second page: its answer always fits the batch. */
  lemma BatchFits(table: seq<Row>, ids: seq<string>, projection: seq<string>)
    requires TableOk(table)
    ensures Answer(table, MemberQuery(ids, projection)) == Select(table, OneOf(ids))
  {
    var rows := Select(table, OneOf(ids));
    SelectIncreasing(table, OneOf(ids));
    forall id | id in RowIds(rows) ensures id in ids {
      var i :| 0 <= i < |rows| && RowIds(rows)[i] == id;
      assert rows[i] in rows;
    }
    IncreasingDistinct(RowIds(rows), ids);
  }

  /** An identity the source registers for the department, whatever its signing date. */
  predicate Registered(table: seq<Row>, id: string) {
    exists row :: row in table && row.id == id && row.department == DEPARTMENT
  }

  lemma {:induction false} MembersAnswered(plan: Plan, pages: seq<Page>, table: seq<Row>)
    requires Replay(plan, pages).Some? && TableOk(table) && ServedBy(pages, table)
    ensures forall id :: id in MemberIds(pages) <==> id in AskedIds(pages) && Registered(table, id)
  {
    hide ValidScanRows, ValidMemberRows;
    if pages != [] {
      var n := |pages| - 1;
      MembersAnswered(plan, pages[..n], table);
      var page := pages[n];
      if page.lane == MemberLane {
        var batch := Batch(plan.Ids(), Replay(plan, pages[..n]).value.offset, plan.pageSize);
        BatchFits(table, batch, plan.projection);
        forall id ensures id in RowIds(page.digest) <==> id in batch && Registered(table, id) {
          BatchAnswer(table, batch, id);
        }
      }
    }
  }

  lemma BatchAnswer(table: seq<Row>, batch: seq<string>, id: string)
    ensures id in RowIds(Select(table, OneOf(batch))) <==> id in batch && Registered(table, id)
  {
    var rows := Select(table, OneOf(batch));
    if id in RowIds(rows) {
      var i :| 0 <= i < |rows| && RowIds(rows)[i] == id;
      assert rows[i] in rows;
    }
    if id in batch && Registered(table, id) {
      var row :| row in table && row.id == id && row.department == DEPARTMENT;
      assert row in rows;
      var i :| 0 <= i < |rows| && rows[i] == row;
      assert RowIds(rows)[i] == id;
    }
  }

  /**
   * Against an unchanging source, the members an accepted log reports missing are exactly the
   * baseline identities it asked for that the source does not register.
   */
  lemma MembershipCompleteness(m: Manifest, files: map<Path, seq<Row>>, metadata: Option<Metadata>, table: seq<Row>)
    requires Accepts(m, files, metadata) && TableOk(table) && ServedBy(m.pages, table)
    ensures forall id :: id in m.members.missing <==> id in AskedIds(m.pages) && !Registered(table, id)
  {
    hide Advance, Replay, MemberIds, AskedIds;
    AcceptedLanes(m, files, metadata);
    MembersAnswered(m.parameters, m.pages, table);
  }
}

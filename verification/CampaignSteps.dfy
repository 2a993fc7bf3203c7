/** Each step of the ledger and of the two lanes keeps the writer's books. */
module CampaignSteps {
  import opened Wrappers
  import opened Text
  import opened Campaign
  import opened CampaignVerifier
  import opened CampaignSoundness
  import opened CampaignWriter

  // ---- Grants -----------------------------------------------------------------------------

  /** A grant the ledger allows: positive, within what the ceilings leave, under a key of its own. */
  predicate Grantable(m: Manifest, grant: Usage, key: Option<string>) {
    && grant.rows > 0 && grant.attempts > 0
    && (if m.parameters.named then key.Some? && SafeIdentifier(key.value) && (forall i :: 0 <= i < |m.invocations| ==> m.invocations[i].key != key)
        else key == None)
  }

  lemma GrantedBooks(m: Manifest, grant: Usage, key: Option<string>)
    requires Books(m) && Settled(m) && Grantable(m, grant, key)
    ensures Books(Granted(m, grant, key))
  {
    hide Replay, Advance, ReceiptMatches, ReceiptsKept, PageBounded;
    var g := Granted(m, grant, key);
    var n := |m.invocations|;
    var rs, named := m.reservations, m.parameters.named;
    assert PagesKept(g);
    IdsOnly(rs, m.invocations, g.invocations);
    NewInvocationUncharged(m);
    forall i | 0 <= i < n + 1 ensures InvocationKept(named, rs, g.invocations, i) {
      if i < n { assert InvocationKept(named, rs, m.invocations, i); }
      forall j | 0 <= j < i ensures g.invocations[j].key == m.invocations[j].key { }
    }
  }

  lemma NewInvocationUncharged(m: Manifest)
    requires Books(m)
    ensures ConsumedBy(m.reservations, |m.invocations| + 1) == Usage(0, 0)
  {
    forall r | r in m.reservations ensures r.invocation != |m.invocations| + 1 {
      var i :| 0 <= i < |m.reservations| && m.reservations[i] == r;
      assert ReservationOk(m.reservations, m.invocations, i);
    }
    NothingConsumedBy(m.reservations, |m.invocations| + 1);
  }

  // ---- Reservations -----------------------------------------------------------------------

  predicate RequestShape(lane: Lane, query: Option<Query>, capacity: int) {
    capacity >= 0 && (lane == MetadataLane ==> capacity == 0 && query == None)
  }

  lemma ReservedBooks(m: Manifest, lane: Lane, query: Option<Query>, capacity: int)
    requires Books(m) && m.invocations != [] && RequestShape(lane, query, capacity)
    requires Requirement(m, capacity) == Allowed
    ensures Books(Reserved(m, lane, query, capacity))
    ensures Consumed(Reserved(m, lane, query, capacity).reservations).rows == Consumed(m.reservations).rows + capacity
  {
    hide Replay, Advance, PageBounded, ReceiptMatches, ReservationOk, InvocationKept, Requirement;
    ReservedGrants(m, lane, query, capacity);
    ReservedReservations(m, lane, query, capacity);
    UncertainReceipts(m.pages, m.reservations, Reserved(m, lane, query, capacity).reservations[|m.reservations|],
        m.metadataVerified);
    assert PagesKept(Reserved(m, lane, query, capacity));
  }

  lemma ReservedGrants(m: Manifest, lane: Lane, query: Option<Query>, capacity: int)
    requires Books(m) && m.invocations != [] && RequestShape(lane, query, capacity)
    requires Requirement(m, capacity) == Allowed
    ensures var r := Reserved(m, lane, query, capacity);
            && GrantsKept(r.parameters, r.reservations, r.invocations)
            && Consumed(r.reservations).rows == Consumed(m.reservations).rows + capacity
  {
    hide PagesKept, ReceiptsKept, ReservationsKept;
    var r := Reserved(m, lane, query, capacity);
    var n, rs := |m.invocations|, m.reservations;
    var added := r.reservations[|rs|];
    assert InvocationKept(m.parameters.named, rs, m.invocations, n - 1);
    ConsumedSnoc(rs, added);
    forall i | 0 <= i < n ensures InvocationKept(m.parameters.named, r.reservations, r.invocations, i) {
      assert InvocationKept(m.parameters.named, rs, m.invocations, i);
      ConsumedBySnoc(rs, added, i + 1);
    }
  }

  lemma ReservedReservations(m: Manifest, lane: Lane, query: Option<Query>, capacity: int)
    requires Books(m) && m.invocations != [] && RequestShape(lane, query, capacity)
    ensures ReservationsKept(Reserved(m, lane, query, capacity).reservations, m.invocations)
  {
    hide PagesKept, ReceiptsKept;
    var r := Reserved(m, lane, query, capacity);
    var rs := m.reservations;
    assert InvocationKept(m.parameters.named, rs, m.invocations, |m.invocations| - 1);
    forall i | 0 <= i < |r.reservations| ensures ReservationOk(r.reservations, r.invocations, i) {
      if i < |rs| {
        assert ReservationOk(rs, m.invocations, i);
      } else if i > 0 {
        assert ReservationOk(rs, m.invocations, i - 1);
      }
    }
  }

  /** An attempt without an answer changes no receipt. */
  lemma UncertainReceipts(pages: seq<Page>, rs: seq<Reservation>, r: Reservation, metadataVerified: bool)
    requires ReceiptsKept(pages, rs, metadataVerified) && r.state == Uncertain
    ensures ReceiptsKept(pages, rs + [r], metadataVerified)
  {
    assert (rs + [r])[..|rs|] == rs;
    forall i | 0 <= i < |pages| ensures ReceiptMatches(rs + [r], pages[i], i + 1) {
      assert ReceiptMatches(rs, pages[i], i + 1);
      assert Receipts(rs + [r], i + 1) == Receipts(rs, i + 1);
    }
  }

  // ---- Responses --------------------------------------------------------------------------

  /** The last reservation still waits for its answer. */
  predicate Awaiting(m: Manifest, lane: Lane, query: Option<Query>, capacity: int) {
    && m.reservations != []
    && var r := m.reservations[|m.reservations| - 1];
       && r.state == Uncertain && r.lane == lane && r.query == query && r.maxRows == r.charged == capacity
       && r.invocation == |m.invocations|
  }

  lemma RespondedCharges(m: Manifest, rows: int, page: Option<int>)
    requires Books(m) && m.reservations != []
    requires m.reservations[|m.reservations| - 1].invocation == |m.invocations|
    requires 0 <= rows <= m.reservations[|m.reservations| - 1].charged
    ensures var rs := Responded(m, rows, page).reservations;
            && GrantsKept(m.parameters, rs, m.invocations)
            && Consumed(rs).rows == Consumed(m.reservations).rows - m.reservations[|m.reservations| - 1].charged + rows
  {
    hide Replay, Advance, PagesKept, ReceiptsKept;
    var n := |m.reservations| - 1;
    var before, last := m.reservations[..n], m.reservations[n];
    var answered := last.(state := Response, charged := rows, page := page);
    assert m.reservations == before + [last];
    ConsumedSnoc(before, last);
    ConsumedSnoc(before, answered);
    assert ReservationOk(m.reservations, m.invocations, n);
    forall i | 0 <= i < |m.invocations|
      ensures InvocationKept(m.parameters.named, before + [answered], m.invocations, i)
    {
      assert InvocationKept(m.parameters.named, m.reservations, m.invocations, i);
      ConsumedBySnoc(before, last, i + 1);
      ConsumedBySnoc(before, answered, i + 1);
    }
  }

  lemma RespondedReservations(m: Manifest, rows: int, page: Option<int>)
    requires Books(m) && m.reservations != []
    requires var r := m.reservations[|m.reservations| - 1]; 0 <= rows <= r.maxRows && (r.lane == MetadataLane ==> page == None)
    ensures ReservationsKept(Responded(m, rows, page).reservations, m.invocations)
  {
    hide Replay, Advance, PagesKept, ReceiptsKept, GrantsKept;
    var rs := Responded(m, rows, page).reservations;
    forall i | 0 <= i < |rs| ensures ReservationOk(rs, m.invocations, i) {
      assert ReservationOk(m.reservations, m.invocations, i);
    }
  }

  // ---- Metadata ---------------------------------------------------------------------------

  function MetadataTaken(m: Manifest, content: Metadata): Manifest
    requires m.reservations != []
  {
    Responded(m.(metadataVerified := true, metadataDigest := Some(content)), 0, None)
  }

  lemma MetadataTakenBooks(m: Manifest, content: Metadata)
    requires Books(m) && !m.metadataVerified && Awaiting(m, MetadataLane, None, 0)
    ensures Books(MetadataTaken(m, content))
    ensures Consumed(MetadataTaken(m, content).reservations).rows == Consumed(m.reservations).rows
  {
    hide Replay, Advance, PageBounded;
    var t := MetadataTaken(m, content);
    RespondedCharges(m, 0, None);
    RespondedReservations(m, 0, None);
    assert t.reservations == Responded(m, 0, None).reservations;
    assert PagesKept(t);
    var n := |m.reservations| - 1;
    var before, answered := m.reservations[..n], t.reservations[n];
    assert m.reservations == before + [m.reservations[n]];
    assert (before + [answered])[..n] == before;
    forall i | 0 <= i < |m.pages| ensures ReceiptMatches(t.reservations, m.pages[i], i + 1) {
      assert ReceiptMatches(m.reservations, m.pages[i], i + 1);
      assert Receipts(t.reservations, i + 1) == Receipts(before, i + 1) == Receipts(m.reservations, i + 1);
    }
  }

  // ---- Pages ------------------------------------------------------------------------------

  function NewPage(m: Manifest, lane: Lane, query: Query, cursor: Option<string>, rows: seq<Row>, time: int): Page {
    var sequence := |m.pages| + 1;
    Page(lane, sequence, Path(lane, sequence), rows, |rows|, cursor,
         if lane == ScanLane then NextCursor(cursor, rows) else None, time, query)
  }

  /** The page record, the counts and the receipt, in the order `_page` writes them. */
  function PageAdded(m: Manifest, page: Page): Manifest
    requires m.reservations != []
  {
    Responded(m.(pages := m.pages + [page], received := m.received + |page.digest|, written := m.written + |page.digest|),
              |page.digest|, Some(page.sequence))
  }

  function ScanTaken(m: Manifest, page: Page): Manifest
    requires m.reservations != []
  {
    PageAdded(m, page).(scan := ScanProgress(|page.digest| < page.query.limit, NextCursor(m.scan.cursor, page.digest)))
  }

  function MembersTaken(m: Manifest, page: Page, batch: seq<string>): Manifest
    requires m.reservations != [] && 0 <= m.members.offset && m.members.offset + |batch| <= |m.parameters.Ids()|
  {
    var ids := m.parameters.Ids();
    var offset := m.members.offset + |batch|;
    var returned := m.members.returned + RowIds(page.digest);
    PageAdded(m, page).(members := MemberProgress(offset == |ids|, offset, returned, Elements(ids[..offset]) - Elements(returned)))
  }

  lemma {:induction false} ScanningAsksNothing(plan: Plan, pages: seq<Page>)
    requires Replay(plan, pages).Some? && !Replay(plan, pages).value.scanComplete
    ensures Replay(plan, pages).value.offset == 0
  {
    if pages != [] {
      var n := |pages| - 1;
      if !Replay(plan, pages[..n]).value.scanComplete { ScanningAsksNothing(plan, pages[..n]); }
    }
  }

  /** No response can already name the next page. */
  lemma NextPageUnclaimed(m: Manifest)
    requires Books(m)
    ensures Receipts(m.reservations, |m.pages| + 1) == []
  {
    hide Replay, Advance, PagesKept, GrantsKept;
    var sequence := |m.pages| + 1;
    var found := Receipts(m.reservations, sequence);
    assert Some(sequence) !in multiset(Range(|m.pages|));
    assert Some(sequence) !in multiset(PageReceipts(m.reservations));
    assert Some(sequence) !in PageReceipts(m.reservations);
    if found != [] {
      assert found[0] in m.reservations;
      var i :| 0 <= i < |m.reservations| && m.reservations[i] == found[0];
      assert ReservationOk(m.reservations, m.invocations, i);
      PageReceiptListed(m.reservations, i);
      assert false;
    }
  }

  lemma PageReceiptsKept(m: Manifest, page: Page)
    requires Books(m) && page.lane != MetadataLane && page.sequence == |m.pages| + 1
    requires Awaiting(m, page.lane, Some(page.query), page.query.limit)
    ensures ReceiptsKept(m.pages + [page], PageAdded(m, page).reservations, m.metadataVerified)
  {
    hide Replay, Advance, PagesKept, GrantsKept;
    var rs := PageAdded(m, page).reservations;
    var n := |m.reservations| - 1;
    var before, answered := m.reservations[..n], rs[n];
    assert m.reservations == before + [m.reservations[n]] && rs == before + [answered];
    assert (before + [answered])[..n] == before;
    NextPageUnclaimed(m);
    var pages := m.pages + [page];
    forall i | 0 <= i < |pages| ensures ReceiptMatches(rs, pages[i], i + 1) {
      if i < |m.pages| {
        assert ReceiptMatches(m.reservations, m.pages[i], i + 1);
        assert Receipts(rs, i + 1) == Receipts(before, i + 1) == Receipts(m.reservations, i + 1);
      } else {
        assert Receipts(rs, i + 1) == [answered];
      }
    }
    assert PageReceipts(rs) == PageReceipts(m.reservations) + [Some(page.sequence)];
    assert Range(|pages|) == Range(|m.pages|) + [Some(page.sequence)];
  }

  predicate ReadyFor(m: Manifest, page: Page) {
    && Books(m) && Awaiting(m, page.lane, Some(page.query), page.query.limit)
    && page.sequence == |m.pages| + 1 && PageBounded(page, m.parameters.pageSize)
    && |page.digest| == page.rowCount <= page.query.limit
  }

  lemma ScanTakenBooks(m: Manifest, page: Page)
    requires ReadyFor(m, page) && page.lane == ScanLane && !m.scan.complete
    requires ValidScanRows(page.digest, m.scope, m.scan.cursor)
    requires page.requested == m.scan.cursor && page.final == NextCursor(m.scan.cursor, page.digest)
    requires page.query == ScopeQuery(m.scope, m.parameters.projection, page.query.limit, m.scan.cursor)
    ensures Books(ScanTaken(m, page))
    ensures Consumed(ScanTaken(m, page).reservations).rows == Consumed(m.reservations).rows - page.query.limit + |page.digest|
  {
    hide Replay, Advance, PagesKept, ReceiptsKept, GrantsKept;
    PageAddedBooks(m, page);
    ScanPagesKept(m, page);
  }

  lemma ScanPagesKept(m: Manifest, page: Page)
    requires IdentityOk(m) && PagesKept(m) && m.reservations != [] && !m.scan.complete
    requires page.lane == ScanLane && page.sequence == |m.pages| + 1 && PageBounded(page, m.parameters.pageSize)
    requires ValidScanRows(page.digest, m.scope, m.scan.cursor)
    requires page.requested == m.scan.cursor && page.final == NextCursor(m.scan.cursor, page.digest)
    requires |page.digest| == page.rowCount
    requires page.query == ScopeQuery(m.scope, m.parameters.projection, page.query.limit, m.scan.cursor)
    ensures PagesKept(ScanTaken(m, page))
  {
    hide ValidMemberRows, ValidScanRows, NextCursor;
    ScanningAsksNothing(m.parameters, m.pages);
    var p := Replay(m.parameters, m.pages).value;
    assert Advance(m.parameters, p, page, |m.pages| + 1) ==
           Some(p.(cursor := NextCursor(p.cursor, page.digest), scanComplete := |page.digest| < page.query.limit,
                   received := p.received + |page.digest|));
    ReplaySnoc(m.parameters, m.pages, page);
    hide Replay, Advance, PageBounded;
    var t := ScanTaken(m, page);
    assert t.pages == m.pages + [page];
    assert forall i :: 0 <= i < |t.pages| ==> PageBounded(t.pages[i], m.parameters.pageSize);
  }

  lemma MembersTakenBooks(m: Manifest, page: Page, batch: seq<string>)
    requires ReadyFor(m, page) && page.lane == MemberLane && m.scan.complete && !m.members.complete
    requires 0 <= m.members.offset <= |m.parameters.Ids()| && batch == Batch(m.parameters.Ids(), m.members.offset, m.parameters.pageSize)
    requires ValidMemberRows(page.digest, batch) && page.requested == None && page.final == None
    requires page.query == MemberQuery(batch, m.parameters.projection)
    ensures Books(MembersTaken(m, page, batch))
    ensures Consumed(MembersTaken(m, page, batch).reservations).rows == Consumed(m.reservations).rows - page.query.limit + |page.digest|
  {
    hide Replay, Advance, PagesKept, ReceiptsKept, GrantsKept;
    PageAddedBooks(m, page);
    MemberPagesKept(m, page, batch);
  }

  lemma MemberPagesKept(m: Manifest, page: Page, batch: seq<string>)
    requires PagesKept(m) && m.reservations != [] && m.scan.complete && !m.members.complete
    requires page.lane == MemberLane && page.sequence == |m.pages| + 1 && PageBounded(page, m.parameters.pageSize)
    requires 0 <= m.members.offset <= |m.parameters.Ids()| && batch == Batch(m.parameters.Ids(), m.members.offset, m.parameters.pageSize)
    requires ValidMemberRows(page.digest, batch) && page.requested == None && page.final == None
    requires |page.digest| == page.rowCount && page.query == MemberQuery(batch, m.parameters.projection)
    ensures PagesKept(MembersTaken(m, page, batch))
  {
    hide ValidMemberRows, ValidScanRows;
    var t := MembersTaken(m, page, batch);
    ReplaySnoc(m.parameters, m.pages, page);
    hide Replay;
    assert t.pages == m.pages + [page];
    assert forall i :: 0 <= i < |t.pages| ==> PageBounded(t.pages[i], m.parameters.pageSize);
  }

  lemma PageAddedBooks(m: Manifest, page: Page)
    requires ReadyFor(m, page)
    ensures var a := PageAdded(m, page);
            && ReceiptsKept(a.pages, a.reservations, a.metadataVerified)
            && ReservationsKept(a.reservations, a.invocations)
            && GrantsKept(a.parameters, a.reservations, a.invocations)
            && Consumed(a.reservations).rows == Consumed(m.reservations).rows - page.query.limit + |page.digest|
  {
    hide Replay, Advance, PagesKept;
    PageReceiptsKept(m, page);
    RespondedCharges(m, |page.digest|, Some(page.sequence));
    RespondedReservations(m, |page.digest|, Some(page.sequence));
    assert PageAdded(m, page).reservations == Responded(m, |page.digest|, Some(page.sequence)).reservations;
  }
}

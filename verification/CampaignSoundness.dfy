/**
 * What an accepted campaign log means, however the log was produced: the receipts are a bijection
 * onto the pages, the lanes follow the two-lane plan, charges are conserved, and an unchanging
 * source is covered exactly.
 */
module CampaignSoundness {
  import opened Wrappers
  import opened Text
  import opened Campaign
  import opened CampaignVerifier

  // ---- The lanes --------------------------------------------------------------------------

  /** The identities of every scan page, in page order. */
  function ScanIds(pages: seq<Page>): seq<string> {
    if pages == [] then []
    else
      var n := |pages| - 1;
      ScanIds(pages[..n]) + if pages[n].lane == ScanLane then RowIds(pages[n].digest) else []
  }

  function MemberIds(pages: seq<Page>): seq<string> {
    if pages == [] then []
    else
      var n := |pages| - 1;
      MemberIds(pages[..n]) + if pages[n].lane == MemberLane then RowIds(pages[n].digest) else []
  }

  /** The identities that the membership queries asked for, in page order. */
  function AskedIds(pages: seq<Page>): seq<string> {
    if pages == [] then []
    else
      var n := |pages| - 1;
      AskedIds(pages[..n]) +
      if pages[n].lane == MemberLane && pages[n].query.filter.OneOf? then pages[n].query.filter.ids else []
  }

  function RowTotal(pages: seq<Page>): nat {
    if pages == [] then 0 else RowTotal(pages[..|pages| - 1]) + |pages[|pages| - 1].digest|
  }

  predicate TwoLanes(pages: seq<Page>) {
    && (forall i :: 0 <= i < |pages| ==> pages[i].lane != MetadataLane && pages[i].sequence == i + 1)
    && (forall i, j :: 0 <= i < j < |pages| && pages[i].lane == MemberLane ==> pages[j].lane == MemberLane)
  }

  /** Every scan page but the last is full; the lane is complete when the last one is short. */
  predicate ScanFull(pages: seq<Page>) {
    forall i :: 0 <= i < |pages| && pages[i].lane == ScanLane ==> |pages[i].digest| >= pages[i].query.limit
  }

  predicate OrderMeaning(pages: seq<Page>, p: Progress) {
    && TwoLanes(pages)
    && (p.scanComplete <==> !ScanFull(pages))
    && (!p.scanComplete || p.offset == 0 ==> forall i :: 0 <= i < |pages| ==> pages[i].lane == ScanLane)
    && p.received == RowTotal(pages)
  }

  predicate ScanMeaning(pages: seq<Page>, p: Progress) {
    var ids := ScanIds(pages);
    Increasing(ids) && p.cursor == if ids == [] then None else Some(ids[|ids| - 1])
  }

  predicate MemberMeaning(plan: Plan, pages: seq<Page>, p: Progress) {
    && p.offset <= |plan.Ids()| && AskedIds(pages) == plan.Ids()[..p.offset]
    && p.returned == MemberIds(pages)
    && forall id :: id in p.returned ==> id in AskedIds(pages) && Usable(id)
  }

  /** The meaning of a replayed prefix. */
  lemma {:induction false} ReplayMeaning(plan: Plan, pages: seq<Page>)
    requires Replay(plan, pages).Some?
    ensures var p := Replay(plan, pages).value;
            OrderMeaning(pages, p) && ScanMeaning(pages, p) && MemberMeaning(plan, pages, p)
  {
    hide Advance, OrderMeaning, ScanMeaning, MemberMeaning;
    if pages == [] {
      EmptyMeaning(plan);
    } else {
      var n := |pages| - 1;
      ReplayMeaning(plan, pages[..n]);
      assert pages[..n] + [pages[n]] == pages;
      PageOrderMeaning(plan, pages[..n], Replay(plan, pages[..n]).value, pages[n]);
      PageScanMeaning(plan, pages[..n], Replay(plan, pages[..n]).value, pages[n]);
      PageMemberMeaning(plan, pages[..n], Replay(plan, pages[..n]).value, pages[n]);
    }
  }

  lemma EmptyMeaning(plan: Plan)
    ensures OrderMeaning([], START) && ScanMeaning([], START) && MemberMeaning(plan, [], START)
  {
  }

  lemma PageOrderMeaning(plan: Plan, pages: seq<Page>, p: Progress, page: Page)
    requires p.offset <= |plan.Ids()| && OrderMeaning(pages, p)
    requires Advance(plan, p, page, |pages| + 1).Some?
    ensures OrderMeaning(pages + [page], Advance(plan, p, page, |pages| + 1).value)
  {
    hide ValidScanRows, ValidMemberRows;
    var all := pages + [page];
    assert all[..|pages|] == pages;
    assert all[|pages|] == page && forall i :: 0 <= i < |pages| ==> all[i] == pages[i];
    if !ScanFull(pages) {
      var i :| 0 <= i < |pages| && pages[i].lane == ScanLane && |pages[i].digest| < pages[i].query.limit;
      assert all[i] == pages[i];
    }
  }

  lemma ScanIdsSnoc(pages: seq<Page>, page: Page)
    ensures ScanIds(pages + [page]) == ScanIds(pages) + if page.lane == ScanLane then RowIds(page.digest) else []
  {
    assert (pages + [page])[..|pages|] == pages;
  }

  /** What replaying a page leaves of the scan lane. */
  lemma AdvancedScan(plan: Plan, p: Progress, page: Page, sequence: int)
    requires p.offset <= |plan.Ids()| && Advance(plan, p, page, sequence).Some?
    ensures var q := Advance(plan, p, page, sequence).value;
            if page.lane == ScanLane then
              && ValidScanRows(page.digest, plan.scope, p.cursor) && q.cursor == NextCursor(p.cursor, page.digest)
              && page.query == ScopeQuery(plan.scope, plan.projection, page.query.limit, p.cursor)
              && q.scanComplete == (|page.digest| < page.query.limit) && !p.scanComplete
            else q.cursor == p.cursor && q.scanComplete == p.scanComplete
  {
    hide ValidScanRows, ValidMemberRows, Batch;
  }

  lemma PageScanMeaning(plan: Plan, pages: seq<Page>, p: Progress, page: Page)
    requires p.offset <= |plan.Ids()| && ScanMeaning(pages, p)
    requires Advance(plan, p, page, |pages| + 1).Some?
    ensures ScanMeaning(pages + [page], Advance(plan, p, page, |pages| + 1).value)
  {
    AdvancedScan(plan, p, page, |pages| + 1);
    ScanIdsSnoc(pages, page);
    hide Advance, ScanIds;
    if page.lane == ScanLane { IncreasingConcat(ScanIds(pages), RowIds(page.digest)); }
  }

  lemma PageMemberMeaning(plan: Plan, pages: seq<Page>, p: Progress, page: Page)
    requires MemberMeaning(plan, pages, p)
    requires Advance(plan, p, page, |pages| + 1).Some?
    ensures MemberMeaning(plan, pages + [page], Advance(plan, p, page, |pages| + 1).value)
  {
    hide ValidScanRows;
    assert (pages + [page])[..|pages|] == pages;
    if page.lane == MemberLane {
      var batch := Batch(plan.Ids(), p.offset, plan.pageSize);
      assert plan.Ids()[..p.offset] + batch == plan.Ids()[..p.offset + |batch|];
      forall id | id in RowIds(page.digest) ensures id in batch && Usable(id) {
        var i :| 0 <= i < |page.digest| && RowIds(page.digest)[i] == id;
      }
    }
  }

  /**
   * Any accepted log: scan pages come strictly before membership pages, scan identities strictly
   * increase, the membership lane has asked for exactly a prefix of the baseline, and what is
   * reported missing is what was asked for and never returned.
   */
  lemma AcceptedLanes(m: Manifest, files: map<Path, seq<Row>>, metadata: Option<Metadata>)
    requires Accepts(m, files, metadata)
    ensures TwoLanes(m.pages) && Increasing(ScanIds(m.pages))
    ensures m.scan.cursor == if ScanIds(m.pages) == [] then None else Some(ScanIds(m.pages)[|ScanIds(m.pages)| - 1])
    ensures m.scan.complete <==> !ScanFull(m.pages)
    ensures 0 <= m.members.offset <= |m.parameters.Ids()|
    ensures AskedIds(m.pages) == m.parameters.Ids()[..m.members.offset]
    ensures m.members.returned == MemberIds(m.pages)
    ensures forall id :: id in MemberIds(m.pages) ==> id in AskedIds(m.pages)
    ensures m.members.missing == Elements(AskedIds(m.pages)) - Elements(MemberIds(m.pages))
    ensures m.members.complete <==> AskedIds(m.pages) == m.parameters.Ids()
    ensures m.received == m.written == RowTotal(m.pages)
  {
    hide Replay, ReceiptMatches, ReservationOk, InvocationOk, PageStored, PageBounded, ValidAcquisition, Snapshot,
        PageReceipts, MetadataResponses, Receipts, Consumed;
    ReplayMeaning(m.parameters, m.pages);
    var ids := m.parameters.Ids();
    assert ids[..|ids|] == ids;
  }

  // ---- Receipts ---------------------------------------------------------------------------

  predicate IsDataResponse(r: Reservation) { r.state == Response && r.lane != MetadataLane }

  /** `index[s]` is the one reservation whose response is page s + 1. */
  predicate ReceiptIndex(m: Manifest, index: seq<nat>) {
    && |index| == |m.pages|
    && (forall s :: 0 <= s < |index| ==>
          && index[s] < |m.reservations| && IsReceiptFor(m.reservations[index[s]], s + 1)
          && m.reservations[index[s]].lane == m.pages[s].lane
          && m.reservations[index[s]].charged == |m.pages[s].digest|
          && m.reservations[index[s]].query == Some(m.pages[s].query))
    && (forall i :: 0 <= i < |m.reservations| && IsDataResponse(m.reservations[i]) ==> i in index)
    && (forall s, t :: 0 <= s < t < |index| ==> index[s] != index[t])
  }

  predicate OnlyReceipt(rs: seq<Reservation>, page: Page, sequence: int, i: nat) {
    && i < |rs| && IsReceiptFor(rs[i], sequence)
    && rs[i].lane == page.lane && rs[i].charged == |page.digest| && rs[i].query == Some(page.query)
    && forall j :: 0 <= j < |rs| && IsReceiptFor(rs[j], sequence) ==> j == i
  }

  lemma {:induction false} ReceiptPosition(rs: seq<Reservation>, sequence: int) returns (i: nat)
    requires |Receipts(rs, sequence)| == 1
    ensures i < |rs| && rs[i] == Receipts(rs, sequence)[0] && IsReceiptFor(rs[i], sequence)
    ensures forall j :: 0 <= j < |rs| && IsReceiptFor(rs[j], sequence) ==> j == i
  {
    var n := |rs| - 1;
    if IsReceiptFor(rs[n], sequence) {
      i := n;
      assert Receipts(rs[..n], sequence) == [];
      forall j | 0 <= j < n ensures !IsReceiptFor(rs[j], sequence) {
        assert rs[j] in rs[..n];
      }
    } else {
      i := ReceiptPosition(rs[..n], sequence);
    }
  }

  lemma {:induction false} PageReceiptListed(rs: seq<Reservation>, i: nat)
    requires i < |rs| && IsDataResponse(rs[i])
    ensures rs[i].page in PageReceipts(rs)
  {
    var n := |rs| - 1;
    if i < n { PageReceiptListed(rs[..n], i); }
  }

  /** Reservations are consistent, every page has its one receipt, and the data responses name the pages. */
  predicate ReceiptsSettled(m: Manifest) {
    && (forall i :: 0 <= i < |m.pages| ==> ReceiptMatches(m.reservations, m.pages[i], i + 1))
    && (forall i :: 0 <= i < |m.reservations| ==> ReservationOk(m.reservations, m.invocations, i))
    && multiset(PageReceipts(m.reservations)) == multiset(Range(|m.pages|))
  }

  lemma DataReceiptsNamePages(m: Manifest, i: nat) returns (s: nat)
    requires ReceiptsSettled(m) && i < |m.reservations| && IsDataResponse(m.reservations[i])
    ensures s < |m.pages| && m.reservations[i].page == Some(s + 1)
  {
    hide ReceiptMatches, ReservationOk;
    PageReceiptListed(m.reservations, i);
    var page := m.reservations[i].page;
    assert page in multiset(PageReceipts(m.reservations));
    assert page in multiset(Range(|m.pages|));
    assert page in Range(|m.pages|);
    s := page.value - 1;
  }

  /** Settled receipts: exactly one response receipt per page, and no other data receipt. */
  lemma SettledBijection(m: Manifest) returns (index: seq<nat>)
    requires ReceiptsSettled(m)
    ensures ReceiptIndex(m, index)
  {
    index := [];
    for s := 0 to |m.pages|
      invariant |index| == s
      invariant forall t :: 0 <= t < s ==> OnlyReceipt(m.reservations, m.pages[t], t + 1, index[t])
    {
      assert ReceiptMatches(m.reservations, m.pages[s], s + 1);
      var i := ReceiptPosition(m.reservations, s + 1);
      assert OnlyReceipt(m.reservations, m.pages[s], s + 1, i);
      index := index + [i];
    }
    forall i | 0 <= i < |m.reservations| && IsDataResponse(m.reservations[i])
      ensures i in index
    {
      var s := DataReceiptsNamePages(m, i);
      assert OnlyReceipt(m.reservations, m.pages[s], s + 1, index[s]);
    }
  }

  /** Any accepted log has exactly one response receipt per page, and no other data receipt. */
  lemma ReceiptBijection(m: Manifest, files: map<Path, seq<Row>>, metadata: Option<Metadata>) returns (index: seq<nat>)
    requires Accepts(m, files, metadata)
    ensures ReceiptIndex(m, index)
  {
    AcceptedReceipts(m, files, metadata);
    hide Accepts, ReceiptsSettled;
    index := SettledBijection(m);
  }

  lemma AcceptedReceipts(m: Manifest, files: map<Path, seq<Row>>, metadata: Option<Metadata>)
    requires Accepts(m, files, metadata)
    ensures ReceiptsSettled(m)
  {
  }

  // ---- Conservation of charges ------------------------------------------------------------

  /** The full capacity of every attempt that no response has answered. */
  function Unanswered(rs: seq<Reservation>): int {
    if rs == [] then 0
    else
      var n := |rs| - 1;
      Unanswered(rs[..n]) + if rs[n].state == Uncertain then rs[n].maxRows else 0
  }

  function Weight(pages: seq<Page>, o: Option<int>): nat {
    if o.Some? && 1 <= o.value <= |pages| then |pages[o.value - 1].digest| else 0
  }

  function WeightOf(pages: seq<Page>, os: seq<Option<int>>): nat {
    if os == [] then 0 else WeightOf(pages, os[..|os| - 1]) + Weight(pages, os[|os| - 1])
  }

  lemma {:induction false} WeightWithout(pages: seq<Page>, os: seq<Option<int>>, i: nat)
    requires i < |os|
    ensures WeightOf(pages, os) == WeightOf(pages, os[..i] + os[i + 1..]) + Weight(pages, os[i])
  {
    var n := |os| - 1;
    if i == n {
      assert os[..i] + os[i + 1..] == os[..n];
    } else {
      WeightWithout(pages, os[..n], i);
      var rest := os[..i] + os[i + 1..];
      assert rest[..|rest| - 1] == os[..n][..i] + os[..n][i + 1..];
    }
  }

  lemma MultisetWithout<T>(s: seq<T>, i: nat)
    requires i < |s|
    ensures multiset(s[..i] + s[i + 1..]) == multiset(s) - multiset{s[i]}
  {
    assert s == s[..i] + [s[i]] + s[i + 1..];
  }

  lemma {:induction false} WeightPermuted(pages: seq<Page>, a: seq<Option<int>>, b: seq<Option<int>>)
    requires multiset(a) == multiset(b)
    ensures WeightOf(pages, a) == WeightOf(pages, b)
  {
    if a == [] {
      assert |multiset(b)| == 0;
    } else {
      var n := |a| - 1;
      assert a[n] in multiset(b);
      var i :| 0 <= i < |b| && b[i] == a[n];
      MultisetWithout(a, n);
      MultisetWithout(b, i);
      assert a[..n] + a[n + 1..] == a[..n];
      WeightPermuted(pages, a[..n], b[..i] + b[i + 1..]);
      WeightWithout(pages, b, i);
    }
  }

  lemma {:induction false} RangeWeight(pages: seq<Page>, n: nat)
    requires n <= |pages|
    ensures WeightOf(pages, Range(n)) == RowTotal(pages[..n])
  {
    if n > 0 {
      RangeWeight(pages, n - 1);
      assert Range(n)[..n - 1] == Range(n - 1);
      assert pages[..n][..n - 1] == pages[..n - 1];
    }
  }

  predicate ChargeExplained(pages: seq<Page>, r: Reservation) {
    if r.state == Uncertain then r.charged == r.maxRows
    else if r.lane == MetadataLane then r.charged == 0
    else r.charged == Weight(pages, r.page)
  }

  lemma {:induction false} ChargesSplit(pages: seq<Page>, rs: seq<Reservation>)
    requires forall i :: 0 <= i < |rs| ==> ChargeExplained(pages, rs[i])
    ensures Consumed(rs).rows == Unanswered(rs) + WeightOf(pages, PageReceipts(rs))
  {
    if rs != [] {
      var n := |rs| - 1;
      ChargesSplit(pages, rs[..n]);
      assert ChargeExplained(pages, rs[n]);
      var os := PageReceipts(rs[..n]);
      assert (os + [rs[n].page])[..|os|] == os;
    }
  }

  /**
   * Charge conservation: the rows charged are the rows written plus the full capacity of the attempts
   * without an answer, and every attempt ever made has its reservation.
   */
  lemma SettledCharges(m: Manifest)
    requires ReceiptsSettled(m) && m.written == RowTotal(m.pages)
    ensures Consumed(m.reservations).rows == m.written + Unanswered(m.reservations)
    ensures Consumed(m.reservations).attempts == |m.reservations|
  {
    hide ReceiptMatches, ReservationOk;
    var rs, pages := m.reservations, m.pages;
    AttemptsCounted(rs);
    forall i | 0 <= i < |rs| ensures ChargeExplained(pages, rs[i]) {
      ReceiptExplained(m, i);
    }
    ChargesSplit(pages, rs);
    WeightPermuted(pages, PageReceipts(rs), Range(|pages|));
    RangeWeight(pages, |pages|);
    assert pages[..|pages|] == pages;
  }

  lemma ReceiptExplained(m: Manifest, i: nat)
    requires ReceiptsSettled(m) && i < |m.reservations|
    ensures ChargeExplained(m.pages, m.reservations[i])
  {
    var r := m.reservations[i];
    assert ReservationOk(m.reservations, m.invocations, i);
    if r.state == Response && r.lane != MetadataLane {
      var s := DataReceiptsNamePages(m, i);
      assert ReceiptMatches(m.reservations, m.pages[s], s + 1);
      assert r in Receipts(m.reservations, s + 1);
    }
  }

  /** Charge conservation in any accepted log, within both ceilings. */
  lemma ChargesConserved(m: Manifest, files: map<Path, seq<Row>>, metadata: Option<Metadata>)
    requires Accepts(m, files, metadata)
    ensures Consumed(m.reservations).rows == m.written + Unanswered(m.reservations) <= m.ceilings.rows
    ensures Consumed(m.reservations).attempts == |m.reservations| <= m.ceilings.attempts
  {
    AcceptedReceipts(m, files, metadata);
    AcceptedLanes(m, files, metadata);
    AcceptedTotals(m, files, metadata);
    hide Accepts, ReceiptsSettled;
    SettledCharges(m);
  }

  /**
   * The attempts of any accepted log are in the order of the invocations that made them, under
   * distinct ids; each is charged no more than its capacity, and all of it while unanswered.
   */
  lemma {:induction false} AttemptsOrdered(m: Manifest, files: map<Path, seq<Row>>, metadata: Option<Metadata>, i: nat, j: nat)
    requires Accepts(m, files, metadata) && i < j < |m.reservations|
    ensures m.reservations[i].id < m.reservations[j].id
    ensures 1 <= m.reservations[i].invocation <= m.reservations[j].invocation <= |m.invocations|
    ensures 0 <= m.reservations[j].charged <= m.reservations[j].maxRows
    ensures m.reservations[j].state == Uncertain ==> m.reservations[j].charged == m.reservations[j].maxRows
    decreases j
  {
    assert ReservationOk(m.reservations, m.invocations, i) && ReservationOk(m.reservations, m.invocations, j);
    if i < j - 1 { AttemptsOrdered(m, files, metadata, i, j - 1); }
  }

  lemma AcceptedTotals(m: Manifest, files: map<Path, seq<Row>>, metadata: Option<Metadata>)
    requires Accepts(m, files, metadata)
    ensures Consumed(m.reservations).rows <= m.ceilings.rows && Consumed(m.reservations).attempts <= m.ceilings.attempts
    ensures forall i :: 0 <= i < |m.invocations| ==> InvocationOk(m, i)
  {
  }

  // ---- Grants -----------------------------------------------------------------------------

  function UsageTotal(rs: seq<Reservation>, n: nat): Usage {
    if n == 0 then Usage(0, 0)
    else Usage(UsageTotal(rs, n - 1).rows + ConsumedBy(rs, n).rows, UsageTotal(rs, n - 1).attempts + ConsumedBy(rs, n).attempts)
  }

  function GrantTotal(invocations: seq<Invocation>): Usage {
    if invocations == [] then Usage(0, 0)
    else
      var n := |invocations| - 1;
      Usage(GrantTotal(invocations[..n]).rows + invocations[n].grant.rows,
            GrantTotal(invocations[..n]).attempts + invocations[n].grant.attempts)
  }

  lemma {:induction false} UsageTotalSnoc(rs: seq<Reservation>, r: Reservation, n: nat)
    ensures UsageTotal(rs + [r], n) ==
            if 1 <= r.invocation <= n then Usage(UsageTotal(rs, n).rows + r.charged, UsageTotal(rs, n).attempts + 1)
            else UsageTotal(rs, n)
  {
    if n > 0 {
      UsageTotalSnoc(rs, r, n - 1);
      ConsumedBySnoc(rs, r, n);
    }
  }

  lemma {:induction false} UsagePartitions(rs: seq<Reservation>, n: nat)
    requires forall i :: 0 <= i < |rs| ==> 1 <= rs[i].invocation <= n
    ensures UsageTotal(rs, n) == Consumed(rs)
  {
    if rs == [] {
      NoUsage(n);
    } else {
      var k := |rs| - 1;
      UsagePartitions(rs[..k], n);
      UsageTotalSnoc(rs[..k], rs[k], n);
      assert rs[..k] + [rs[k]] == rs;
    }
  }

  lemma {:induction false} NoUsage(n: nat)
    ensures UsageTotal([], n) == Usage(0, 0)
  {
    if n > 0 { NoUsage(n - 1); }
  }

  /** What each invocation was charged stays within its grant. */
  predicate GrantsRespected(m: Manifest) {
    forall i :: 0 <= i < |m.invocations| ==> WithinGrant(ConsumedBy(m.reservations, i + 1), m.invocations[i].grant)
  }

  lemma {:induction false} UsageWithinGrants(m: Manifest, n: nat)
    requires n <= |m.invocations| && GrantsRespected(m)
    ensures UsageTotal(m.reservations, n).rows <= GrantTotal(m.invocations[..n]).rows
    ensures UsageTotal(m.reservations, n).attempts <= GrantTotal(m.invocations[..n]).attempts
  {
    if n > 0 {
      UsageWithinGrants(m, n - 1);
      assert m.invocations[..n][..n - 1] == m.invocations[..n - 1];
      assert WithinGrant(ConsumedBy(m.reservations, n), m.invocations[n - 1].grant);
    }
  }

  /** The invocations partition the charges, and together stay within what was granted. */
  lemma SettledGrants(m: Manifest)
    requires ReceiptsSettled(m) && GrantsRespected(m)
    ensures UsageTotal(m.reservations, |m.invocations|) == Consumed(m.reservations)
    ensures Consumed(m.reservations).rows <= GrantTotal(m.invocations).rows
    ensures Consumed(m.reservations).attempts <= GrantTotal(m.invocations).attempts
  {
    forall i | 0 <= i < |m.reservations| ensures 1 <= m.reservations[i].invocation <= |m.invocations| {
      assert ReservationOk(m.reservations, m.invocations, i);
    }
    UsagePartitions(m.reservations, |m.invocations|);
    UsageWithinGrants(m, |m.invocations|);
    assert m.invocations[..|m.invocations|] == m.invocations;
  }

  /** The same for the invocations of any accepted log. */
  lemma GrantsPartitionCharges(m: Manifest, files: map<Path, seq<Row>>, metadata: Option<Metadata>)
    requires Accepts(m, files, metadata)
    ensures UsageTotal(m.reservations, |m.invocations|) == Consumed(m.reservations)
    ensures Consumed(m.reservations).rows <= GrantTotal(m.invocations).rows
    ensures Consumed(m.reservations).attempts <= GrantTotal(m.invocations).attempts
  {
    AcceptedReceipts(m, files, metadata);
    AcceptedTotals(m, files, metadata);
    hide Accepts, ReceiptsSettled;
    forall i | 0 <= i < |m.invocations| ensures WithinGrant(ConsumedBy(m.reservations, i + 1), m.invocations[i].grant) {
      assert InvocationOk(m, i);
    }
    SettledGrants(m);
  }
}

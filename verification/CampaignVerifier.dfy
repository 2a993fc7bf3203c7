/**
 * The independent replay of a campaign's durable evidence: pages, receipts, lanes and budgets.
 * `Accepts` says what the replay demands; VerifyPopulationRun decides it with the source's loops.
 */
module CampaignVerifier {
  import opened Wrappers
  import opened Text
  import opened Campaign

  // ---- Replay of the pages ----------------------------------------------------------------

  datatype Progress = Progress(cursor: Option<string>, offset: nat, returned: seq<string>,
                               scanComplete: bool, received: nat)

  const START := Progress(None, 0, [], false, 0)

  /** One page of the two-lane plan replayed, or None when the page violates it. */
  function Advance(plan: Plan, p: Progress, page: Page, sequence: int): (r: Option<Progress>)
    requires p.offset <= |plan.Ids()|
    ensures r.Some? ==> r.value.offset <= |plan.Ids()|
  {
    var rows := page.digest;
    if page.sequence != sequence || |rows| != page.rowCount then None
    else if page.lane == ScanLane && !p.scanComplete && p.offset == 0 then
      var cursor := NextCursor(p.cursor, rows);
      if ValidScanRows(rows, plan.scope, p.cursor) && page.requested == p.cursor && page.final == cursor
         && page.query == ScopeQuery(plan.scope, plan.projection, page.query.limit, p.cursor)
      then Some(p.(cursor := cursor, scanComplete := |rows| < page.query.limit, received := p.received + |rows|))
      else None
    else if page.lane == MemberLane && p.scanComplete then
      var batch := Batch(plan.Ids(), p.offset, plan.pageSize);
      if batch != [] && ValidMemberRows(rows, batch) && page.requested == None && page.final == None
         && page.query == MemberQuery(batch, plan.projection)
      then Some(p.(returned := p.returned + RowIds(rows), offset := p.offset + |batch|, received := p.received + |rows|))
      else None
    else None
  }

  function Replay(plan: Plan, pages: seq<Page>): (r: Option<Progress>)
    ensures r.Some? ==> r.value.offset <= |plan.Ids()|
  {
    if pages == [] then Some(START)
    else
      var n := |pages| - 1;
      match Replay(plan, pages[..n])
      case None => None
      case Some(p) => Advance(plan, p, pages[n], n + 1)
  }

  lemma ReplaySnoc(plan: Plan, pages: seq<Page>, page: Page)
    ensures Replay(plan, pages + [page]) ==
            match Replay(plan, pages)
            case None => None
            case Some(p) => Advance(plan, p, page, |pages| + 1)
  {
    assert (pages + [page])[..|pages|] == pages;
  }

  /** A rejected prefix is never repaired by later pages. */
  lemma {:induction false} ReplayPrefix(plan: Plan, pages: seq<Page>, n: nat)
    requires n <= |pages|
    requires Replay(plan, pages).Some?
    ensures Replay(plan, pages[..n]).Some?
    decreases |pages|
  {
    if n < |pages| {
      ReplayPrefix(plan, pages[..|pages| - 1], n);
      assert pages[..|pages| - 1][..n] == pages[..n];
    } else {
      assert pages[..n] == pages;
    }
  }

  // ---- Receipts ---------------------------------------------------------------------------

  predicate IsReceiptFor(r: Reservation, sequence: int) {
    r.state == Response && r.page == Some(sequence)
  }

  /** The response reservations that name page `sequence`. */
  function Receipts(rs: seq<Reservation>, sequence: int): (out: seq<Reservation>)
    ensures forall r :: r in out <==> r in rs && IsReceiptFor(r, sequence)
  {
    if rs == [] then []
    else
      var n := |rs| - 1;
      assert forall r :: r in rs <==> r in rs[..n] || r == rs[n];
      if IsReceiptFor(rs[n], sequence) then Receipts(rs[..n], sequence) + [rs[n]] else Receipts(rs[..n], sequence)
  }

  predicate ReceiptMatches(rs: seq<Reservation>, page: Page, sequence: int) {
    var found := Receipts(rs, sequence);
    && |found| == 1
    && found[0].lane == page.lane && found[0].charged == |page.digest|
    && found[0].maxRows == page.query.limit && found[0].query == Some(page.query)
  }

  /** The page numbers claimed by the responses of the two data lanes, in order. */
  function PageReceipts(rs: seq<Reservation>): seq<Option<int>> {
    if rs == [] then []
    else
      var n := |rs| - 1;
      if rs[n].state == Response && rs[n].lane != MetadataLane
      then PageReceipts(rs[..n]) + [rs[n].page] else PageReceipts(rs[..n])
  }

  function MetadataResponses(rs: seq<Reservation>): nat {
    if rs == [] then 0
    else
      var n := |rs| - 1;
      MetadataResponses(rs[..n]) + if rs[n].lane == MetadataLane && rs[n].state == Response then 1 else 0
  }

  /** 1, 2, ..., n as optional page numbers. */
  function Range(n: nat): seq<Option<int>> { seq(n, i => Some(i + 1)) }

  predicate ReservationOk(rs: seq<Reservation>, invocations: seq<Invocation>, i: nat)
    requires i < |rs|
  {
    var r := rs[i];
    && r.id == i + 1
    && 0 <= r.charged <= r.maxRows
    && (r.state == Uncertain ==> r.charged == r.maxRows && r.page == None)
    && 1 <= r.invocation <= |invocations| && invocations[r.invocation - 1].id == r.invocation
    && (i > 0 ==> rs[i - 1].invocation <= r.invocation)
    && (r.lane == MetadataLane ==> r.maxRows == 0 && r.page == None && r.query == None)
  }

  // ---- Invocations and acquisition --------------------------------------------------------

  /** A single path-safe identifier. */
  predicate SafeIdentifier(s: string) {
    s != "" && forall i :: 0 <= i < |s| ==>
      var c := s[i]; 'A' <= c <= 'Z' || 'a' <= c <= 'z' || '0' <= c <= '9' || c == '_' || c == '-'
  }

  predicate KeyOk(named: bool, invocations: seq<Invocation>, i: nat)
    requires i < |invocations|
  {
    var key := invocations[i].key;
    if named then
      key.Some? && SafeIdentifier(key.value) && forall j :: 0 <= j < i ==> invocations[j].key != key
    else key == None
  }

  predicate InvocationState(s: State) { s != Planned }

  predicate WithinGrant(used: Usage, grant: Usage) {
    && grant.rows > 0 && grant.attempts > 0
    && used.rows <= grant.rows && used.attempts <= grant.attempts
  }

  predicate InvocationOk(m: Manifest, i: nat)
    requires i < |m.invocations|
  {
    var v := m.invocations[i];
    && KeyOk(m.parameters.named, m.invocations, i)
    && v.id == i + 1 && v.consumed == ConsumedBy(m.reservations, i + 1) && InvocationState(v.state)
    && WithinGrant(v.consumed, v.grant)
  }

  /** The shape and state rules of an acquisition snapshot. */
  predicate ValidAcquisition(a: Acquisition) {
    && a.state != Interrupted
    && a.limits.rows >= 1 && a.limits.attempts >= 1
    && 0 <= a.consumed.rows <= a.limits.rows && 0 <= a.consumed.attempts <= a.limits.attempts
    && (forall id :: id in a.unconfirmed ==> Usable(id))
    && (a.baseline.None? ==> a.unconfirmed == {})
    && (a.observed.Some? ==> a.observed.value.0 <= a.observed.value.1)
    && (a.state == Acquired ==>
          a.scanComplete && a.checkComplete && !a.truncated && a.observed.Some? && a.consumed.attempts > 0)
    && (a.state == Truncated ==> a.truncated)
  }

  // ---- The decision -----------------------------------------------------------------------

  predicate IdentityOk(m: Manifest) {
    && m.parameters.scope.from < m.parameters.scope.to
    && m.planId == m.parameters && m.scope == m.parameters.scope
    && m.baseline == m.parameters.baseline && m.ceilings == m.parameters.ceilings
  }

  predicate PageBounded(page: Page, pageSize: int) {
    page.lane != MetadataLane && page.path == Path(page.lane, page.sequence) && 0 < page.query.limit <= pageSize
  }

  predicate PageStored(page: Page, files: map<Path, seq<Row>>) {
    page.path in files && files[page.path] == page.digest && |page.digest| == page.rowCount
  }

  predicate LanesReplayed(m: Manifest, p: Progress) {
    var ids := m.parameters.Ids();
    && p.offset <= |ids|
    && m.scan == ScanProgress(p.scanComplete, p.cursor)
    && m.members == MemberProgress(p.offset == |ids|, p.offset, p.returned, Elements(ids[..p.offset]) - Elements(p.returned))
    && m.written == p.received && m.received == p.received
  }

  function Elements(ids: seq<string>): set<string> { set id | id in ids }

  predicate PagesReplayed(m: Manifest) {
    && Replay(m.parameters, m.pages).Some?
    && forall i :: 0 <= i < |m.pages| ==> ReceiptMatches(m.reservations, m.pages[i], i + 1)
  }

  predicate EvidenceOk(m: Manifest, metadata: Option<Metadata>)
  {
    && (m.baseline.Some? ==> multiset(m.baseline.value.ids) == m.baseline.value.digest)
    && PagesReplayed(m) && LanesReplayed(m, Replay(m.parameters, m.pages).value)
    && (m.metadataVerified ==> metadata.Some? && metadata == m.metadataDigest && metadata.value.valid)
  }

  predicate Accepts(m: Manifest, files: map<Path, seq<Row>>, metadata: Option<Metadata>) {
    && IdentityOk(m)
    && (forall i :: 0 <= i < |m.pages| ==> PageBounded(m.pages[i], m.parameters.pageSize))
    && (forall i :: 0 <= i < |m.pages| ==> PageStored(m.pages[i], files))
    && EvidenceOk(m, metadata)
    && (forall i :: 0 <= i < |m.reservations| ==> ReservationOk(m.reservations, m.invocations, i))
    && multiset(PageReceipts(m.reservations)) == multiset(Range(|m.pages|))
    && MetadataResponses(m.reservations) == (if m.metadataVerified then 1 else 0)
    && (forall i :: 0 <= i < |m.invocations| ==> InvocationOk(m, i))
    && ValidAcquisition(m.acquisition)
    && m.acquisition == Snapshot(m, m.acquisition.state)
    && Consumed(m.reservations).rows <= m.ceilings.rows && Consumed(m.reservations).attempts <= m.ceilings.attempts
    && m.complete == LanesComplete(m) && m.rangeComplete == LanesComplete(m)
    && m.checkpoint == None
  }

  // ---- The replay as the source runs it ---------------------------------------------------

  method VerifyPages(m: Manifest, files: map<Path, seq<Row>>) returns (ok: bool)
    ensures ok <==> forall i :: 0 <= i < |m.pages| ==> PageStored(m.pages[i], files)
  {
    for i := 0 to |m.pages|
      invariant forall k :: 0 <= k < i ==> PageStored(m.pages[k], files)
    {
      var page := m.pages[i];
      if page.path !in files { return false; }
      var content := files[page.path];
      if content != page.digest || |content| != page.rowCount { return false; }
    }
    return true;
  }

  method VerifyPage(m: Manifest, page: Page, sequence: int, rows: seq<Row>, before: Progress)
    returns (ok: bool, after: Progress)
    requires IdentityOk(m) && before.offset <= |m.parameters.Ids()| && rows == page.digest
    ensures Advance(m.parameters, before, page, sequence) == if ok then Some(after) else None
  {
    ok, after := false, before;
    var ids := if m.baseline.Some? then m.baseline.value.ids else [];
    if page.sequence != sequence || |rows| != page.rowCount { return; }
    var expected: Query;
    if page.lane == ScanLane && !before.scanComplete && before.offset == 0 {
      expected := ScopeQuery(m.scope, m.parameters.projection, page.query.limit, before.cursor);
      if !ValidScanRows(rows, m.scope, before.cursor) || page.requested != before.cursor { return; }
      after := after.(cursor := NextCursor(before.cursor, rows), scanComplete := |rows| < page.query.limit);
      if page.final != after.cursor { return; }
    } else if page.lane == MemberLane && before.scanComplete {
      var batch := Batch(ids, before.offset, m.parameters.pageSize);
      if batch == [] { return; }
      expected := MemberQuery(batch, m.parameters.projection);
      if !ValidMemberRows(rows, batch) || page.requested != None || page.final != None { return; }
      after := after.(returned := before.returned + RowIds(rows), offset := before.offset + |batch|);
    } else {
      return;
    }
    after := after.(received := before.received + |rows|);
    ok := expected == page.query;
  }

  method VerifyPageSequence(m: Manifest, files: map<Path, seq<Row>>) returns (ok: bool, progress: Progress)
    requires IdentityOk(m)
    requires forall i :: 0 <= i < |m.pages| ==> PageStored(m.pages[i], files)
    ensures ok <==> PagesReplayed(m)
    ensures ok ==> Replay(m.parameters, m.pages) == Some(progress)
  {
    hide Advance, ReceiptMatches;
    ok, progress := false, START;
    for i := 0 to |m.pages|
      invariant progress.offset <= |m.parameters.Ids()|
      invariant Replay(m.parameters, m.pages[..i]) == Some(progress)
      invariant forall k :: 0 <= k < i ==> ReceiptMatches(m.reservations, m.pages[k], k + 1)
    {
      var page := m.pages[i];
      assert m.pages[..i + 1] == m.pages[..i] + [page];
      ReplaySnoc(m.parameters, m.pages[..i], page);
      var valid, after := VerifyPage(m, page, i + 1, files[page.path], progress);
      if !valid {
        if Replay(m.parameters, m.pages).Some? { ReplayPrefix(m.parameters, m.pages, i + 1); }
        return;
      }
      if !ReceiptMatches(m.reservations, page, i + 1) { return; }
      progress := after;
    }
    assert m.pages[..|m.pages|] == m.pages;
    ok := true;
  }

  method VerifyEvidence(m: Manifest, files: map<Path, seq<Row>>, metadata: Option<Metadata>) returns (ok: bool)
    requires IdentityOk(m)
    requires forall i :: 0 <= i < |m.pages| ==> PageStored(m.pages[i], files)
    ensures ok <==> EvidenceOk(m, metadata)
  {
    if m.baseline.Some? && multiset(m.baseline.value.ids) != m.baseline.value.digest { return false; }
    var replayed, progress := VerifyPageSequence(m, files);
    if !replayed || !LanesReplayed(m, progress) { return false; }
    return m.metadataVerified ==> metadata.Some? && metadata == m.metadataDigest && metadata.value.valid;
  }

  method VerifyReservations(m: Manifest) returns (ok: bool)
    ensures ok <==>
      && (forall i :: 0 <= i < |m.reservations| ==> ReservationOk(m.reservations, m.invocations, i))
      && multiset(PageReceipts(m.reservations)) == multiset(Range(|m.pages|))
      && MetadataResponses(m.reservations) == (if m.metadataVerified then 1 else 0)
  {
    var rs := m.reservations;
    var pageReceipts: seq<Option<int>> := [];
    var metadataResponses := 0;
    for i := 0 to |rs|
      invariant forall k :: 0 <= k < i ==> ReservationOk(rs, m.invocations, k)
      invariant pageReceipts == PageReceipts(rs[..i])
      invariant metadataResponses == MetadataResponses(rs[..i])
    {
      assert rs[..i + 1][..i] == rs[..i];
      var r := rs[i];
      if !ReservationOk(rs, m.invocations, i) { return false; }
      if r.state == Response && r.lane != MetadataLane {
        pageReceipts := pageReceipts + [r.page];
      }
      if r.state == Response && r.lane == MetadataLane {
        metadataResponses := metadataResponses + 1;
      }
    }
    assert rs[..|rs|] == rs;
    return multiset(pageReceipts) == multiset(Range(|m.pages|))
        && metadataResponses == (if m.metadataVerified then 1 else 0);
  }

  method VerifyInvocations(m: Manifest) returns (ok: bool)
    ensures ok <==> forall i :: 0 <= i < |m.invocations| ==> InvocationOk(m, i)
  {
    var namedKeys: set<Option<string>> := {};
    for i := 0 to |m.invocations|
      invariant forall k :: 0 <= k < i ==> InvocationOk(m, k)
      invariant m.parameters.named ==> namedKeys == set k | 0 <= k < i :: m.invocations[k].key
    {
      var v := m.invocations[i];
      if m.parameters.named {
        if v.key in namedKeys {
          var k :| 0 <= k < i && m.invocations[k].key == v.key;
          assert !InvocationOk(m, i);
          return false;
        }
        if v.key == None || !SafeIdentifier(v.key.value) {
          assert !InvocationOk(m, i);
          return false;
        }
        namedKeys := namedKeys + {v.key};
      } else if v.key != None {
        assert !InvocationOk(m, i);
        return false;
      }
      var usage := ConsumedBy(m.reservations, i + 1);
      if v.id != i + 1 || v.consumed != usage || !InvocationState(v.state) || !WithinGrant(usage, v.grant) {
        assert !InvocationOk(m, i);
        return false;
      }
    }
    return true;
  }

  method VerifyPopulationRun(m: Manifest, files: map<Path, seq<Row>>, metadata: Option<Metadata>) returns (ok: bool)
    ensures ok <==> Accepts(m, files, metadata)
  {
    if !IdentityOk(m) { return false; }
    for i := 0 to |m.pages|
      invariant forall k :: 0 <= k < i ==> PageBounded(m.pages[k], m.parameters.pageSize)
    {
      if !PageBounded(m.pages[i], m.parameters.pageSize) { return false; }
    }
    var step := VerifyPages(m, files);
    if !step { return false; }
    step := VerifyEvidence(m, files, metadata);
    if !step { return false; }
    step := VerifyReservations(m);
    if !step { return false; }
    step := VerifyInvocations(m);
    if !step { return false; }
    var totals := Consumed(m.reservations);
    return ValidAcquisition(m.acquisition) && m.acquisition == Snapshot(m, m.acquisition.state)
        && totals.rows <= m.ceilings.rows && totals.attempts <= m.ceilings.attempts
        && m.complete == LanesComplete(m) && m.rangeComplete == LanesComplete(m)
        && m.checkpoint == None;
  }
}

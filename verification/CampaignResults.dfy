/** What the campaign as a whole guarantees, read off the durable states the driver maintains. */
module CampaignResults {
  import opened Wrappers
  import opened Text
  import opened Campaign
  import opened CampaignVerifier
  import opened CampaignSoundness
  import opened CampaignSource
  import opened CampaignWriter
  import opened CampaignSteps
  import opened CampaignBudget
  import opened CampaignLedger
  import opened CampaignTransport
  import opened CampaignDriver

  /**
   * In every durable state, whatever was retried, interrupted or lost, the attempts physically made
   * and the rows received within the limit of their request stay within the campaign's ceilings. An
   * answer beyond its limit is dropped, and its rows are not among them.
   */
  lemma TrafficWithinCeilings(m: Manifest, files: map<Path, seq<Row>>, metadata: Option<Metadata>, world: Physical)
    requires StagingOk(m, files, metadata, world) || PublishedOk(m, files, metadata, world)
    ensures world.sent <= m.ceilings.attempts && world.delivered <= m.ceilings.rows
  {
    hide Settled, Accepts;
    AttemptsCounted(m.reservations);
  }

  /**
   * A campaign published as acquired from an unchanging source holds every in-scope identity once,
   * asked for the whole baseline, and reports missing exactly the members the source does not register.
   */
  lemma AcquiredCoversSource(m: Manifest, files: map<Path, seq<Row>>, metadata: Option<Metadata>, world: Physical)
    requires PublishedOk(m, files, metadata, world) && m.acquisition.state == Acquired
    requires world.truth.Some? && TableOk(world.truth.value)
    ensures ScanIds(m.pages) == RowIds(Select(world.truth.value, InScope(m.scope, None)))
    ensures AskedIds(m.pages) == m.parameters.Ids()
    ensures forall id :: id in m.members.missing <==> id in m.parameters.Ids() && !Registered(world.truth.value, id)
    ensures Increasing(ScanIds(m.pages))
    ensures forall id :: id in ScanIds(m.pages) <==> exists row :: row in world.truth.value && Belongs(row, m.parameters.scope, id)
    ensures forall id :: id in m.members.missing <==>
              id in m.parameters.Ids() && forall row :: row in world.truth.value && row.department == "Antioquia" ==> row.id != id
  {
    var table := world.truth.value;
    SelectIncreasing(table, InScope(m.scope, None));
    forall id ensures id in RowIds(Select(table, InScope(m.scope, None))) <==> exists row :: row in table && Belongs(row, m.scope, id) {
      InScopeIds(table, m.scope, id);
    }
    hide Books;
    assert LanesComplete(m) by { AcquiredLanes(m, files, metadata); }
    hide Accepts;
    ScanCompleteness(m, files, metadata, world.truth.value);
    MembershipCompleteness(m, files, metadata, world.truth.value);
    AcceptedLanes(m, files, metadata);
  }

  /** A row of the population: of the department, signed from the first day on and before the last. */
  predicate Belongs(row: Row, scope: Scope, id: string) {
    row.id == id && row.department == "Antioquia" && row.signing.Some? && scope.from <= row.signing.value < scope.to
  }

  lemma InScopeIds(table: seq<Row>, scope: Scope, id: string)
    ensures id in RowIds(Select(table, InScope(scope, None))) <==> exists row :: row in table && Belongs(row, scope, id)
  {
    var rows := Select(table, InScope(scope, None));
    if id in RowIds(rows) {
      var i :| 0 <= i < |rows| && RowIds(rows)[i] == id;
      assert rows[i] in rows && Belongs(rows[i], scope, id);
    }
    if row :| row in table && Belongs(row, scope, id) {
      assert row in rows;
      var i :| 0 <= i < |rows| && rows[i] == row;
      assert RowIds(rows)[i] == id;
    }
  }

  lemma AcquiredLanes(m: Manifest, files: map<Path, seq<Row>>, metadata: Option<Metadata>)
    requires Accepts(m, files, metadata) && m.acquisition.state == Acquired
    ensures LanesComplete(m)
  {
    hide EvidenceOk;
  }

  // ---- Named grants -----------------------------------------------------------------------

  /**
   * Any number of calls with one key make one invocation: in every later state of the campaign the
   * key of an earlier invocation still names that invocation alone, what was charged to it is within
   * the grant it was given then, and a call with it resumes that invocation or is refused. It
   * resumes exactly while nothing has superseded it and the grant is unchanged.
   */
  lemma NamedKeyOnce(a: Manifest, b: Manifest, i: nat, grant: Usage)
    requires Extends(a, b) && Books(b) && a.parameters.named && i < |a.invocations|
    ensures a.invocations[i].key.Some?
    ensures forall j :: 0 <= j < |b.invocations| && b.invocations[j].key == a.invocations[i].key ==> j == i
    ensures WithinGrant(ConsumedBy(b.reservations, i + 1), a.invocations[i].grant)
    ensures CheckNamedGrant(b, Named(a.invocations[i].key.value), grant) ==
            if i == |b.invocations| - 1 && a.invocations[i].grant == grant then SameGrant else Rejected
  {
    hide PagesKept, ReceiptsKept, ReservationsKept, CheckNamedGrant;
    forall j | 0 <= j < |b.invocations| ensures KeyOk(true, b.invocations, j) && b.invocations[j].id == j + 1 {
      assert InvocationKept(true, b.reservations, b.invocations, j);
    }
    assert InvocationKept(true, b.reservations, b.invocations, i);
    OneKeyOneInvocation(b, i, grant);
  }

  /** The same of any accepted log, however it was produced. */
  lemma AcceptedKeyOnce(m: Manifest, files: map<Path, seq<Row>>, metadata: Option<Metadata>, i: nat, grant: Usage)
    requires Accepts(m, files, metadata) && m.parameters.named && i < |m.invocations|
    ensures m.invocations[i].key.Some?
    ensures forall j :: 0 <= j < |m.invocations| && m.invocations[j].key == m.invocations[i].key ==> j == i
    ensures WithinGrant(ConsumedBy(m.reservations, i + 1), m.invocations[i].grant)
    ensures CheckNamedGrant(m, Named(m.invocations[i].key.value), grant) ==
            if i == |m.invocations| - 1 && m.invocations[i].grant == grant then SameGrant else Rejected
  {
    hide EvidenceOk, ReservationOk, ValidAcquisition, CheckNamedGrant;
    forall j | 0 <= j < |m.invocations| ensures KeyOk(true, m.invocations, j) && m.invocations[j].id == j + 1 {
      assert InvocationOk(m, j);
    }
    assert InvocationOk(m, i);
    OneKeyOneInvocation(m, i, grant);
  }

  lemma OneKeyOneInvocation(m: Manifest, i: nat, grant: Usage)
    requires i < |m.invocations|
    requires forall j :: 0 <= j < |m.invocations| ==> KeyOk(true, m.invocations, j) && m.invocations[j].id == j + 1
    ensures m.invocations[i].key.Some?
    ensures forall j :: 0 <= j < |m.invocations| && m.invocations[j].key == m.invocations[i].key ==> j == i
    ensures CheckNamedGrant(m, Named(m.invocations[i].key.value), grant) ==
            if i == |m.invocations| - 1 && m.invocations[i].grant == grant then SameGrant else Rejected
  {
    var invocations := m.invocations;
    assert KeyOk(true, invocations, i);
    forall j | 0 <= j < |invocations| && invocations[j].key == invocations[i].key ensures j == i {
      assert KeyOk(true, invocations, j);
    }
    SingleMatch(invocations, i);
    assert invocations[i].id == i + 1 && invocations[|invocations| - 1].id == |invocations|;
  }

  lemma {:induction false} SingleMatch(invocations: seq<Invocation>, i: nat)
    requires i < |invocations| && invocations[i].key.Some?
    requires forall j :: 0 <= j < |invocations| && invocations[j].key == invocations[i].key ==> j == i
    ensures KeyMatches(invocations, invocations[i].key.value) == [invocations[i]]
  {
    var n := |invocations| - 1;
    var before := invocations[..n];
    assert forall j :: 0 <= j < n ==> before[j] == invocations[j];
    if i < n {
      SingleMatch(before, i);
    } else {
      NoMatch(before, invocations[i].key.value);
    }
  }

  lemma {:induction false} NoMatch(invocations: seq<Invocation>, key: string)
    requires forall j :: 0 <= j < |invocations| ==> invocations[j].key != Some(key)
    ensures KeyMatches(invocations, key) == []
  {
    if invocations != [] {
      var n := |invocations| - 1;
      assert forall j :: 0 <= j < n ==> invocations[..n][j] == invocations[j];
      NoMatch(invocations[..n], key);
    }
  }

  // ---- What a budget stop does not mean ---------------------------------------------------

  function Bounded(ceilings: Usage, pageSize: Positive): Plan {
    Plan(Scope(0, 1), None, ceilings, pageSize, ["id_contrato"], "p", false)
  }

  /** A campaign whose metadata is pinned and whose first scan page was asked for and never answered. */
  lemma OnePageLost(plan: Plan, grant: Usage) returns (m: Manifest)
    requires plan == Bounded(plan.ceilings, plan.pageSize) && 2 <= plan.ceilings.attempts && 2 <= grant.attempts
    requires plan.pageSize <= grant.rows <= plan.ceilings.rows && grant.attempts <= plan.ceilings.attempts
    ensures Books(m) && m.parameters == plan && m.invocations != [] && m.metadataVerified && !m.scan.complete
    ensures Retried(m, plan.pageSize) && Wanted(m, 1)
    ensures RowsLeft(m) == plan.ceilings.rows - plan.pageSize && GrantRowsLeft(m) == grant.rows - plan.pageSize
    ensures AttemptsLeft(m) == plan.ceilings.attempts - 2
  {
    hide Books, Settled;
    var m0 := Started(plan);
    StartedDurable(plan, map[], None);
    GrantedBooks(m0, grant, None);
    var granted := Granted(m0, grant, None);
    var m1 := Reserved(granted, MetadataLane, None, 0);
    ReservedBooks(granted, MetadataLane, None, 0);
    MetadataTakenBooks(m1, Metadata(true, ""));
    var m2 := MetadataTaken(m1, Metadata(true, ""));
    var query := ScopeQuery(m2.scope, m2.parameters.projection, plan.pageSize, None);
    ReservedBooks(m2, ScanLane, Some(query), plan.pageSize);
    m := Reserved(m2, ScanLane, Some(query), plan.pageSize);
  }

  /**
   * A ceiling can end a campaign that still has rows left: the page it was scanning is retried whole,
   * and a smaller one is never tried.
   */
  lemma EndedWithRowsLeft() returns (m: Manifest)
    ensures Books(m) && m.invocations != [] && Wanted(m, 60) && RowsLeft(m) == 40
    ensures Requirement(m, 60) == Exceeded(CampaignRowsExhausted, true)
  {
    hide Books, Wanted, Retried;
    m := OnePageLost(Bounded(Usage(100, 10), 60), Usage(100, 10));
    RetryWanted(m, 60);
  }

  lemma RetryWanted(m: Manifest, rows: int)
    requires m.metadataVerified && !m.scan.complete && Retried(m, rows)
    ensures Wanted(m, rows)
  {
  }

  /** A campaign can pause for another grant that no call can give: its grant of rows ran out together with all attempts. */
  lemma PausedForGood() returns (m: Manifest)
    ensures Books(m) && m.invocations != [] && Wanted(m, 1)
    ensures Requirement(m, 1) == Exceeded(InvocationRowsExhausted, false)
    ensures forall grant :: !GrantFits(m, grant)
  {
    hide Books, Wanted, Retried;
    m := OnePageLost(Bounded(Usage(10, 2), 1), Usage(1, 2));
  }

  // ---- Where writer and verifier part -----------------------------------------------------

  /** An accepted campaign that completed its lanes had a baseline of usable identities only. */
  lemma CompletedBaselineUsable(m: Manifest, files: map<Path, seq<Row>>, metadata: Option<Metadata>)
    requires Accepts(m, files, metadata) && LanesComplete(m)
    ensures forall i :: 0 <= i < |m.parameters.Ids()| ==> Usable(m.parameters.Ids()[i])
  {
    hide Replay, Advance, Usable;
    MissingUsable(m);
  }

  /**
   * Answering a membership batch that holds an unusable identity leaves a saved manifest that the
   * campaign's own replay refuses: the campaign cannot be resumed.
   */
  lemma UnusableBatchRefused(m: Manifest, page: Page, batch: seq<string>, bad: nat,
                             files: map<Path, seq<Row>>, metadata: Option<Metadata>)
    requires ReadyFor(m, page) && page.lane == MemberLane && m.scan.complete && !m.members.complete
    requires 0 <= m.members.offset <= |m.parameters.Ids()|
    requires batch == Batch(m.parameters.Ids(), m.members.offset, m.parameters.pageSize)
    requires ValidMemberRows(page.digest, batch) && page.requested == None && page.final == None
    requires page.query == MemberQuery(batch, m.parameters.projection)
    requires bad < |batch| && !Usable(batch[bad])
    requires Stored(MembersTaken(m, page, batch), files, metadata)
    ensures var saved := Refreshed(MembersTaken(m, page, batch), Extracting);
            Durable(saved, files, metadata) && !Accepts(saved, files, metadata)
  {
    hide Books, ReadyFor, ValidMemberRows, Usable, Accepts, Settled, Stored, Refreshed, MembersTaken, Batch;
    Reserving(m, page);
    MembersTakenOffset(m, page, batch);
    MembersTakenBooks(m, page, batch);
    var taken := MembersTaken(m, page, batch);
    RefreshedSettles(taken, Extracting);
    StoredRefreshed(taken, files, metadata);
    UnusableRefused(Refreshed(taken, Extracting), m.members.offset + bad, files, metadata);
  }

  lemma Reserving(m: Manifest, page: Page)
    requires ReadyFor(m, page)
    ensures m.reservations != []
  {
  }

  lemma MembersTakenOffset(m: Manifest, page: Page, batch: seq<string>)
    requires m.reservations != [] && 0 <= m.members.offset <= |m.parameters.Ids()|
    requires batch == Batch(m.parameters.Ids(), m.members.offset, m.parameters.pageSize)
    ensures m.members.offset + |batch| <= |m.parameters.Ids()|
    ensures MembersTaken(m, page, batch).members.offset == m.members.offset + |batch|
    ensures MembersTaken(m, page, batch).parameters == m.parameters
    ensures forall i :: 0 <= i < |batch| ==> batch[i] == m.parameters.Ids()[m.members.offset + i]
  {
  }

  lemma UnusableRefused(m: Manifest, i: nat, files: map<Path, seq<Row>>, metadata: Option<Metadata>)
    requires Durable(m, files, metadata) && i < m.members.offset && i < |m.parameters.Ids()| && !Usable(m.parameters.Ids()[i])
    ensures !Accepts(m, files, metadata)
  {
    hide Durable, Accepts, Usable;
    AgreementExact(m, files, metadata);
  }

  lemma StoredRefreshed(m: Manifest, files: map<Path, seq<Row>>, metadata: Option<Metadata>)
    requires Stored(m, files, metadata)
    ensures Stored(Refreshed(m, Extracting), files, metadata)
    ensures Refreshed(m, Extracting).parameters == m.parameters && Refreshed(m, Extracting).members == m.members
  {
    hide PageStored, Consumed;
  }

  /** Not blank once stripped, and so accepted by every other check of an identity, but not usable text. */
  const NUL_ID := "a\0"

  function NulPlan(): Plan {
    var ids := [NUL_ID];
    Plan(Scope(0, 1), Some(Baseline("v", ids, multiset(ids))), Usage(10, 10), 1, ["id_contrato"], "p", false)
  }

  /** That campaign once its scan has answered with nothing. */
  lemma NulScanned() returns (m: Manifest)
    ensures Books(m) && m.parameters == NulPlan() && m.invocations != [] && m.scan.complete && m.members == MemberProgress(false, 0, [], {})
    ensures Requirement(m, 1) == Allowed && m.metadataVerified && m.metadataDigest == Some(Metadata(true, ""))
    ensures |m.pages| == 1 && m.pages[0].path == Path(ScanLane, 1) && m.pages[0].digest == [] && m.pages[0].rowCount == 0
  {
    hide Books, Settled, Accepts;
    var m0 := Started(NulPlan());
    StartedDurable(NulPlan(), map[], None);
    GrantedBooks(m0, Usage(10, 10), None);
    var m1 := Reserved(Granted(m0, Usage(10, 10), None), MetadataLane, None, 0);
    ReservedBooks(Granted(m0, Usage(10, 10), None), MetadataLane, None, 0);
    MetadataTakenBooks(m1, Metadata(true, ""));
    var m2 := MetadataTaken(m1, Metadata(true, ""));
    var scan := ScopeQuery(m2.scope, m2.parameters.projection, 1, None);
    ReservedBooks(m2, ScanLane, Some(scan), 1);
    var m3 := Reserved(m2, ScanLane, Some(scan), 1);
    var first := NewPage(m3, ScanLane, scan, None, [], 0);
    ScanTakenBooks(m3, first);
    m := ScanTaken(m3, first);
  }

  /** A concrete campaign, over a baseline of one identity with a NUL, that the writer saves and the replay refuses. */
  lemma AgreementCanFail() returns (saved: Manifest, files: map<Path, seq<Row>>, metadata: Option<Metadata>)
    ensures saved.parameters == NulPlan() && Durable(saved, files, metadata) && !Accepts(saved, files, metadata)
  {
    hide Books, Settled, Accepts, Requirement;
    var m := NulScanned();
    var member := MemberQuery([NUL_ID], m.parameters.projection);
    ReservedBooks(m, MemberLane, Some(member), 1);
    var asked := Reserved(m, MemberLane, Some(member), 1);
    LastInvocationId(m);
    var page := NewPage(asked, MemberLane, member, None, [], 0);
    files := map[Path(ScanLane, 1) := [], page.path := []];
    metadata := Some(Metadata(true, ""));
    assert NUL_ID[1] as int == 0;
    UnusableBatchRefused(asked, page, [NUL_ID], 0, files, metadata);
    saved := Refreshed(MembersTaken(asked, page, [NUL_ID]), Extracting);
  }
}

/** The campaign driver: grants, metadata, the scan lane, the membership lane and the ending. */
module CampaignDriver {
  import opened Wrappers
  import opened Text
  import opened Durability
  import opened Campaign
  import opened CampaignVerifier
  import opened CampaignSoundness
  import opened CampaignSource
  import opened CampaignWriter
  import opened CampaignSteps
  import opened CampaignBudget
  import opened CampaignLedger
  import opened CampaignTransport

  /** How a caller names the campaign: a new one, a legacy resume, or a reserved identity with a grant key. */
  datatype Mode = Fresh | Resume | Named(key: string)

  datatype Refusal = InvalidArguments | AlreadyExists | NotFound | Unreadable | PlanChanged | Evidence | NamedGrant

  datatype Outcome = Finished(m: Manifest) | Paused(m: Manifest) | Refused(why: Refusal) | Raised | Died

  /** The invocation a named key resumes, if its grant is unchanged and nothing has superseded it. */
  datatype GrantCheck = NewGrant | SameGrant | Rejected

  function KeyMatches(invocations: seq<Invocation>, key: string): seq<Invocation> {
    if invocations == [] then []
    else
      var n := |invocations| - 1;
      KeyMatches(invocations[..n], key) + if invocations[n].key == Some(key) then [invocations[n]] else []
  }

  function CheckNamedGrant(m: Manifest, mode: Mode, grant: Usage): GrantCheck {
    if !mode.Named? then NewGrant
    else
      var matches := KeyMatches(m.invocations, mode.key);
      if matches == [] then NewGrant
      else if |matches| != 1 then Rejected
      else if matches[0].grant != grant then Rejected
      else if matches[0] != m.invocations[|m.invocations| - 1] then Rejected
      else SameGrant
  }

  /** The call's grant is the one already given, can still be given, or comes when nothing is left to give. */
  predicate Affordable(m: Manifest, mode: Mode, grant: Usage) {
    CheckNamedGrant(m, mode, grant) == SameGrant || GrantFits(m, grant) || RowsLeft(m) < 1 || AttemptsLeft(m) < 1
  }

  /** Every baseline identity is text that the acquisition checks accept. */
  predicate BaselineUsable(plan: Plan) { forall i :: 0 <= i < |plan.Ids()| ==> Usable(plan.Ids()[i]) }

  class PopulationReconciliation {
    const world: World
    const transport: SocrataTransport

    constructor (world: World, transport: SocrataTransport)
      ensures this.world == world && this.transport == transport
    {
      this.world := world;
      this.transport := transport;
    }

    /** Fetches and pins the metadata, once per campaign. */
    method FetchMetadata(ledger: CampaignLedger) returns (s: Signal)
      requires ledger.world == world && ledger.Live() && ledger.manifest.invocations != []
      modifies ledger, world`next, world`staging, world`sent, world`metadata
      ensures s == Killed ==> world.Fatal()
      ensures ledger.Live() && Extends(old(ledger.manifest), ledger.manifest)
      ensures Extends(old(world.staging).value, world.staging.value)
      ensures |ledger.manifest.invocations| == |old(ledger.manifest).invocations|
      ensures s == Done ==> ledger.manifest.metadataVerified
      ensures s.OverBudget? ==> StopExplained(ledger.manifest, s.reason, s.terminal)
      ensures old(world.next) <= world.next
      ensures Smooth(world.script, old(world.next), world.next) && !s.OverBudget? ==> s == Done
    {
      hide MemoryOk, StagingOk, PublishedOk, EndedRightly, Refreshed, Extends, LedgerOnly, Awaiting, Releases, Consumed, StopExplained,
          Requirement;
      ReflexiveExtension(ledger.manifest);
      ReflexiveExtension(world.staging.value);
      if ledger.manifest.metadataVerified { return Done; }
      ledger.lane, ledger.query, ledger.capacity := MetadataLane, None, 0;
      var source, content, time;
      s, source, content, time := transport.Fetch(ledger);
      if s != Done {
        FetchKeepsEvidence(old(ledger.manifest), ledger.manifest);
        MetadataRefused(ledger.manifest);
        return;
      }
      if !content.valid { return Failed; }
      FetchKeepsEvidence(old(ledger.manifest), ledger.manifest);
      ghost var memory, saved := ledger.manifest, world.staging.value;
      s := PinMetadata(ledger, content);
      ExtendsTransitive(old(world.staging).value, saved, world.staging.value);
      ExtendsTransitive(old(ledger.manifest), memory, ledger.manifest);
    }

    /** Stores fetched metadata and records it with the answer to its attempt. */
    method PinMetadata(ledger: CampaignLedger, content: Metadata) returns (s: Signal)
      requires ledger.world == world && ledger.Live() && ledger.manifest.invocations != []
      requires !ledger.manifest.metadataVerified && content.valid && Awaiting(ledger.manifest, MetadataLane, None, 0)
      modifies ledger, world`next, world`staging, world`metadata
      ensures s == Killed ==> world.Fatal()
      ensures ledger.Live() && Extends(old(ledger.manifest), ledger.manifest)
      ensures Extends(old(world.staging).value, world.staging.value)
      ensures |ledger.manifest.invocations| == |old(ledger.manifest).invocations|
      ensures s == Done || s == Failed || s == Killed
      ensures s == Done ==> ledger.manifest.metadataVerified && world.metadata == Some(content)
      ensures old(world.next) <= world.next && (Smooth(world.script, old(world.next), world.next) ==> s == Done)
    {
      hide MemoryOk, StagingOk, PublishedOk, EndedRightly, Refreshed, Extends, LedgerOnly, Releases, Consumed;
      ReflexiveExtension(ledger.manifest);
      ReflexiveExtension(world.staging.value);
      var e := world.Draw();
      if e.write.Lands() {
        NewMetadataWorld(world.staging.value, ledger.manifest, world.files, world.metadata, content, world.Wires());
        world.metadata := Some(content);
      }
      s := SignalOf(e.write);
      if s != Done { return; }
      ghost var before := ledger.manifest;
      MetadataKeeps(before, world.files, content, world.Wires());
      ledger.manifest := ledger.manifest.(metadataVerified := true, metadataDigest := Some(content));
      ledger.Response(0, None);
      ExtendsTransitive(world.staging.value, before, ledger.manifest);
      ExtendsTransitive(old(ledger.manifest), before, ledger.manifest);
      ghost var taken := ledger.manifest;
      RefreshedFields(taken, Extracting);
      s := ledger.Persist(Extracting);
      ExtendsTransitive(old(ledger.manifest), taken, ledger.manifest);
      FetchKeepsEvidence(taken, ledger.manifest);
    }

    /** Writes the file of a page that no manifest names yet. */
    method WritePage(ledger: CampaignLedger, page: Page) returns (s: Signal)
      requires ledger.world == world && ledger.Live() && world.staging == Some(ledger.manifest)
      requires page.path.sequence == |ledger.manifest.pages| + 1
      modifies world`next, world`files
      ensures s == Killed ==> world.Fatal()
      ensures ledger.Live()
      ensures s == SignalOf(world.At(old(world.next)).write) && world.next == old(world.next) + 1
      ensures s == Done ==> page.path in world.files && world.files[page.path] == page.digest
    {
      hide MemoryOk, StagingOk, PublishedOk, EndedRightly, Extends;
      ReflexiveExtension(ledger.manifest);
      var e := world.Draw();
      if e.write.Lands() {
        NewFileWorld(world.staging.value, ledger.manifest, world.files, page.path, page.digest, world.metadata,
            world.Wires());
        world.files := world.files[page.path := page.digest];
      }
      s := SignalOf(e.write);
    }

    /** `page` was taken onto `mid`, the saved manifest: it is stored, receipted and covered, and only not saved yet. */
    ghost predicate Took(ledger: CampaignLedger, mid: Manifest, page: Page)
      reads world, ledger
    {
      && world.Safe() && world.published.None? && world.staging == Some(mid)
      && MemoryOk(mid, world.files, world.metadata, world.Wires())
      && ReadyFor(mid, page) && ledger.manifest == PageAdded(mid, page) && PageStored(page, world.files)
      && (world.truth.Some? ==> page.digest == Answer(world.truth.value, page.query))
      && world.delivered <= Consumed(mid.reservations).rows - page.query.limit + |page.digest|
    }

    /** Requests the rows of one page; rows that the lane does not take are an error. */
    method AskPage(ledger: CampaignLedger, lane: Lane, query: Query, cursor: Option<string>, batch: seq<string>,
                   ghost honest: bool)
      returns (s: Signal, rows: seq<Row>, time: int)
      requires ledger.world == world && ledger.Live() && ledger.manifest.invocations != []
      requires lane != MetadataLane && 0 < query.limit <= ledger.manifest.parameters.pageSize
      requires honest ==>
        world.truth.Some? && Takes(lane, Answer(world.truth.value, query), ledger.manifest.scope, cursor, batch)
      modifies ledger, world`next, world`staging, world`sent, world`delivered
      ensures s == Killed ==> world.Fatal()
      ensures ledger.Live() && LedgerOnly(old(ledger.manifest), ledger.manifest)
      ensures Extends(old(ledger.manifest), ledger.manifest)
      ensures |ledger.manifest.invocations| == |old(ledger.manifest).invocations|
      ensures world.staging.Some? && Extends(old(world.staging).value, world.staging.value)
      ensures s.OverBudget? ==>
        && Requirement(ledger.manifest, query.limit) == Exceeded(s.reason, s.terminal)
        && (ledger.manifest == old(ledger.manifest) || Awaiting(ledger.manifest, lane, Some(query), query.limit))
      ensures s == Done ==>
        && world.staging == Some(ledger.manifest) && Awaiting(ledger.manifest, lane, Some(query), query.limit)
        && |ledger.manifest.reservations| > |old(ledger.manifest).reservations|
        && |rows| <= query.limit && Takes(lane, rows, ledger.manifest.scope, cursor, batch)
        && world.delivered <= Consumed(ledger.manifest.reservations).rows - query.limit + |rows|
        && (world.truth.Some? ==> rows == Answer(world.truth.value, query))
      ensures old(world.next) <= world.next
      ensures honest && Smooth(world.script, old(world.next), world.next) ==> s == Done || s.OverBudget?
    {
      hide MemoryOk, StagingOk, PublishedOk, EndedRightly, Extends, LedgerOnly, Awaiting, Takes, ReadyFor,
          Answer, Responded, Consumed, Releases, Requirement, Smooth;
      ledger.lane, ledger.query, ledger.capacity := lane, Some(query), query.limit;
      s, rows, time := transport.Query(ledger);
      if s != Done { return; }
      FetchKeepsEvidence(old(ledger.manifest), ledger.manifest);
      if !Takes(lane, rows, ledger.manifest.scope, cursor, batch) { s := Failed; }
    }

    /**
     * Requests, validates and records one page. On success the books are those of `mid`, the
     * manifest as saved before the attempt, with `page` added; the lane is the caller's to update.
     */
    method TakePage(ledger: CampaignLedger, lane: Lane, query: Query, cursor: Option<string>, batch: seq<string>,
                    ghost honest: bool)
      returns (s: Signal, page: Page, ghost mid: Manifest)
      requires ledger.world == world && ledger.Live() && ledger.manifest.invocations != []
      requires lane == ScanLane || (lane == MemberLane && cursor == None)
      requires 0 < query.limit <= ledger.manifest.parameters.pageSize
      requires honest ==>
        world.truth.Some? && Takes(lane, Answer(world.truth.value, query), ledger.manifest.scope, cursor, batch)
      modifies ledger, world`next, world`staging, world`sent, world`delivered, world`files
      ensures s == Killed ==> world.Fatal()
      ensures LedgerOnly(old(ledger.manifest), mid) && Extends(old(ledger.manifest), mid)
      ensures |mid.invocations| == |old(ledger.manifest).invocations|
      ensures world.staging.Some? && Extends(old(world.staging).value, world.staging.value)
      ensures s != Done ==> ledger.Live() && ledger.manifest == mid
      ensures s.OverBudget? ==>
        && Requirement(mid, query.limit) == Exceeded(s.reason, s.terminal)
        && (mid == old(ledger.manifest) || Awaiting(mid, lane, Some(query), query.limit))
      ensures s == Done ==>
        && Took(ledger, mid, page) && |mid.reservations| > |old(ledger.manifest).reservations|
        && page.lane == lane && page.query == query && page.requested == cursor
        && page.final == (if lane == ScanLane then NextCursor(cursor, page.digest) else None)
        && Takes(lane, page.digest, mid.scope, cursor, batch)
      ensures old(world.next) <= world.next
      ensures honest && Smooth(world.script, old(world.next), world.next) ==> s == Done || s.OverBudget?
    {
      hide MemoryOk, StagingOk, PublishedOk, EndedRightly, Extends, LedgerOnly, Awaiting, Takes, ReadyFor,
          Answer, Responded, Consumed, Releases, Requirement, Smooth;
      page := NewPage(ledger.manifest, lane, query, cursor, [], 0);
      var rows, time;
      s, rows, time := AskPage(ledger, lane, query, cursor, batch, honest);
      mid := ledger.manifest;
      if s != Done { return; }
      FetchKeepsEvidence(old(ledger.manifest), mid);
      ghost var point := world.next;
      page := NewPage(ledger.manifest, lane, query, cursor, rows, time);
      ReadyPage(mid, page, world.files, world.metadata, world.Wires());
      s := WritePage(ledger, page);
      SmoothParts(world.script, old(world.next), point, world.next);
      SmoothOne(world.script, point);
      if s != Done { return; }
      ledger.manifest := ledger.manifest.(pages := ledger.manifest.pages + [page],
                                          received := ledger.manifest.received + |rows|,
                                          written := ledger.manifest.written + |rows|);
      ledger.Response(|rows|, Some(page.sequence));
    }

    /** Saves a page that was just taken. */
    method SaveTaken(ledger: CampaignLedger) returns (s: Signal)
      requires ledger.world == world && ledger.Sound()
      modifies ledger`manifest, world`next, world`staging
      ensures s == Killed ==> world.Fatal()
      ensures ledger.Live() && Extends(old(ledger.manifest), ledger.manifest)
      ensures Extends(old(world.staging).value, world.staging.value)
      ensures |ledger.manifest.invocations| == |old(ledger.manifest).invocations|
      ensures |ledger.manifest.reservations| == |old(ledger.manifest).reservations|
      ensures ledger.manifest.scan == old(ledger.manifest).scan
      ensures s == SignalOf(world.At(old(world.next)).write) && world.next == old(world.next) + 1
      ensures Smooth(world.script, old(world.next), world.next) ==> s == Done
    {
      hide MemoryOk, StagingOk, PublishedOk, EndedRightly, Refreshed, Extends, LedgerOnly;
      ghost var taken := ledger.manifest;
      RefreshedFields(taken, Extracting);
      s := ledger.Persist(Extracting);
      FetchKeepsEvidence(taken, ledger.manifest);
    }

    /** Asks for one page of the scan lane, as large as plan and budget allow. */
    method AskScan(ledger: CampaignLedger) returns (s: Signal, page: Page, ghost mid: Manifest)
      requires ledger.world == world && ledger.Live() && ledger.manifest.invocations != []
      requires ledger.manifest.metadataVerified && !ledger.manifest.scan.complete
      modifies ledger, world`next, world`staging, world`sent, world`delivered, world`files
      ensures s == Killed ==> world.Fatal()
      ensures Extends(old(ledger.manifest), mid) && |mid.invocations| == |old(ledger.manifest).invocations|
      ensures world.staging.Some? && Extends(old(world.staging).value, world.staging.value)
      ensures s != Done ==> ledger.Live() && ledger.manifest == mid
      ensures s.OverBudget? ==> StopExplained(ledger.manifest, s.reason, s.terminal)
      ensures old(world.next) <= world.next
      ensures Smooth(world.script, old(world.next), world.next) && Steady(world.truth) && s != Done ==> s.OverBudget?
      ensures s == Done ==>
        && Took(ledger, mid, page) && |mid.reservations| > |old(ledger.manifest).reservations|
        && page.lane == ScanLane && !mid.scan.complete && page.requested == mid.scan.cursor
        && page.query == ScopeQuery(mid.scope, mid.parameters.projection, page.query.limit, mid.scan.cursor)
        && page.final == NextCursor(mid.scan.cursor, page.digest) && ValidScanRows(page.digest, mid.scope, mid.scan.cursor)
    {
      hide MemoryOk, StagingOk, PublishedOk, EndedRightly, Refreshed, Extends, LedgerOnly, Awaiting, Takes, ReadyFor,
          StopExplained, Requirement, Wellformed, Answer, Consumed, ConsumedBy, Retried, ValidScanRows,
          ValidMemberRows, Smooth, Steady, Took;
      ghost var before := ledger.manifest;
      ReflexiveExtension(before);
      ReflexiveExtension(world.staging.value);
      mid := before;
      page := NewPage(ledger.manifest, ScanLane, ScopeQuery(ledger.manifest.scope, [], 0, None), None, [], 0);
      s := ledger.Require(1);
      SmoothOne(world.script, world.next);
      if s != Done {
        RefusalExplained(before, 1);
        return;
      }
      ScanRefused(before, Min(before.parameters.pageSize, Remaining(before).rows), before.parameters.pageSize);
      var cursor := ledger.manifest.scan.cursor;
      var limit := Min(ledger.manifest.parameters.pageSize, Remaining(ledger.manifest).rows);
      var query := ScopeQuery(ledger.manifest.scope, ledger.manifest.parameters.projection, limit, cursor);
      ghost var honest := Steady(world.truth);
      if honest { SteadyScan(world.truth, before.scope, before.parameters.projection, limit, cursor); }
      s, page, mid := TakePage(ledger, ScanLane, query, cursor, [], honest);
      FetchKeepsEvidence(before, mid);
      TakenRows(page.digest, mid.scope, cursor, []);
      if s.OverBudget? { RetryExplained(mid, query); }
    }

    /** One page of the scan lane: asked for, recorded with the progress it makes, and saved. */
    method ScanPage(ledger: CampaignLedger) returns (s: Signal)
      requires ledger.world == world && ledger.Live() && ledger.manifest.invocations != []
      requires ledger.manifest.metadataVerified && !ledger.manifest.scan.complete
      modifies ledger, world`next, world`staging, world`sent, world`delivered, world`files
      ensures s == Killed ==> world.Fatal()
      ensures ledger.Live() && Extends(old(ledger.manifest), ledger.manifest)
      ensures Extends(old(world.staging).value, world.staging.value)
      ensures |ledger.manifest.invocations| == |old(ledger.manifest).invocations|
      ensures s == Done ==> |ledger.manifest.reservations| > |old(ledger.manifest).reservations|
      ensures s.OverBudget? ==> StopExplained(ledger.manifest, s.reason, s.terminal)
      ensures old(world.next) <= world.next
      ensures Smooth(world.script, old(world.next), world.next) && Steady(world.truth) && s != Done ==> s.OverBudget?
    {
      hide MemoryOk, StagingOk, PublishedOk, EndedRightly, Refreshed, Extends, LedgerOnly, Awaiting, Takes, ReadyFor,
          StopExplained, Requirement, Wellformed, Answer, Consumed, ConsumedBy, Retried, ValidScanRows,
          ValidMemberRows, Smooth, Steady;
      ghost var before, saved := ledger.manifest, world.staging.value;
      var page;
      ghost var mid;
      s, page, mid := AskScan(ledger);
      if s != Done { return; }
      ScanKeeps(mid, page, world.files, world.metadata, world.Wires());
      ledger.manifest := ledger.manifest.(
        scan := ScanProgress(|page.digest| < page.query.limit, NextCursor(ledger.manifest.scan.cursor, page.digest)));
      ghost var taken, stored, point := ledger.manifest, world.staging.value, world.next;
      assert taken == ScanTaken(mid, page);
      ExtendsTransitive(before, mid, taken);
      s := SaveTaken(ledger);
      ExtendsTransitive(saved, stored, world.staging.value);
      ExtendsTransitive(before, taken, ledger.manifest);
      SmoothParts(world.script, old(world.next), point, world.next);
    }

    /** The scan lane: keyset pages until a short one, as far as the budget goes. */
    method Scan(ledger: CampaignLedger) returns (s: Signal)
      requires ledger.world == world && ledger.Live() && ledger.manifest.invocations != []
      requires ledger.manifest.metadataVerified
      modifies ledger, world`next, world`staging, world`sent, world`delivered, world`files
      ensures s == Killed ==> world.Fatal()
      ensures ledger.Live() && Extends(old(ledger.manifest), ledger.manifest)
      ensures Extends(old(world.staging).value, world.staging.value)
      ensures |ledger.manifest.invocations| == |old(ledger.manifest).invocations|
      ensures s == Done ==> ledger.manifest.scan.complete && ledger.manifest.metadataVerified
      ensures s.OverBudget? ==> StopExplained(ledger.manifest, s.reason, s.terminal)
      ensures old(world.next) <= world.next
      ensures Smooth(world.script, old(world.next), world.next) && Steady(world.truth) && !s.OverBudget? ==> s == Done
    {
      hide MemoryOk, StagingOk, PublishedOk, EndedRightly, Refreshed, Extends, LedgerOnly, Awaiting, Takes,
          ReadyFor, StopExplained, Requirement, Wellformed, Answer;
      ghost var start := ledger.manifest;
      ReflexiveExtension(start);
      ReflexiveExtension(world.staging.value);
      while !ledger.manifest.scan.complete
        invariant ledger.Live() && Extends(start, ledger.manifest) && ledger.manifest.metadataVerified
        invariant Extends(old(world.staging).value, world.staging.value) && old(world.next) <= world.next
        invariant ledger.manifest.invocations != [] && |ledger.manifest.invocations| == |start.invocations|
        decreases start.parameters.ceilings.attempts - |ledger.manifest.reservations|
      {
        ghost var before, saved := ledger.manifest, world.staging.value;
        SameParameters(start, before);
        s := ScanPage(ledger);
        ExtendsTransitive(start, before, ledger.manifest);
        ExtendsTransitive(old(world.staging).value, saved, world.staging.value);
        if s != Done { return; }
        SameParameters(before, ledger.manifest);
        VerifiedStays(before, ledger.manifest);
        MemoryBound(ledger.manifest, world.files, world.metadata, world.Wires());
      }
      s := Done;
    }

    /** Asks for one batch of the membership lane. */
    method AskMembers(ledger: CampaignLedger) returns (s: Signal, page: Page, ghost mid: Manifest, batch: seq<string>)
      requires ledger.world == world && ledger.Live() && ledger.manifest.invocations != []
      requires ledger.manifest.metadataVerified && ledger.manifest.scan.complete && !ledger.manifest.members.complete
      modifies ledger, world`next, world`staging, world`sent, world`delivered, world`files
      ensures s == Killed ==> world.Fatal()
      ensures Extends(old(ledger.manifest), mid) && |mid.invocations| == |old(ledger.manifest).invocations|
      ensures world.staging.Some? && Extends(old(world.staging).value, world.staging.value)
      ensures s != Done ==> ledger.Live() && ledger.manifest == mid
      ensures s.OverBudget? ==> StopExplained(ledger.manifest, s.reason, s.terminal)
      ensures old(world.next) <= world.next
      ensures Smooth(world.script, old(world.next), world.next) && Steady(world.truth) && s != Done ==> s.OverBudget?
      ensures s == Done ==>
        && Took(ledger, mid, page) && |mid.reservations| > |old(ledger.manifest).reservations|
        && page.lane == MemberLane && mid.scan.complete && !mid.members.complete
        && 0 <= mid.members.offset <= |mid.parameters.Ids()|
        && batch == Batch(mid.parameters.Ids(), mid.members.offset, mid.parameters.pageSize)
        && page.query == MemberQuery(batch, mid.parameters.projection)
        && page.requested == None && page.final == None && ValidMemberRows(page.digest, batch)
    {
      hide MemoryOk, StagingOk, PublishedOk, EndedRightly, Refreshed, Extends, LedgerOnly, Awaiting, Takes, ReadyFor,
          StopExplained, Requirement, Wellformed, Answer, Consumed, ConsumedBy, Retried, ValidScanRows,
          ValidMemberRows, Smooth, Steady, Took, Batch;
      ghost var before := ledger.manifest;
      ReflexiveExtension(before);
      ReflexiveExtension(world.staging.value);
      MembersLeft(before, world.files, world.metadata, world.Wires());
      batch := Batch(ledger.manifest.parameters.Ids(), ledger.manifest.members.offset, ledger.manifest.parameters.pageSize);
      BatchSize(before);
      mid, page := before, NewPage(ledger.manifest, MemberLane, MemberQuery(batch, []), None, [], 0);
      s := ledger.Require(|batch|);
      SmoothOne(world.script, world.next);
      if s != Done {
        RefusalExplained(before, |batch|);
        return;
      }
      var query := MemberQuery(batch, ledger.manifest.parameters.projection);
      ghost var honest := Steady(world.truth);
      if honest { SteadyMembers(world.truth, batch, before.parameters.projection, before.scope); }
      s, page, mid := TakePage(ledger, MemberLane, query, None, batch, honest);
      FetchKeepsEvidence(before, mid);
      TakenRows(page.digest, mid.scope, None, batch);
      if s.OverBudget? { RefusalExplained(mid, |batch|); }
    }

    /** One batch of the membership lane: asked for, recorded with what is still missing, and saved. */
    method MemberBatch(ledger: CampaignLedger) returns (s: Signal)
      requires ledger.world == world && ledger.Live() && ledger.manifest.invocations != []
      requires ledger.manifest.metadataVerified && ledger.manifest.scan.complete && !ledger.manifest.members.complete
      modifies ledger, world`next, world`staging, world`sent, world`delivered, world`files
      ensures s == Killed ==> world.Fatal()
      ensures ledger.Live() && Extends(old(ledger.manifest), ledger.manifest)
      ensures Extends(old(world.staging).value, world.staging.value)
      ensures |ledger.manifest.invocations| == |old(ledger.manifest).invocations|
      ensures s == Done ==> |ledger.manifest.reservations| > |old(ledger.manifest).reservations|
      ensures s == Done ==> ledger.manifest.scan.complete
      ensures s.OverBudget? ==> StopExplained(ledger.manifest, s.reason, s.terminal)
      ensures old(world.next) <= world.next
      ensures Smooth(world.script, old(world.next), world.next) && Steady(world.truth) && s != Done ==> s.OverBudget?
    {
      hide MemoryOk, StagingOk, PublishedOk, EndedRightly, Refreshed, Extends, LedgerOnly, Awaiting, Takes, ReadyFor,
          StopExplained, Requirement, Wellformed, Answer, Consumed, ConsumedBy, Retried, ValidScanRows,
          ValidMemberRows, Smooth, Steady, Batch;
      ghost var before, saved := ledger.manifest, world.staging.value;
      var page, batch;
      ghost var mid;
      s, page, mid, batch := AskMembers(ledger);
      if s != Done { return; }
      MembersKeep(mid, page, batch, world.files, world.metadata, world.Wires());
      BatchEnd(mid);
      var ids, offset := ledger.manifest.parameters.Ids(), ledger.manifest.members.offset;
      var returned := ledger.manifest.members.returned + RowIds(page.digest);
      ledger.manifest := ledger.manifest.(members := MemberProgress(
        offset + |batch| == |ids|, offset + |batch|, returned, Elements(ids[..offset + |batch|]) - Elements(returned)));
      ghost var taken, stored, point := ledger.manifest, world.staging.value, world.next;
      assert taken == MembersTaken(mid, page, batch);
      ExtendsTransitive(before, mid, taken);
      s := SaveTaken(ledger);
      ExtendsTransitive(saved, stored, world.staging.value);
      ExtendsTransitive(before, taken, ledger.manifest);
      SmoothParts(world.script, old(world.next), point, world.next);
    }

    /** The membership lane: the baseline in fixed batches, each asked for exactly once. */
    method Members(ledger: CampaignLedger) returns (s: Signal)
      requires ledger.world == world && ledger.Live() && ledger.manifest.invocations != []
      requires ledger.manifest.metadataVerified && ledger.manifest.scan.complete
      modifies ledger, world`next, world`staging, world`sent, world`delivered, world`files
      ensures s == Killed ==> world.Fatal()
      ensures ledger.Live() && Extends(old(ledger.manifest), ledger.manifest)
      ensures Extends(old(world.staging).value, world.staging.value)
      ensures |ledger.manifest.invocations| == |old(ledger.manifest).invocations|
      ensures s == Done ==> LanesComplete(ledger.manifest)
      ensures s.OverBudget? ==> StopExplained(ledger.manifest, s.reason, s.terminal)
      ensures old(world.next) <= world.next
      ensures Smooth(world.script, old(world.next), world.next) && Steady(world.truth) && !s.OverBudget? ==> s == Done
    {
      hide MemoryOk, StagingOk, PublishedOk, EndedRightly, Refreshed, Extends, LedgerOnly, Awaiting, Takes,
          ReadyFor, StopExplained, Requirement, Wellformed, Answer;
      ghost var start := ledger.manifest;
      ReflexiveExtension(start);
      ReflexiveExtension(world.staging.value);
      while !ledger.manifest.members.complete
        invariant ledger.Live() && Extends(start, ledger.manifest) && ledger.manifest.scan.complete
        invariant ledger.manifest.metadataVerified
        invariant Extends(old(world.staging).value, world.staging.value) && old(world.next) <= world.next
        invariant ledger.manifest.invocations != [] && |ledger.manifest.invocations| == |start.invocations|
        decreases start.parameters.ceilings.attempts - |ledger.manifest.reservations|
      {
        ghost var before, saved := ledger.manifest, world.staging.value;
        SameParameters(start, before);
        s := MemberBatch(ledger);
        ExtendsTransitive(start, before, ledger.manifest);
        ExtendsTransitive(old(world.staging).value, saved, world.staging.value);
        if s != Done { return; }
        SameParameters(before, ledger.manifest);
        VerifiedStays(before, ledger.manifest);
        MemoryBound(ledger.manifest, world.files, world.metadata, world.Wires());
      }
      s := Done;
    }

    /** Creates the campaign directory and its first manifest; a crash in between leaves only the directory. */
    method Start(plan: Plan) returns (s: Signal)
      requires world.Safe() && PlanOk(plan) && !world.directory && world.published.None?
      modifies world`next, world`directory, world`staging
      ensures s == Killed ==> world.Fatal()
      ensures world.Safe()
      ensures world.staging == None || world.staging == Some(Started(plan))
      ensures s == Done ==> world.staging == Some(Started(plan))
      ensures s == Done || s == Failed || s == Killed
      ensures old(world.next) <= world.next && (Smooth(world.script, old(world.next), world.next) ==> s == Done)
      ensures var made, saved := world.At(old(world.next)).write, world.At(old(world.next) + 1).write;
        && world.directory == made.Lands()
        && world.staging.Some? == (made.Written? && saved.Lands())
    {
      hide StagingOk, PublishedOk, EndedRightly, Started;
      var e := world.Draw();
      if e.write.Lands() { world.directory := true; }
      s := SignalOf(e.write);
      if s != Done { return; }
      e := world.Draw();
      if e.write.Lands() {
        StartedOk(plan, world.files, world.metadata, world.Wires());
        world.staging := Some(Started(plan));
      }
      s := SignalOf(e.write);
    }

    /** A matching named invocation keeps its original grant; anything else asks for a new one. */
    method GrantOrResume(ledger: CampaignLedger, mode: Mode, grant: Usage) returns (s: Signal)
      requires ledger.world == world && ledger.Live() && world.staging == Some(ledger.manifest)
      requires ledger.manifest.parameters.named == mode.Named? && (mode.Named? ==> SafeIdentifier(mode.key))
      requires CheckNamedGrant(ledger.manifest, mode, grant) != Rejected
      modifies ledger`manifest
      ensures ledger.Live() && Extends(old(ledger.manifest), ledger.manifest)
      ensures CheckNamedGrant(old(ledger.manifest), mode, grant) == SameGrant ==>
          s == Done && ledger.manifest == old(ledger.manifest)
      ensures s != Done ==> ledger.manifest == old(ledger.manifest)
      ensures s == Done ==> ledger.manifest.invocations != []
      ensures |ledger.manifest.invocations| <= |old(ledger.manifest).invocations| + 1
      ensures s != Killed
      ensures Affordable(old(ledger.manifest), mode, grant) && grant.rows > 0 && grant.attempts > 0 ==>
                s == Done || s.OverBudget?
      ensures s.OverBudget? ==> StopExplained(ledger.manifest, s.reason, s.terminal)
    {
      hide MemoryOk, StagingOk, PublishedOk, EndedRightly, Extends, LedgerOnly, Remaining, Consumed, Books;
      ghost var before := ledger.manifest;
      ReflexiveExtension(before);
      if CheckNamedGrant(ledger.manifest, mode, grant) == SameGrant { return Done; }
      s := ledger.Grant(grant);
      if s != Done {
        if s.OverBudget? { assert !GrantFits(before, Usage(1, 1)); }
        return;
      }
      var key := if mode.Named? then Some(mode.key) else None;
      var n := |ledger.manifest.invocations| - 1;
      ledger.manifest := ledger.manifest.(invocations :=
        ledger.manifest.invocations[n := ledger.manifest.invocations[n].(key := key)]);
      assert ledger.manifest == Granted(before, grant, key);
      if mode.Named? { KeyAbsent(before.invocations, mode.key); }
      GrantedKeeps(before, grant, key, world.files, world.metadata, world.Wires());
      ExtendsTransitive(world.staging.value, before, ledger.manifest);
    }

    /** Records the ending, then replays the manifest and its files; only what both accept may be published. */
    method Seal(ledger: CampaignLedger, state: State) returns (sealed: bool)
      requires ledger.world == world && ledger.Live()
      requires Savable(ledger.manifest, state) && (state == Acquired || state == Truncated)
      requires state == Truncated ==> EndedByCeiling(ledger.manifest)
      requires state == Acquired ==> ledger.manifest.reason == Some(PlanExhausted)
      modifies ledger`manifest
      ensures ledger.Sound() && Extends(old(ledger.manifest), ledger.manifest)
      ensures |ledger.manifest.invocations| == |old(ledger.manifest).invocations|
      ensures ledger.manifest.acquisition.state == state
      ensures sealed ==>
        && PublishedOk(ledger.manifest, world.files, world.metadata, world.Wires())
        && EndedRightly(Some(ledger.manifest)) && ledger.manifest.status == Prepared
      ensures BaselineUsable(old(ledger.manifest).parameters) ==> sealed
    {
      hide MemoryOk, StagingOk, PublishedOk, EndedRightly, Refreshed, Extends, Accepts, RecordInvocation, UpdateAcquisition,
          StopExplained, SameBudget, BaselineUsable;
      ghost var before := ledger.manifest;
      RefreshedKeeps(before, state, world.files, world.metadata, world.Wires());
      RefreshedFields(before, state);
      FinishedFields(before, state, world.files, world.metadata, world.Wires());
      RefreshedBudget(before, state);
      if state == Truncated { SameStop(before, Refreshed(before, state), before.reason.value, true); }
      ledger.manifest := ledger.manifest.(checkpoint := None);
      ledger.manifest := UpdateAcquisition(RecordInvocation(ledger.manifest, state), state);
      ExtendsTransitive(world.staging.value, before, ledger.manifest);
      if BaselineUsable(before.parameters) {
        UsableAccepted(ledger.manifest, world.files, world.metadata, world.Wires());
      }
      var accepted := VerifyPopulationRun(ledger.manifest, world.files, world.metadata);
      if !accepted { return false; }
      FinishedStatus(ledger.manifest, world.files, world.metadata, world.Wires());
      ghost var verified := ledger.manifest;
      ledger.manifest := ledger.manifest.(status := Prepared);
      ExtendsTransitive(world.staging.value, verified, ledger.manifest);
      ExtendsTransitive(before, verified, ledger.manifest);
      FilesStored(ledger.manifest, world.files, world.metadata, world.Wires());
      sealed := VerifyPages(ledger.manifest, world.files);
    }

    /** Writes the prepared manifest into staging, then renames the whole directory: before the rename nothing has moved. */
    method Publish(ledger: CampaignLedger) returns (s: Signal)
      requires ledger.world == world && ledger.Sound()
      requires PublishedOk(ledger.manifest, world.files, world.metadata, world.Wires())
      requires EndedRightly(Some(ledger.manifest))
      modifies world`next, world`directory, world`staging, world`published
      ensures s == Killed ==> world.Fatal()
      ensures world.Safe() && (s == Done || s == Failed || s == Killed)
      ensures world.staging.Some? ==> world.staging == old(world.staging) && ledger.Sound() && s != Done
      ensures world.staging.None? ==> world.published == Some(ledger.manifest)
      ensures old(world.next) <= world.next && (Smooth(world.script, old(world.next), world.next) ==> s == Done)
    {
      hide MemoryOk, StagingOk, PublishedOk, EndedRightly, Extends;
      var e := world.Draw();
      s := SignalOf(e.write);
      if s != Done { return; }
      e := world.Draw();
      s := SignalOf(e.write);
      if e.write.Lands() {
        world.directory, world.staging, world.published := false, None, Some(ledger.manifest);
      }
    }

    /** Verifies, publishes, commits and marks the run; only the rename moves the campaign. */
    method Finish(ledger: CampaignLedger, state: State) returns (s: Signal)
      requires ledger.world == world && ledger.Live()
      requires Savable(ledger.manifest, state) && (state == Acquired || state == Truncated)
      requires state == Truncated ==> EndedByCeiling(ledger.manifest)
      requires state == Acquired ==> ledger.manifest.reason == Some(PlanExhausted)
      modifies ledger`manifest, world`next, world`directory, world`staging, world`published
      ensures s == Killed ==> world.Fatal()
      ensures world.Safe() && Extends(old(ledger.manifest), ledger.manifest)
      ensures |ledger.manifest.invocations| == |old(ledger.manifest).invocations|
      ensures s == Done || s == Failed || s == Killed
      ensures world.staging.Some? ==> world.staging == old(world.staging) && ledger.Sound() && s != Done
      ensures world.staging.None? ==> world.published.Some? && Extends(ledger.manifest, world.published.value)
      ensures world.staging.None? ==> |world.published.value.invocations| == |ledger.manifest.invocations|
      ensures world.staging.None? ==> Extends(old(ledger.manifest), world.published.value)
      ensures world.staging.None? ==> world.published.value.acquisition.state == state
      ensures s == Done ==> world.published == Some(ledger.manifest) && ledger.manifest.acquisition.state == state
      ensures s == Done ==> ledger.manifest.status == Committed
      ensures old(world.next) <= world.next
      ensures Smooth(world.script, old(world.next), world.next) && BaselineUsable(old(ledger.manifest).parameters) ==>
                s == Done
    {
      hide MemoryOk, StagingOk, PublishedOk, EndedRightly, Refreshed, Extends, Accepts, Smooth, BaselineUsable, Savable;
      ghost var before := ledger.manifest;
      var sealed := Seal(ledger, state);
      if !sealed { return Failed; }
      s := Publish(ledger);
      ReflexiveExtension(ledger.manifest);
      if s != Done { return; }
      ghost var point := world.next;
      ghost var moved := ledger.manifest;
      s := Commit(ledger);
      SmoothParts(world.script, old(world.next), point, world.next);
      ExtendsTransitive(before, moved, ledger.manifest);
      ExtendsTransitive(before, ledger.manifest, world.published.value);
    }

    /** The index commit and the committed mark of a published run; both may be repeated. */
    method Commit(ledger: CampaignLedger) returns (s: Signal)
      requires ledger.world == world && world.Safe() && world.staging.None? && world.published == Some(ledger.manifest)
      modifies ledger`manifest, world`next, world`published
      ensures s == Killed ==> world.Fatal()
      ensures world.Safe() && ledger.manifest == old(ledger.manifest).(status := ledger.manifest.status)
      ensures Extends(old(ledger.manifest), ledger.manifest)
      ensures world.published.Some? && Extends(ledger.manifest, world.published.value)
      ensures world.published.value == old(ledger.manifest).(status := world.published.value.status)
      ensures s == Done || s == Failed || s == Killed
      ensures old(world.next) <= world.next && (Smooth(world.script, old(world.next), world.next) ==> s == Done)
      ensures s == Done ==> ledger.manifest.status == Committed && world.published == Some(ledger.manifest)
    {
      hide StagingOk, PublishedOk, EndedRightly, Extends;
      ReflexiveExtension(ledger.manifest);
      var e := world.Draw();
      s := SignalOf(e.write);
      if s != Done { return; }
      CommittedStatus(ledger.manifest, world.files, world.metadata, world.Wires());
      ledger.manifest := ledger.manifest.(status := Committed);
      ReflexiveExtension(ledger.manifest);
      e := world.Draw();
      if e.write.Lands() { world.published := Some(ledger.manifest); }
      s := SignalOf(e.write);
    }

    /** Metadata, scan and membership, in that order. */
    method RunLanes(ledger: CampaignLedger) returns (s: Signal)
      requires ledger.world == world && ledger.Live() && ledger.manifest.invocations != []
      modifies ledger, world`next, world`staging, world`sent, world`delivered, world`files, world`metadata
      ensures s == Killed ==> world.Fatal()
      ensures ledger.Live() && Extends(old(ledger.manifest), ledger.manifest)
      ensures Extends(old(world.staging).value, world.staging.value)
      ensures |ledger.manifest.invocations| == |old(ledger.manifest).invocations|
      ensures s == Done ==> LanesComplete(ledger.manifest)
      ensures s.OverBudget? ==> StopExplained(ledger.manifest, s.reason, s.terminal)
      ensures old(world.next) <= world.next
      ensures Smooth(world.script, old(world.next), world.next) && Steady(world.truth) && !s.OverBudget? ==> s == Done
    {
      hide MemoryOk, StagingOk, PublishedOk, EndedRightly, Extends, StopExplained, Smooth, Steady;
      s := FetchMetadata(ledger);
      if s != Done { return; }
      ghost var memory, saved, point := ledger.manifest, world.staging.value, world.next;
      s := Scan(ledger);
      SmoothParts(world.script, old(world.next), point, world.next);
      ExtendsTransitive(old(ledger.manifest), memory, ledger.manifest);
      ExtendsTransitive(old(world.staging).value, saved, world.staging.value);
      if s != Done { return; }
      memory, saved, point := ledger.manifest, world.staging.value, world.next;
      s := Members(ledger);
      SmoothParts(world.script, old(world.next), point, world.next);
      ExtendsTransitive(old(ledger.manifest), memory, ledger.manifest);
      ExtendsTransitive(old(world.staging).value, saved, world.staging.value);
    }

    /** Opens the call: a grant or a resumed one, saved before any request. */
    method Open(ledger: CampaignLedger, mode: Mode, grant: Usage) returns (s: Signal)
      requires ledger.world == world && ledger.Live() && world.staging == Some(ledger.manifest)
      requires ledger.manifest.parameters.named == mode.Named? && (mode.Named? ==> SafeIdentifier(mode.key))
      requires CheckNamedGrant(ledger.manifest, mode, grant) != Rejected
      modifies ledger`manifest, world`next, world`staging
      ensures s == Killed ==> world.Fatal()
      ensures ledger.Live() && Extends(old(ledger.manifest), ledger.manifest)
      ensures Extends(old(world.staging).value, world.staging.value)
      ensures |ledger.manifest.invocations| <= |old(ledger.manifest).invocations| + 1
      ensures CheckNamedGrant(old(ledger.manifest), mode, grant) == SameGrant ==>
                |ledger.manifest.invocations| == |old(ledger.manifest).invocations|
      ensures s == Done ==> ledger.manifest.invocations != []
      ensures s.OverBudget? ==> StopExplained(ledger.manifest, s.reason, s.terminal)
      ensures old(world.next) <= world.next
      ensures (&& Smooth(world.script, old(world.next), world.next)
               && Affordable(old(ledger.manifest), mode, grant) && grant.rows > 0 && grant.attempts > 0) ==>
                s == Done || s.OverBudget?
    {
      hide MemoryOk, StagingOk, PublishedOk, EndedRightly, Refreshed, Extends, CheckNamedGrant, StopExplained,
          Affordable, Smooth;
      ReflexiveExtension(ledger.manifest);
      s := GrantOrResume(ledger, mode, grant);
      if s != Done { return; }
      ghost var granted := ledger.manifest;
      OutcomeFields(granted, ExtractingRun, false, None, world.files, world.metadata, world.Wires());
      ledger.manifest := ledger.manifest.(status := ExtractingRun, truncated := false, reason := None);
      ghost var begun := ledger.manifest;
      ExtendsTransitive(world.staging.value, granted, begun);
      RefreshedFields(begun, Extracting);
      SmoothOne(world.script, world.next);
      s := ledger.Persist(Extracting);
      ExtendsTransitive(old(ledger.manifest), granted, begun);
      ExtendsTransitive(old(ledger.manifest), begun, ledger.manifest);
    }

    /** One call's work under the ledger: the grant, then metadata, scan, members and the ending. */
    method Acquire(ledger: CampaignLedger, mode: Mode, grant: Usage) returns (s: Signal)
      requires ledger.world == world && ledger.Live() && world.staging == Some(ledger.manifest)
      requires ledger.manifest.parameters.named == mode.Named? && (mode.Named? ==> SafeIdentifier(mode.key))
      requires CheckNamedGrant(ledger.manifest, mode, grant) != Rejected
      modifies ledger, world
      ensures s == Killed ==> world.Fatal()
      ensures world.Safe() && world.Record().Some?
      ensures Extends(old(ledger.manifest), world.Record().value)
      ensures |world.Record().value.invocations| <= |ledger.manifest.invocations| <= |old(ledger.manifest).invocations| + 1
      ensures CheckNamedGrant(old(ledger.manifest), mode, grant) == SameGrant ==>
                |ledger.manifest.invocations| == |old(ledger.manifest).invocations|
      ensures s.OverBudget? ==> ledger.Live() && StopExplained(ledger.manifest, s.reason, s.terminal)
      ensures world.staging.None? ==> world.published.value.acquisition.state == Acquired
      ensures s == Failed && world.staging.Some? ==> ledger.Sound()
      ensures s == Done ==>
        && world.staging.None? && world.published == Some(ledger.manifest)
        && ledger.manifest.status == Committed && ledger.manifest.acquisition.state == Acquired
      ensures ledger.manifest.parameters == old(ledger.manifest).parameters && old(world.next) <= world.next
      ensures (&& Smooth(world.script, old(world.next), world.next) && Steady(world.truth)
               && Affordable(old(ledger.manifest), mode, grant) && grant.rows > 0 && grant.attempts > 0
               && BaselineUsable(old(ledger.manifest).parameters)) ==>
                s == Done || s.OverBudget?
    {
      hide MemoryOk, StagingOk, PublishedOk, EndedRightly, Extends, CheckNamedGrant, Accepts, StopExplained,
          Affordable, Smooth, Steady, BaselineUsable;
      ghost var start := ledger.manifest;
      s := Open(ledger, mode, grant);
      ExtendsInvocations(world.staging.value, ledger.manifest);
      SameParameters(start, ledger.manifest);
      if s != Done { return; }
      ghost var saved, begun, point := world.staging.value, ledger.manifest, world.next;
      s := RunLanes(ledger);
      SameParameters(begun, ledger.manifest);
      SmoothParts(world.script, old(world.next), point, world.next);
      ExtendsTransitive(start, saved, world.staging.value);
      ExtendsInvocations(world.staging.value, ledger.manifest);
      if s != Done { return; }
      ghost var complete := ledger.manifest;
      ExtendsTransitive(start, world.staging.value, complete);
      OutcomeFields(complete, complete.status, complete.truncated, Some(PlanExhausted), world.files, world.metadata,
          world.Wires());
      ledger.manifest := ledger.manifest.(complete := true, rangeComplete := true, reason := Some(PlanExhausted));
      ghost var finishing := ledger.manifest;
      assert finishing == complete.(reason := Some(PlanExhausted));
      ExtendsTransitive(world.staging.value, complete, finishing);
      ExtendsTransitive(start, complete, finishing);
      point := world.next;
      s := Finish(ledger, Acquired);
      SameParameters(finishing, ledger.manifest);
      SmoothParts(world.script, old(world.next), point, world.next);
      if world.staging.None? {
        ExtendsTransitive(start, finishing, world.published.value);
      } else {
        ExtendsInvocations(world.staging.value, ledger.manifest);
      }
    }

    /** A budget stop: a ceiling ends the campaign, a grant pauses it. */
    method StopOnBudget(ledger: CampaignLedger, reason: Reason, terminal: bool) returns (outcome: Outcome)
      requires ledger.world == world && ledger.Live() && StopExplained(ledger.manifest, reason, terminal)
      modifies ledger`manifest, world`next, world`staging, world`published, world`directory
      ensures outcome == Died ==> world.Fatal()
      ensures world.Safe() && world.Record().Some? && Extends(old(world.Record()).value, world.Record().value)
      ensures |world.Record().value.invocations| <= |old(ledger.manifest).invocations|
      ensures outcome.Finished? ==>
                terminal && world.staging.None? && world.published == Some(outcome.m) && outcome.m.status == Committed
      ensures outcome.Paused? ==>
                !terminal && world.staging == Some(outcome.m) && AwaitsGrant(outcome.m)
      ensures world.published.Some? ==> terminal && world.published.value.acquisition.state == Truncated
      ensures outcome.Finished? || outcome.Paused? || outcome == Died || outcome == Raised
      ensures old(world.next) <= world.next
      ensures Smooth(world.script, old(world.next), world.next) && BaselineUsable(old(ledger.manifest).parameters) ==>
                outcome.Finished? || outcome.Paused?
    {
      hide MemoryOk, StagingOk, PublishedOk, EndedRightly, Refreshed, Extends, Accepts, StopExplained, SameBudget, Consumed,
          Smooth, BaselineUsable;
      ghost var before := ledger.manifest;
      ReflexiveExtension(world.staging.value);
      var status := if terminal then ledger.manifest.status else PausedRun;
      OutcomeFields(before, status, true, Some(reason), world.files, world.metadata, world.Wires());
      ledger.manifest := ledger.manifest.(status := status, truncated := true, reason := Some(reason));
      ghost var marked := ledger.manifest;
      ExtendsTransitive(world.staging.value, before, marked);
      OutcomeBudget(before, status, true, Some(reason));
      SameStop(before, marked, reason, terminal);
      if terminal {
        var ended := Finish(ledger, Truncated);
        if world.staging.None? { ExtendsTransitive(old(world.staging).value, marked, world.published.value); }
        return if ended == Done then Finished(ledger.manifest) else if ended == Killed then Died else Raised;
      }
      RefreshedFields(marked, PausedBudget);
      RefreshedState(marked, PausedBudget);
      RefreshedBudget(marked, PausedBudget);
      SameStop(marked, Refreshed(marked, PausedBudget), reason, false);
      SmoothOne(world.script, world.next);
      var saved := ledger.Persist(PausedBudget);
      ExtendsInvocations(world.staging.value, ledger.manifest);
      return if saved == Done then Paused(ledger.manifest) else if saved == Killed then Died else Raised;
    }

    /** How the call ends for its caller once the work under the ledger has ended with `s`. */
    method Conclude(ledger: CampaignLedger, s: Signal) returns (outcome: Outcome)
      requires ledger.world == world && world.Safe() && world.Record().Some?
      requires |world.Record().value.invocations| <= |ledger.manifest.invocations|
      requires s.OverBudget? ==> ledger.Live() && StopExplained(ledger.manifest, s.reason, s.terminal)
      requires s == Failed && world.staging.Some? ==> ledger.Sound()
      requires s == Done ==>
        && world.staging.None? && world.published == Some(ledger.manifest)
        && ledger.manifest.status == Committed && ledger.manifest.acquisition.state == Acquired
      requires s == Killed ==> world.Fatal()
      modifies ledger`manifest, world`next, world`staging, world`published, world`directory
      ensures outcome == Died ==> world.Fatal()
      ensures world.Safe() && world.Record().Some? && Extends(old(world.Record()).value, world.Record().value)
      ensures |world.Record().value.invocations| <= |old(ledger.manifest).invocations|
      ensures !outcome.Refused? && old(world.next) <= world.next
      ensures s == Failed && old(world.staging).Some? ==>
        && world.next == old(world.next) + 1
        && (world.At(old(world.next)).write.Lands() ==>
              && world.staging.Some? && world.staging.value.status == FailedRun
              && world.staging.value.acquisition.state == FailedRecoverable
              && world.staging.value.reason == Some(RequestOrEvidenceFailure))
      ensures s == Failed && old(world.staging).None? ==> outcome == Raised && world.next == old(world.next)
      ensures (&& Smooth(world.script, old(world.next), world.next) && BaselineUsable(old(ledger.manifest).parameters)
               && (s == Done || s.OverBudget?)) ==>
                outcome.Finished? || outcome.Paused?
      ensures outcome.Finished? ==> world.staging.None? && world.published == Some(outcome.m) && outcome.m.status == Committed
      ensures outcome.Paused? ==> world.staging == Some(outcome.m) && AwaitsGrant(outcome.m)
    {
      hide MemoryOk, StagingOk, PublishedOk, EndedRightly, Refreshed, Extends, Accepts, StopExplained, SameBudget, Consumed,
          Smooth, BaselineUsable;
      ghost var before := ledger.manifest;
      ReflexiveExtension(world.Record().value);
      match s {
        case Done => return Finished(ledger.manifest);
        case Killed => return Died;
        case OverBudget(reason, terminal) =>
          outcome := StopOnBudget(ledger, reason, terminal);
        case Failed =>
          if world.staging.None? { return Raised; }
          OutcomeFields(before, FailedRun, before.truncated, Some(RequestOrEvidenceFailure), world.files,
              world.metadata, world.Wires());
          ledger.manifest := ledger.manifest.(status := FailedRun, reason := Some(RequestOrEvidenceFailure));
          ghost var marked := ledger.manifest;
          ExtendsTransitive(world.staging.value, before, marked);
          RefreshedFields(marked, FailedRecoverable);
          RefreshedState(marked, FailedRecoverable);
          RefreshedBudget(marked, FailedRecoverable);
          var saved := ledger.Persist(FailedRecoverable);
          ExtendsInvocations(world.staging.value, ledger.manifest);
          return if saved == Killed then Died else Raised;
      }
    }

    method ValidateResume(m: Manifest, plan: Plan, grant: Usage, mode: Mode) returns (why: Option<Refusal>)
      ensures why ==
        if m.parameters != plan then Some(PlanChanged)
        else if !Accepts(m, world.files, world.metadata) then Some(Evidence)
        else if CheckNamedGrant(m, mode, grant) == Rejected then Some(NamedGrant)
        else None
    {
      if m.parameters != plan { return Some(PlanChanged); }
      var accepted := VerifyPopulationRun(m, world.files, world.metadata);
      if !accepted { return Some(Evidence); }
      if CheckNamedGrant(m, mode, grant) == Rejected { return Some(NamedGrant); }
      why := None;
    }

    /** Resumes the staged campaign: verify it, finish it when its lanes are done, or acquire more. */
    method Continue(plan: Plan, grant: Usage, mode: Mode) returns (outcome: Outcome)
      requires world.Safe() && world.staging.Some? && ArgumentsOk(plan, grant, mode) && plan.named == mode.Named?
      modifies world
      ensures outcome == Died ==> world.Fatal()
      ensures world.Safe() && world.Record().Some?
      ensures var d := old(world.staging).value;
        && Extends(d, world.Record().value) && |world.Record().value.invocations| <= |d.invocations| + 1
        && (CheckNamedGrant(d, mode, grant) == SameGrant ==> |world.Record().value.invocations| == |d.invocations|)
        && outcome.Refused? == (d.parameters != plan || !AskedUsable(d) || CheckNamedGrant(d, mode, grant) == Rejected)
        && (outcome.Refused? ==>
              outcome.why == (if d.parameters != plan then PlanChanged else if !AskedUsable(d) then Evidence else NamedGrant))
      ensures outcome.Refused? ==> world.staging == old(world.staging) && world.sent == old(world.sent)
      ensures outcome.Finished? ==> world.published == Some(outcome.m)
      ensures outcome.Paused? ==> world.staging == Some(outcome.m) && AwaitsGrant(outcome.m)
      ensures old(world.next) <= world.next
      ensures (&& Smooth(world.script, old(world.next), world.next) && Steady(world.truth) && BaselineUsable(plan)
               && (old(world.staging).value.rangeComplete || Affordable(old(world.staging).value, mode, grant))) ==>
                outcome.Finished? || outcome.Paused? || outcome.Refused?
    {
      hide MemoryOk, StagingOk, PublishedOk, EndedRightly, Refreshed, Extends, Accepts, AskedUsable, CheckNamedGrant, StopExplained,
          Affordable, Smooth, Steady, BaselineUsable;
      var m := world.staging.value;
      ReflexiveExtension(m);
      SavedAgreement(m, world.files, world.metadata, world.Wires());
      var why := ValidateResume(m, plan, grant, mode);
      if why.Some? { return Refused(why.value); }
      var ledger := new CampaignLedger(world, m);
      if m.rangeComplete {
        OutcomeFields(m, m.status, false, Some(PlanExhausted), world.files, world.metadata, world.Wires());
        ledger.manifest := m.(reason := Some(PlanExhausted), truncated := false);
        ghost var ending := ledger.manifest;
        var ended := Finish(ledger, Acquired);
        if world.staging.None? { ExtendsTransitive(m, ending, world.published.value); }
        return if ended == Done then Finished(ledger.manifest) else if ended == Killed then Died else Raised;
      }
      var s := Acquire(ledger, mode, grant);
      ghost var saved := world.Record().value;
      ghost var memory := ledger.manifest;
      ghost var point := world.next;
      outcome := Conclude(ledger, s);
      SmoothParts(world.script, old(world.next), point, world.next);
      ExtendsTransitive(m, saved, world.Record().value);
      ExtendsInvocations(m, world.Record().value);
    }

    /** Completes the commit of a prepared run left by an earlier process. */
    method ReconcilePrepared() returns (s: Signal)
      requires world.Safe()
      modifies world`next, world`published
      ensures s == Killed ==> world.Fatal()
      ensures world.Safe()
      ensures world.Record().Some? == old(world.Record()).Some?
      ensures world.Record().Some? ==> Extends(old(world.Record()).value, world.Record().value)
      ensures world.Record().Some? ==> |world.Record().value.invocations| == |old(world.Record()).value.invocations|
      ensures s == Done || s == Failed || s == Killed
      ensures old(world.next) <= world.next && (Smooth(world.script, old(world.next), world.next) ==> s == Done)
      ensures s == Done && world.published.Some? ==> world.published.value.status == Committed
      ensures old(world.published).None? || old(world.published).value.status == Committed ==>
          s == Done && world.published == old(world.published) && world.next == old(world.next)
      ensures old(world.published).Some? ==>
        && world.published.Some?
        && world.published.value == old(world.published).value.(status := world.published.value.status)
    {
      hide StagingOk, PublishedOk, EndedRightly, Extends, Accepts;
      if world.Record().Some? { ReflexiveExtension(world.Record().value); }
      if world.published.None? { return Done; }
      var m := world.published.value;
      PublishedAccepted(m, world.files, world.metadata, world.Wires());
      if m.status != Prepared { return Done; }
      var accepted := VerifyPopulationRun(m, world.files, world.metadata);
      if !accepted { return Failed; }
      var ledger := new CampaignLedger(world, m);
      s := Commit(ledger);
      ExtendsTransitive(m, ledger.manifest, world.published.value);
    }

    /**
     * One call of the campaign command. Whatever the script does, the durable record stays safe and
     * only grows; a call that may resume it is refused for its evidence exactly when a baseline
     * identity already asked for is not usable text; a named key never opens a second invocation.
     * A published campaign is never refused for its evidence, and a committed one answers as it is.
     * The record is unreadable exactly when the campaign is stranded; it then stays so, and a first
     * call strands it exactly when its directory was made and its first manifest was not. A paused
     * campaign waits for another grant and, as in every safe state, a truncated one was ended by a
     * ceiling, by their own figures.
     *
     * The call gets through: if every write of it landed, every request was answered from an unchanging
     * source of conforming rows, the baseline is usable and the grant is one that can be given, it ends
     * finished, paused or refused. It dies only of an event that kills it.
     */
    method Reconcile(plan: Plan, grant: Usage, mode: Mode) returns (outcome: Outcome)
      requires world.Safe()
      requires plan.named == mode.Named?
      requires plan.baseline.Some? ==> multiset(plan.baseline.value.ids) == plan.baseline.value.digest
      modifies world
      ensures outcome == Died ==> world.Fatal()
      ensures world.Safe()
      ensures old(world.Record()).Some? ==>
        && world.Record().Some? && Extends(old(world.Record()).value, world.Record().value)
        && |world.Record().value.invocations| <= |old(world.Record()).value.invocations| + 1
        && (CheckNamedGrant(old(world.Record()).value, mode, grant) == SameGrant ==>
              |world.Record().value.invocations| == |old(world.Record()).value.invocations|)
      ensures ArgumentsOk(plan, grant, mode) && mode != Fresh && old(world.staging).Some? && old(world.staging).value.parameters == plan ==>
        && (outcome == Refused(Evidence) <==> !AskedUsable(old(world.staging).value))
        && (outcome == Refused(NamedGrant) <==>
              AskedUsable(old(world.staging).value) && CheckNamedGrant(old(world.staging).value, mode, grant) == Rejected)
        && (outcome.Refused? ==> outcome.why == Evidence || outcome.why == NamedGrant)
      ensures ArgumentsOk(plan, grant, mode) && mode != Fresh && old(world.published).Some? && old(world.published).value.parameters == plan ==>
        && (outcome.Refused? ==>
              outcome.why == NamedGrant && CheckNamedGrant(old(world.published).value, mode, grant) == Rejected)
        && (outcome.Finished? ==> CheckNamedGrant(old(world.published).value, mode, grant) != Rejected)
        && (old(world.published).value.status == Committed ==>
              outcome.Refused? || outcome == Finished(old(world.published).value))
      ensures outcome == Refused(Unreadable) <==> ArgumentsOk(plan, grant, mode) && mode != Fresh && old(world.Stranded())
      ensures old(world.Stranded()) ==> outcome.Refused? && world.Stranded()
      ensures ArgumentsOk(plan, grant, mode) && mode != Resume && old(world.Empty()) ==>
          var made, saved := world.At(old(world.next)).write, world.At(old(world.next) + 1).write;
          world.Stranded() <==> made.Lands() && !(made.Written? && saved.Lands())
      ensures outcome.Refused? ==> world.staging == old(world.staging) && world.sent == old(world.sent)
      ensures outcome.Finished? ==> world.published == Some(outcome.m)
      ensures outcome.Paused? ==> world.staging == Some(outcome.m) && AwaitsGrant(outcome.m)
      ensures EndedRightly(world.published)
      ensures old(world.next) <= world.next
      ensures (&& Smooth(world.script, old(world.next), world.next) && Steady(world.truth) && BaselineUsable(plan)
               && (old(world.staging).Some? ==>
                     old(world.staging).value.rangeComplete || Affordable(old(world.staging).value, mode, grant))
               && (old(world.Empty()) ==> grant.rows <= plan.ceilings.rows && grant.attempts <= plan.ceilings.attempts)) ==>
                outcome.Finished? || outcome.Paused? || outcome.Refused?
    {
      hide MemoryOk, StagingOk, PublishedOk, EndedRightly, Refreshed, Extends, Accepts, AskedUsable, CheckNamedGrant, Started, AwaitsGrant,
          Affordable, Smooth, Steady, BaselineUsable;
      if world.Record().Some? { ReflexiveExtension(world.Record().value); }
      if !ArgumentsOk(plan, grant, mode) { return Refused(InvalidArguments); }
      var s := ReconcilePrepared();
      if s != Done { return if s == Killed then Died else Raised; }
      if mode != Fresh && world.published.Some? {
        var m := world.published.value;
        PublishedAccepted(m, world.files, world.metadata, world.Wires());
        SameInvocations(old(world.published).value, m, mode, grant);
        var why := ValidateResume(m, plan, grant, mode);
        return if why.None? then Finished(m) else Refused(why.value);
      }
      if mode != Fresh && world.directory {
        if world.staging.None? { return Refused(Unreadable); }
      } else if mode == Resume {
        return Refused(NotFound);
      } else if world.directory || world.published.Some? {
        return Refused(AlreadyExists);
      } else {
        s := Start(plan);
        if s != Done { return if s == Killed then Died else Raised; }
        StartedFresh(plan, grant, mode);
      }
      ghost var point := world.next;
      outcome := Continue(plan, grant, mode);
      SmoothParts(world.script, old(world.next), point, world.next);
    }
  }

  /** One command line of the campaign, with a baseline as its loader returns it. */
  datatype Call = Call(plan: Plan, grant: Usage, mode: Mode)
  {
    predicate Loaded() {
      && plan.named == mode.Named?
      && (plan.baseline.Some? ==> multiset(plan.baseline.value.ids) == plan.baseline.value.digest)
    }
  }

  /**
   * A process killed between the campaign directory and its first manifest leaves a name that no
   * sequence of later calls can use, whatever the disk and the source do for them; only clearing the
   * staging area, which is not a campaign call, would free it.
   */
  method StrandForGood(first: Call, later: seq<Call>, script: seq<Event>) returns (world: World, outcomes: seq<Outcome>)
    requires first.Loaded() && ArgumentsOk(first.plan, first.grant, first.mode) && first.mode != Resume
    requires forall i :: 0 <= i < |later| ==> later[i].Loaded()
    requires script != [] && script[0].write == KilledAfter
    ensures world.Safe() && world.Stranded()
    ensures |outcomes| == |later| && forall i :: 0 <= i < |outcomes| ==> outcomes[i].Refused?
  {
    world := new World(script, None);
    var transport := new SocrataTransport(0);
    var campaign := new PopulationReconciliation(world, transport);
    var begun := campaign.Reconcile(first.plan, first.grant, first.mode);
    outcomes := [];
    for i := 0 to |later|
      invariant world.Safe() && world.Stranded()
      invariant |outcomes| == i && forall j :: 0 <= j < i ==> outcomes[j].Refused?
    {
      var outcome := campaign.Reconcile(later[i].plan, later[i].grant, later[i].mode);
      outcomes := outcomes + [outcome];
    }
  }

  predicate ArgumentsOk(plan: Plan, grant: Usage, mode: Mode) {
    && plan.scope.from < plan.scope.to && plan.ceilings.rows > 0 && plan.ceilings.attempts > 0
    && grant.rows > 0 && grant.attempts > 0
    && (mode.Named? ==> SafeIdentifier(mode.key))
  }

  lemma PublishedAccepted(m: Manifest, files: map<Path, seq<Row>>, metadata: Option<Metadata>, world: Physical)
    requires PublishedOk(m, files, metadata, world)
    ensures Accepts(m, files, metadata) && (m.status == Prepared || m.status == Committed)
  {
  }

  lemma SameInvocations(a: Manifest, b: Manifest, mode: Mode, grant: Usage)
    requires a.invocations == b.invocations
    ensures CheckNamedGrant(a, mode, grant) == CheckNamedGrant(b, mode, grant)
  {
  }

  /** A campaign that has just begun has nothing to refuse. */
  lemma StartedFresh(plan: Plan, grant: Usage, mode: Mode)
    ensures Started(plan).parameters == plan && AskedUsable(Started(plan))
    ensures CheckNamedGrant(Started(plan), mode, grant) == NewGrant
    ensures 0 < grant.rows <= plan.ceilings.rows && 0 < grant.attempts <= plan.ceilings.attempts ==>
              Affordable(Started(plan), mode, grant)
  {
  }

  lemma MetadataRefused(m: Manifest)
    requires m.invocations != [] && !m.metadataVerified
    ensures match Requirement(m, 0)
            case Allowed => true
            case Exceeded(reason, terminal) => StopExplained(m, reason, terminal)
  {
    RefusalExplained(m, 0);
  }

  /** A page refused after a first attempt of it is one being retried. */
  lemma RetryExplained(m: Manifest, query: Query)
    requires m.invocations != [] && m.metadataVerified && !m.scan.complete
    requires Awaiting(m, ScanLane, Some(query), query.limit)
    ensures match Requirement(m, query.limit)
            case Allowed => true
            case Exceeded(reason, terminal) => StopExplained(m, reason, terminal)
  {
    RefusalExplained(m, query.limit);
  }

  lemma OutcomeBudget(m: Manifest, status: Status, truncated: bool, reason: Option<Reason>)
    ensures SameBudget(m, m.(status := status, truncated := truncated, reason := reason))
  {
  }

  lemma RefreshedState(m: Manifest, state: State)
    ensures Refreshed(m, state).acquisition.state == state
  {
  }

  /** What was saved is what memory may start from, and it is accepted exactly when its identities are usable. */
  lemma SavedAgreement(m: Manifest, files: map<Path, seq<Row>>, metadata: Option<Metadata>, world: Physical)
    requires StagingOk(m, files, metadata, world)
    ensures MemoryOk(m, files, metadata, world)
    ensures m.complete == m.rangeComplete == LanesComplete(m)
    ensures Accepts(m, files, metadata) <==> AskedUsable(m)
  {
    AgreementExact(m, files, metadata);
  }

  /** With a usable baseline, whatever memory would save is accepted. */
  lemma UsableAccepted(m: Manifest, files: map<Path, seq<Row>>, metadata: Option<Metadata>, world: Physical)
    requires StagingOk(m, files, metadata, world) && BaselineUsable(m.parameters)
    ensures Accepts(m, files, metadata)
  {
    hide Accepts, Usable;
    SavedAgreement(m, files, metadata, world);
    MembersBound(m, files, metadata, world);
  }

  lemma MembersBound(m: Manifest, files: map<Path, seq<Row>>, metadata: Option<Metadata>, world: Physical)
    requires MemoryOk(m, files, metadata, world)
    ensures 0 <= m.members.offset <= |m.parameters.Ids()|
  {
    hide ReceiptsKept, GrantsKept, ReservationsKept;
    ReplayMeaning(m.parameters, m.pages);
  }

  lemma FilesStored(m: Manifest, files: map<Path, seq<Row>>, metadata: Option<Metadata>, world: Physical)
    requires MemoryOk(m, files, metadata, world)
    ensures forall i :: 0 <= i < |m.pages| ==> PageStored(m.pages[i], files)
  {
    hide Books;
  }

  lemma ExtendsInvocations(a: Manifest, b: Manifest)
    requires Extends(a, b)
    ensures |a.invocations| <= |b.invocations|
  {
  }

  /** Status, truncation and reason are not part of the books. */
  lemma OutcomeFields(m: Manifest, status: Status, truncated: bool, reason: Option<Reason>,
                      files: map<Path, seq<Row>>, metadata: Option<Metadata>, world: Physical)
    requires MemoryOk(m, files, metadata, world)
    ensures var n := m.(status := status, truncated := truncated, reason := reason);
            MemoryOk(n, files, metadata, world) && Extends(m, n)
  {
    hide Replay, ReceiptsKept, GrantsKept, ReservationsKept, Consumed;
    var n := m.(status := status, truncated := truncated, reason := reason);
    assert PagesKept(n);
  }

  lemma StartedOk(plan: Plan, files: map<Path, seq<Row>>, metadata: Option<Metadata>, world: Physical)
    requires PlanOk(plan) && world.sent == 0 && world.delivered == 0
    ensures StagingOk(Started(plan), files, metadata, world)
  {
    StartedDurable(plan, files, metadata);
  }

  lemma {:induction false} KeyAbsent(invocations: seq<Invocation>, key: string)
    requires KeyMatches(invocations, key) == []
    ensures forall i :: 0 <= i < |invocations| ==> invocations[i].key != Some(key)
  {
    if invocations != [] {
      var n := |invocations| - 1;
      KeyAbsent(invocations[..n], key);
      assert forall i :: 0 <= i < n ==> invocations[..n][i] == invocations[i];
    }
  }

  lemma GrantedKeeps(m: Manifest, grant: Usage, key: Option<string>,
                     files: map<Path, seq<Row>>, metadata: Option<Metadata>, world: Physical)
    requires MemoryOk(m, files, metadata, world) && StagingOk(m, files, metadata, world) && Grantable(m, grant, key)
    ensures MemoryOk(Granted(m, grant, key), files, metadata, world) && Extends(m, Granted(m, grant, key))
  {
    hide Books, Settled;
    GrantedBooks(m, grant, key);
  }

  /** With settled flags, recording the ending is the same as refreshing. */
  lemma FinishedFields(m: Manifest, state: State, files: map<Path, seq<Row>>, metadata: Option<Metadata>, world: Physical)
    requires MemoryOk(m, files, metadata, world) && m.complete == m.rangeComplete == LanesComplete(m)
    ensures m.(checkpoint := None) == m
    ensures UpdateAcquisition(RecordInvocation(m, state), state) == Refreshed(m, state)
    ensures Refreshed(m, state).acquisition.state == state
  {
  }

  /** The replay does not read the run status. */
  lemma AcceptsAnyStatus(m: Manifest, status: Status, files: map<Path, seq<Row>>, metadata: Option<Metadata>)
    requires Accepts(m, files, metadata)
    ensures Accepts(m.(status := status), files, metadata)
  {
    hide Replay, ReceiptMatches, ValidAcquisition;
    var n := m.(status := status);
    forall i | 0 <= i < |n.invocations| ensures InvocationOk(n, i) {
      assert InvocationOk(m, i);
    }
    assert PagesReplayed(m) && PagesReplayed(n);
    assert LanesReplayed(n, Replay(n.parameters, n.pages).value);
  }

  lemma StatusStop(m: Manifest, status: Status)
    ensures EndedByCeiling(m) ==> EndedByCeiling(m.(status := status))
  {
    hide StopExplained;
    if EndedByCeiling(m) { SameStop(m, m.(status := status), m.reason.value, true); }
  }

  lemma FinishedStatus(m: Manifest, files: map<Path, seq<Row>>, metadata: Option<Metadata>, world: Physical)
    requires MemoryOk(m, files, metadata, world) && Accepts(m, files, metadata)
    requires m.acquisition.state == Truncated ==> EndedByCeiling(m)
    requires m.acquisition.state == Acquired ==> m.reason == Some(PlanExhausted)
    requires m.acquisition.state == Acquired || m.acquisition.state == Truncated
    ensures var p := m.(status := Prepared);
            MemoryOk(p, files, metadata, world) && PublishedOk(p, files, metadata, world) && EndedRightly(Some(p)) && Extends(m, p)
  {
    hide Accepts, StopExplained, SameBudget;
    AcceptsAnyStatus(m, Prepared, files, metadata);
    StatusStop(m, Prepared);
  }

  lemma CommittedStatus(m: Manifest, files: map<Path, seq<Row>>, metadata: Option<Metadata>, world: Physical)
    requires PublishedOk(m, files, metadata, world) && EndedRightly(Some(m))
    ensures var c := m.(status := Committed);
            PublishedOk(c, files, metadata, world) && EndedRightly(Some(c)) && Extends(m, c) && Extends(c, m)
  {
    hide Accepts, StopExplained, SameBudget;
    AcceptsAnyStatus(m, Committed, files, metadata);
    StatusStop(m, Committed);
  }

  lemma SameParameters(a: Manifest, b: Manifest)
    requires Extends(a, b)
    ensures a.parameters == b.parameters
  {
  }

  lemma SteadyScan(truth: Option<seq<Row>>, scope: Scope, projection: seq<string>, limit: int, cursor: Option<string>)
    requires Steady(truth) && (truth.Some? ==> TableOk(truth.value))
    ensures truth.Some?
    ensures Takes(ScanLane, Answer(truth.value, ScopeQuery(scope, projection, limit, cursor)), scope, cursor, [])
  {
    HonestScan(truth.value, scope, projection, limit, cursor);
  }

  lemma SteadyMembers(truth: Option<seq<Row>>, batch: seq<string>, projection: seq<string>, scope: Scope)
    requires Steady(truth) && (truth.Some? ==> TableOk(truth.value))
    ensures truth.Some? && Takes(MemberLane, Answer(truth.value, MemberQuery(batch, projection)), scope, None, batch)
  {
    HonestMembers(truth.value, batch, projection, scope);
  }

  lemma BatchSize(m: Manifest)
    requires 0 <= m.members.offset < |m.parameters.Ids()|
    ensures 0 < |Batch(m.parameters.Ids(), m.members.offset, m.parameters.pageSize)| <= m.parameters.pageSize
  {
  }

  lemma BatchEnd(m: Manifest)
    requires 0 <= m.members.offset <= |m.parameters.Ids()|
    ensures m.members.offset + |Batch(m.parameters.Ids(), m.members.offset, m.parameters.pageSize)| <= |m.parameters.Ids()|
  {
  }

  lemma TakenRows(rows: seq<Row>, scope: Scope, cursor: Option<string>, batch: seq<string>)
    ensures Takes(ScanLane, rows, scope, cursor, batch) <==> ValidScanRows(rows, scope, cursor)
    ensures Takes(MemberLane, rows, scope, cursor, batch) <==> ValidMemberRows(rows, batch)
  {
  }

  lemma VerifiedStays(a: Manifest, b: Manifest)
    requires Extends(a, b)
    ensures a.metadataVerified ==> b.metadataVerified
  {
  }

  lemma MemoryBound(m: Manifest, files: map<Path, seq<Row>>, metadata: Option<Metadata>, world: Physical)
    requires MemoryOk(m, files, metadata, world)
    ensures |m.reservations| <= m.parameters.ceilings.attempts
  {
    AttemptsBound(m);
  }

  lemma MembersLeft(m: Manifest, files: map<Path, seq<Row>>, metadata: Option<Metadata>, world: Physical)
    requires MemoryOk(m, files, metadata, world) && !m.members.complete
    ensures 0 <= m.members.offset < |m.parameters.Ids()|
  {
  }

  lemma ReadyPage(m: Manifest, page: Page, files: map<Path, seq<Row>>, metadata: Option<Metadata>, world: Physical)
    requires MemoryOk(m, files, metadata, world)
    requires Awaiting(m, page.lane, Some(page.query), page.query.limit)
    requires page.sequence == |m.pages| + 1 && PageBounded(page, m.parameters.pageSize)
    requires |page.digest| == page.rowCount <= page.query.limit
    ensures ReadyFor(m, page)
  {
  }

  lemma FetchKeepsEvidence(a: Manifest, b: Manifest)
    requires LedgerOnly(a, b)
    ensures a.metadataVerified == b.metadataVerified && a.scan == b.scan && a.members == b.members && a.pages == b.pages
    ensures a.parameters == b.parameters && a.scope == b.scope
  {
  }
}

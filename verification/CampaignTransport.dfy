/** Physical requests: bounded retries, each attempt charged first, and pages taken into the books. */
module CampaignTransport {
  import opened Wrappers
  import opened Text
  import opened Campaign
  import opened CampaignVerifier
  import opened CampaignSoundness
  import opened CampaignSource
  import opened CampaignWriter
  import opened CampaignSteps
  import opened CampaignLedger

  lemma LedgerOnlyTransitive(a: Manifest, b: Manifest, c: Manifest)
    requires LedgerOnly(a, b) && LedgerOnly(b, c)
    ensures LedgerOnly(a, c)
  {
  }

  lemma AttemptsBound(m: Manifest)
    requires Books(m)
    ensures |m.reservations| <= m.parameters.ceilings.attempts
  {
    AttemptsCounted(m.reservations);
  }

  /** Sending an attempt that is already charged, or receiving rows within its charge, stays covered. */
  lemma WireKeeps(m: Manifest, files: map<Path, seq<Row>>, metadata: Option<Metadata>, before: Physical, after: Physical)
    requires MemoryOk(m, files, metadata, before) && StagingOk(m, files, metadata, before)
    requires before.truth == after.truth
    requires after.sent <= |m.reservations| && after.delivered <= Consumed(m.reservations).rows
    ensures MemoryOk(m, files, metadata, after) && StagingOk(m, files, metadata, after)
  {
  }

  /** The retrying transport. Only a campaign's ledger hooks its attempts. */
  class SocrataTransport {
    const maxRetries: nat

    constructor (maxRetries: nat)
      ensures this.maxRetries == maxRetries
    {
      this.maxRetries := maxRetries;
    }

    /**
     * Attempts until an answer, a permanent failure, an exhausted budget or an exhausted retry count:
     * only a transient answer is retried, and a request is given up for transient answers alone only
     * after the last of its attempts.
     */
    method Fetch(ledger: CampaignLedger) returns (s: Signal, source: Source, metadata: Metadata, time: int)
      requires ledger.Live() && ledger.manifest.invocations != []
      requires RequestShape(ledger.lane, ledger.query, ledger.capacity)
      modifies ledger`manifest, ledger.world`next, ledger.world`staging, ledger.world`sent
      ensures s == Killed ==> ledger.world.Fatal()
      ensures ledger.Live() && LedgerOnly(old(ledger.manifest), ledger.manifest)
      ensures Extends(old(ledger.manifest), ledger.manifest)
      ensures Extends(old(ledger.world.staging).value, ledger.world.staging.value)
      ensures |ledger.manifest.invocations| == |old(ledger.manifest).invocations|
      ensures s == Done ==>
        && ledger.world.staging == Some(ledger.manifest)
        && Awaiting(ledger.manifest, ledger.lane, ledger.query, ledger.capacity)
        && |ledger.manifest.reservations| > |old(ledger.manifest).reservations|
        && ledger.world.delivered + ledger.capacity <= Consumed(ledger.manifest.reservations).rows
        && (ledger.world.truth.Some? ==> source == Honest(ledger.world.truth.value))
      ensures s.OverBudget? ==>
        && Requirement(ledger.manifest, ledger.capacity) == Exceeded(s.reason, s.terminal)
        && (ledger.manifest == old(ledger.manifest) || Awaiting(ledger.manifest, ledger.lane, ledger.query, ledger.capacity))
      ensures var made := |ledger.manifest.reservations| - |old(ledger.manifest).reservations|;
        && 0 <= made <= maxRetries + 1
        && (forall k :: 0 <= k < made - 1 ==> ledger.world.Unserved(old(ledger.world.next), k))
        && (0 < made && ledger.world.next == old(ledger.world.next) + 2 * made && !s.OverBudget? ==>
              s == (match ledger.world.At(ledger.world.next - 1).wire
                    case Answered(_, _) => Done
                    case Cut => Killed
                    case _ => Failed)
              && (ledger.world.Unserved(old(ledger.world.next), made - 1) ==> made == maxRetries + 1))
      ensures ledger.world.sent == old(ledger.world.sent) + (ledger.world.next - old(ledger.world.next)) / 2
      ensures old(ledger.world.next) <= ledger.world.next
      ensures Smooth(ledger.world.script, old(ledger.world.next), ledger.world.next) && !s.OverBudget? ==>
                s == Done && metadata.valid
    {
      hide MemoryOk, StagingOk, PublishedOk, EndedRightly, Refreshed, Reserved, Extends, Requirement, LedgerOnly, Awaiting;
      var world := ledger.world;
      s, source, metadata, time := Failed, Literal([]), Metadata(false, ""), 0;
      ReflexiveExtension(ledger.manifest);
      ReflexiveExtension(world.staging.value);
      for attempt := 0 to maxRetries + 1
        invariant ledger.Live() && LedgerOnly(old(ledger.manifest), ledger.manifest)
        invariant Extends(old(ledger.manifest), ledger.manifest)
        invariant Extends(old(world.staging).value, world.staging.value)
        invariant |ledger.manifest.invocations| == |old(ledger.manifest).invocations|
        invariant |ledger.manifest.reservations| == |old(ledger.manifest).reservations| + attempt
        invariant world.next == old(world.next) + 2 * attempt && world.sent == old(world.sent) + attempt
        invariant forall k :: 0 <= k < attempt ==> world.Unserved(old(world.next), k)
        invariant if attempt == 0 then ledger.manifest == old(ledger.manifest)
                  else Awaiting(ledger.manifest, ledger.lane, ledger.query, ledger.capacity)
        invariant s == Failed
      {
        ghost var before, saved := ledger.manifest, world.staging.value;
        var again;
        s, source, metadata, time, again := Attempt(ledger);
        ExtendsTransitive(old(world.staging).value, saved, world.staging.value);
        LedgerOnlyTransitive(old(ledger.manifest), before, ledger.manifest);
        ExtendsTransitive(old(ledger.manifest), before, ledger.manifest);
        if !again { return; }
      }
      assert world.Unserved(old(world.next), maxRetries);
    }

    /** One attempt: charged and saved first, then sent; only a transient answer is tried again. */
    method Attempt(ledger: CampaignLedger) returns (s: Signal, source: Source, metadata: Metadata, time: int, again: bool)
      requires ledger.Live() && ledger.manifest.invocations != []
      requires RequestShape(ledger.lane, ledger.query, ledger.capacity)
      modifies ledger`manifest, ledger.world`next, ledger.world`staging, ledger.world`sent
      ensures s == Killed ==> ledger.world.Fatal()
      ensures ledger.Live() && LedgerOnly(old(ledger.manifest), ledger.manifest)
      ensures Extends(old(ledger.manifest), ledger.manifest)
      ensures Extends(old(ledger.world.staging).value, ledger.world.staging.value)
      ensures |ledger.manifest.invocations| == |old(ledger.manifest).invocations|
      ensures s.OverBudget? ==>
        && !again && ledger.manifest == old(ledger.manifest) && ledger.world.next == old(ledger.world.next)
        && Requirement(ledger.manifest, ledger.capacity) == Exceeded(s.reason, s.terminal)
      ensures !s.OverBudget? ==>
        && |ledger.manifest.reservations| == |old(ledger.manifest).reservations| + 1
        && old(ledger.world.next) < ledger.world.next <= old(ledger.world.next) + 2
        && (Smooth(ledger.world.script, old(ledger.world.next), ledger.world.next) ==> s == Done && metadata.valid)
      ensures !s.OverBudget? && ledger.world.next == old(ledger.world.next) + 2 ==>
        && s == (match ledger.world.At(ledger.world.next - 1).wire
                 case Answered(_, _) => Done
                 case Cut => Killed
                 case _ => Failed)
        && again == ledger.world.At(ledger.world.next - 1).wire.Transient?
        && Awaiting(ledger.manifest, ledger.lane, ledger.query, ledger.capacity)
      ensures s == Done || again ==> ledger.world.next == old(ledger.world.next) + 2 && !s.OverBudget?
      ensures ledger.world.sent == old(ledger.world.sent) + if ledger.world.next == old(ledger.world.next) + 2 then 1 else 0
      ensures s == Done ==>
        && ledger.world.staging == Some(ledger.manifest)
        && ledger.world.delivered + ledger.capacity <= Consumed(ledger.manifest.reservations).rows
        && (ledger.world.truth.Some? ==> source == Honest(ledger.world.truth.value))
    {
      hide MemoryOk, StagingOk, PublishedOk, EndedRightly, Refreshed, Reserved, Extends, Requirement, LedgerOnly, Awaiting;
      var world := ledger.world;
      source, metadata, time, again := Literal([]), Metadata(false, ""), 0, false;
      s := ledger.Reserve();
      if s != Done { return; }
      ghost var wires := world.Wires();
      world.sent := world.sent + 1;
      WireKeeps(ledger.manifest, world.files, world.metadata, wires, world.Wires());
      var e := world.Draw();
      time := e.time;
      match e.wire {
        case Answered(answer, content) => source, metadata := answer, content;
        case Transient => s, again := Failed, true;
        case Permanent => s := Failed;
        case Malformed => s := Failed;
        case Cut => s := Killed;
      }
    }

    /** A data request: an answer beyond the limit is an error, not a page. */
    method Query(ledger: CampaignLedger) returns (s: Signal, rows: seq<Row>, time: int)
      requires ledger.Live() && ledger.manifest.invocations != [] && ledger.query.Some?
      requires ledger.lane != MetadataLane && ledger.capacity == ledger.query.value.limit > 0
      modifies ledger`manifest, ledger.world`next, ledger.world`staging, ledger.world`sent, ledger.world`delivered
      ensures s == Killed ==> ledger.world.Fatal()
      ensures ledger.Live() && LedgerOnly(old(ledger.manifest), ledger.manifest)
      ensures Extends(old(ledger.manifest), ledger.manifest)
      ensures Extends(old(ledger.world.staging).value, ledger.world.staging.value)
      ensures |ledger.manifest.invocations| == |old(ledger.manifest).invocations|
      ensures s == Done ==>
        && ledger.world.staging == Some(ledger.manifest)
        && Awaiting(ledger.manifest, ledger.lane, ledger.query, ledger.capacity)
        && |ledger.manifest.reservations| > |old(ledger.manifest).reservations|
        && |rows| <= ledger.capacity
        && ledger.world.delivered <= Consumed(ledger.manifest.reservations).rows - ledger.capacity + |rows|
        && (ledger.world.truth.Some? ==> rows == Answer(ledger.world.truth.value, ledger.query.value))
      ensures s.OverBudget? ==>
        && Requirement(ledger.manifest, ledger.capacity) == Exceeded(s.reason, s.terminal)
        && (ledger.manifest == old(ledger.manifest) || Awaiting(ledger.manifest, ledger.lane, ledger.query, ledger.capacity))
      ensures old(ledger.world.next) <= ledger.world.next
      ensures ledger.world.sent == old(ledger.world.sent) + (ledger.world.next - old(ledger.world.next)) / 2
      ensures ledger.world.delivered == old(ledger.world.delivered) + if s == Done then |rows| else 0
      ensures Smooth(ledger.world.script, old(ledger.world.next), ledger.world.next) && ledger.world.truth.Some? ==>
                s == Done || s.OverBudget?
    {
      hide MemoryOk, StagingOk, PublishedOk, EndedRightly, Refreshed, Reserved, Extends, Requirement, LedgerOnly, Awaiting;
      rows := [];
      var source, metadata;
      s, source, metadata, time := Fetch(ledger);
      if s != Done { return; }
      rows := Payload(source, ledger.query.value);
      if ledger.world.truth.Some? { AnswerLimited(ledger.world.truth.value, ledger.query.value); }
      if |rows| > ledger.query.value.limit {
        s := Failed;
        return;
      }
      ghost var wires := ledger.world.Wires();
      ledger.world.delivered := ledger.world.delivered + |rows|;
      SentBound(ledger.manifest, ledger.world.files, ledger.world.metadata, wires);
      WireKeeps(ledger.manifest, ledger.world.files, ledger.world.metadata, wires, ledger.world.Wires());
    }
  }

  lemma AnswerLimited(table: seq<Row>, query: Query)
    requires 0 <= query.limit
    ensures |Answer(table, query)| <= query.limit
  {
  }

  lemma SentBound(m: Manifest, files: map<Path, seq<Row>>, metadata: Option<Metadata>, world: Physical)
    requires MemoryOk(m, files, metadata, world)
    ensures world.sent <= |m.reservations|
  {
  }

  // ---- Files ------------------------------------------------------------------------------

  /** A file for a page that no manifest lists yet disturbs none of them. */
  lemma NewFileKeeps(m: Manifest, files: map<Path, seq<Row>>, path: Path, rows: seq<Row>, metadata: Option<Metadata>)
    requires Books(m) && Stored(m, files, metadata) && path.sequence > |m.pages|
    ensures Stored(m, files[path := rows], metadata)
  {
    hide ReceiptsKept, ReservationsKept, GrantsKept, Advance;
    ReplayMeaning(m.parameters, m.pages);
    forall i | 0 <= i < |m.pages| ensures PageStored(m.pages[i], files[path := rows]) {
      assert PageBounded(m.pages[i], m.parameters.pageSize);
      assert PageStored(m.pages[i], files);
    }
  }

  lemma NewFileWorld(saved: Manifest, m: Manifest, files: map<Path, seq<Row>>, path: Path, rows: seq<Row>,
                     metadata: Option<Metadata>, world: Physical)
    requires MemoryOk(m, files, metadata, world) && StagingOk(saved, files, metadata, world) && Extends(saved, m)
    requires path.sequence == |m.pages| + 1
    ensures MemoryOk(m, files[path := rows], metadata, world) && StagingOk(saved, files[path := rows], metadata, world)
  {
    hide Books, Stored, Settled, Covered;
    NewFileKeeps(m, files, path, rows, metadata);
    NewFileKeeps(saved, files, path, rows, metadata);
  }

  /** Metadata that no manifest vouches for yet can be replaced. */
  lemma NewMetadataWorld(saved: Manifest, m: Manifest, files: map<Path, seq<Row>>, metadata: Option<Metadata>,
                         content: Metadata, world: Physical)
    requires MemoryOk(m, files, metadata, world) && StagingOk(saved, files, metadata, world) && Extends(saved, m)
    requires !m.metadataVerified
    ensures MemoryOk(m, files, Some(content), world) && StagingOk(saved, files, Some(content), world)
  {
    hide Books, Settled, Covered;
  }

  lemma MetadataKeeps(m: Manifest, files: map<Path, seq<Row>>, content: Metadata, world: Physical)
    requires MemoryOk(m, files, Some(content), world) && !m.metadataVerified && content.valid
    requires Awaiting(m, MetadataLane, None, 0)
    ensures MemoryOk(MetadataTaken(m, content), files, Some(content), world) && Extends(m, MetadataTaken(m, content))
    ensures MetadataTaken(m, content).metadataVerified && MetadataTaken(m, content).invocations == m.invocations
  {
    hide Books;
    MetadataTakenBooks(m, content);
  }

  lemma ScanKeeps(m: Manifest, page: Page, files: map<Path, seq<Row>>, metadata: Option<Metadata>, world: Physical)
    requires MemoryOk(m, files, metadata, world) && ReadyFor(m, page) && page.lane == ScanLane && !m.scan.complete
    requires ValidScanRows(page.digest, m.scope, m.scan.cursor)
    requires page.requested == m.scan.cursor && page.final == NextCursor(m.scan.cursor, page.digest)
    requires page.query == ScopeQuery(m.scope, m.parameters.projection, page.query.limit, m.scan.cursor)
    requires PageStored(page, files) && (world.truth.Some? ==> page.digest == Answer(world.truth.value, page.query))
    requires world.delivered <= Consumed(m.reservations).rows - page.query.limit + |page.digest|
    ensures MemoryOk(ScanTaken(m, page), files, metadata, world) && Extends(m, ScanTaken(m, page))
  {
    hide Books, ValidScanRows;
    ScanTakenBooks(m, page);
    TakenFields(m, page, files, metadata, world);
  }

  lemma MembersKeep(m: Manifest, page: Page, batch: seq<string>,
                    files: map<Path, seq<Row>>, metadata: Option<Metadata>, world: Physical)
    requires MemoryOk(m, files, metadata, world) && ReadyFor(m, page) && page.lane == MemberLane
    requires m.scan.complete && !m.members.complete
    requires 0 <= m.members.offset <= |m.parameters.Ids()| && batch == Batch(m.parameters.Ids(), m.members.offset, m.parameters.pageSize)
    requires ValidMemberRows(page.digest, batch) && page.requested == None && page.final == None
    requires page.query == MemberQuery(batch, m.parameters.projection)
    requires PageStored(page, files) && (world.truth.Some? ==> page.digest == Answer(world.truth.value, page.query))
    requires world.delivered <= Consumed(m.reservations).rows - page.query.limit + |page.digest|
    ensures MemoryOk(MembersTaken(m, page, batch), files, metadata, world) && Extends(m, MembersTaken(m, page, batch))
  {
    hide Books, ValidMemberRows;
    MembersTakenBooks(m, page, batch);
    TakenFields(m, page, files, metadata, world);
  }

  lemma TakenFields(m: Manifest, page: Page, files: map<Path, seq<Row>>, metadata: Option<Metadata>, world: Physical)
    requires Stored(m, files, metadata) && Covered(m, world) && m.reservations != [] && PageStored(page, files)
    requires world.truth.Some? ==> page.digest == Answer(world.truth.value, page.query)
    ensures var a := PageAdded(m, page);
            && Stored(a, files, metadata) && Extends(m, a)
            && |a.reservations| == |m.reservations|
            && (world.truth.Some? ==> ServedBy(a.pages, world.truth.value))
  {
  }
}

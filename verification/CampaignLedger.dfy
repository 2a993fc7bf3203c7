/**
 * The durable ledger: every physical attempt is charged and saved before it happens.
 *
 * `World` is everything outside the process: the campaign's files and a script of what the disk
 * and the source do next. A script that ends, or an event that kills the process, loses whatever
 * is only in memory. All statements hold for every script.
 */
module CampaignLedger {
  import opened Wrappers
  import opened Text
  import opened Durability
  import opened Campaign
  import opened CampaignVerifier
  import opened CampaignSource
  import opened CampaignWriter
  import opened CampaignSteps
  import opened CampaignBudget

  /** Who answers: a source whose rows are `table` at that moment, or any payload at all. */
  datatype Source = Honest(table: seq<Row>) | Literal(payload: seq<Row>)

  datatype Wire = Answered(source: Source, metadata: Metadata) | Transient | Permanent | Malformed | Cut

  datatype Event = Event(write: Write, wire: Wire, time: int)

  datatype Signal = Done | OverBudget(reason: Reason, terminal: bool) | Failed | Killed

  function SignalOf(write: Write): (s: Signal)
    ensures s == Done <==> write == Written
    ensures s == Failed <==> write == RaisedBefore || write == RaisedAfter
    ensures s == Killed <==> write == KilledBefore || write == KilledAfter
  {
    if write.Written? then Done else if write.Kills() then Killed else Failed
  }

  const END := Event(KilledBefore, Cut, 0)

  function Payload(source: Source, query: Query): seq<Row> {
    match source
    case Honest(table) => Answer(table, query)
    case Literal(payload) => payload
  }

  /** `b` is a later record of the same campaign than `a`: evidence, charges and grants only grow. */
  predicate Extends(a: Manifest, b: Manifest) {
    && a.parameters == b.parameters && a.pages <= b.pages
    && |a.reservations| <= |b.reservations| && |a.invocations| <= |b.invocations|
    && (a.metadataVerified ==> b.metadataVerified)
    && forall i :: 0 <= i < |a.invocations| ==>
         a.invocations[i].grant == b.invocations[i].grant && a.invocations[i].key == b.invocations[i].key
  }

  /** Only the ledger's own records differ. */
  predicate LedgerOnly(a: Manifest, b: Manifest) {
    b == a.(reservations := b.reservations, invocations := b.invocations, acquisition := b.acquisition,
            complete := b.complete, rangeComplete := b.rangeComplete)
  }

  lemma ExtendsTransitive(a: Manifest, b: Manifest, c: Manifest)
    requires Extends(a, b) && Extends(b, c)
    ensures Extends(a, c)
  {
  }

  /** What was physically sent and received, and whose rows the answers hold. */
  datatype Physical = Physical(sent: nat, delivered: nat, truth: Option<seq<Row>>)

  /** Everything sent and received is covered by the charges on record. */
  predicate Covered(m: Manifest, world: Physical) {
    && world.sent <= |m.reservations| && world.delivered <= Consumed(m.reservations).rows
    && (world.truth.Some? ==> ServedBy(m.pages, world.truth.value))
  }

  /** The manifest in memory: sound, backed by the files it names, and covering what was sent. */
  predicate MemoryOk(m: Manifest, files: map<Path, seq<Row>>, metadata: Option<Metadata>, world: Physical) {
    Books(m) && Stored(m, files, metadata) && Covered(m, world)
  }

  predicate StagingOk(m: Manifest, files: map<Path, seq<Row>>, metadata: Option<Metadata>, world: Physical) {
    Durable(m, files, metadata) && Covered(m, world)
  }

  ghost predicate PublishedOk(m: Manifest, files: map<Path, seq<Row>>, metadata: Option<Metadata>, world: Physical) {
    && Books(m) && Covered(m, world) && Accepts(m, files, metadata)
    && (m.acquisition.state == Acquired || m.acquisition.state == Truncated)
    && (m.status == Prepared || m.status == Committed)
  }

  /** A truncated campaign was ended by a ceiling, by its own figures, and an acquired one by its plan. */
  ghost predicate EndedRightly(published: Option<Manifest>) {
    published.Some? ==>
      && (published.value.acquisition.state == Truncated ==> EndedByCeiling(published.value))
      && (published.value.acquisition.state == Acquired ==> published.value.reason == Some(PlanExhausted))
  }

  function EventAt(script: seq<Event>, i: nat): Event { if i < |script| then script[i] else END }

  /** Nothing went wrong between two points: every write landed and every request was answered. */
  predicate Smooth(script: seq<Event>, from: nat, to: nat) { forall i :: from <= i < to ==> Fine(EventAt(script, i)) }

  predicate Fine(e: Event) { e.write.Written? && e.wire.Answered? && e.wire.metadata.valid }

  lemma SmoothParts(script: seq<Event>, from: nat, mid: nat, to: nat)
    requires from <= mid <= to
    ensures Smooth(script, from, to) <==> Smooth(script, from, mid) && Smooth(script, mid, to)
  {
  }

  lemma SmoothOne(script: seq<Event>, from: nat)
    ensures Smooth(script, from, from) && (Smooth(script, from, from + 1) <==> Fine(EventAt(script, from)))
  {
  }

  /** The source does not change and every row of it conforms. */
  predicate Steady(truth: Option<seq<Row>>) { truth.Some? && Wellformed(truth.value) }

  class World {
    const script: seq<Event>
    /** Some(table) when every answer in the script comes from one unchanging table. */
    ghost const truth: Option<seq<Row>>
    var next: nat
    ghost var sent: nat       // physical attempts ever made for this campaign
    ghost var delivered: nat  // rows ever received within a request's limit
    var files: map<Path, seq<Row>>
    var metadata: Option<Metadata>
    var directory: bool       // the campaign's staging directory exists
    var staging: Option<Manifest>
    var published: Option<Manifest>

    /** A campaign of which nothing exists yet. */
    constructor (script: seq<Event>, ghost truth: Option<seq<Row>>)
      requires truth.Some? ==> TableOk(truth.value)
      requires truth.Some? ==>
        forall i :: 0 <= i < |script| && script[i].wire.Answered? ==> script[i].wire.source == Honest(truth.value)
      ensures this.script == script && this.truth == truth && next == 0
      ensures Safe() && Empty()
    {
      this.script, this.truth := script, truth;
      next, sent, delivered := 0, 0, 0;
      files, metadata, directory, staging, published := map[], None, false, None, None;
    }

    ghost predicate Truthful() {
      truth.Some? ==>
        && TableOk(truth.value)
        && forall i :: 0 <= i < |script| && script[i].wire.Answered? ==> script[i].wire.source == Honest(truth.value)
    }

    ghost function Wires(): Physical
      reads this
    {
      Physical(sent, delivered, truth)
    }

    /** The durable state, whatever happened to the processes that wrote it. */
    ghost predicate Safe()
      reads this
    {
      && Truthful()
      && (staging.Some? ==> directory && StagingOk(staging.value, files, metadata, Wires()) && published.None?)
      && (published.Some? ==> PublishedOk(published.value, files, metadata, Wires()))
      && EndedRightly(published)
      && (staging.None? && published.None? ==> sent == 0 && delivered == 0)
    }

    /** The campaign's record on disk, in staging or published. */
    function Record(): Option<Manifest>
      reads this
    {
      if staging.Some? then staging else published
    }

    predicate Empty()
      reads this
    {
      !directory && staging.None? && published.None?
    }

    /** A campaign directory without any manifest in it. */
    predicate Stranded()
      reads this
    {
      directory && staging.None? && published.None?
    }

    /** The events of the world in order; a process that outlives its script is killed. */
    function At(i: nat): Event { EventAt(script, i) }

    /** The last event was the death of the process. */
    predicate Fatal()
      reads this`next
    {
      0 < next && (At(next - 1).write.Kills() || At(next - 1).wire.Cut?)
    }

    /** Attempt `k` of a request that began at `from`, each attempt a save and an answer, was answered as transient. */
    predicate Unserved(from: nat, k: nat) { At(from + 2 * k + 1).wire.Transient? }

    method Draw() returns (e: Event)
      modifies this`next
      ensures next == old(next) + 1 && e == At(old(next))
    {
      e := At(next);
      next := next + 1;
    }
  }

  class CampaignLedger {
    const world: World
    var manifest: Manifest
    var lane: Lane
    var query: Option<Query>
    var capacity: int

    constructor (world: World, manifest: Manifest)
      ensures this.world == world && this.manifest == manifest
    {
      this.world := world;
      this.manifest := manifest;
      lane, query, capacity := MetadataLane, None, 0;
    }

    /** The manifest in memory is sound and not behind the saved one. */
    ghost predicate Sound()
      reads this, world
    {
      && world.Safe() && world.staging.Some? && world.published.None?
      && MemoryOk(manifest, world.files, world.metadata, world.Wires())
      && Extends(world.staging.value, manifest)
    }

    ghost predicate Live()
      reads this, world
    {
      Sound() && manifest.complete == manifest.rangeComplete == LanesComplete(manifest)
    }

    /**
     * Opens an invocation exactly when all of its grant could be charged under the ceilings; the
     * caller can then spend all of it, and no earlier grant, key or charge has moved.
     */
    method Grant(grant: Usage) returns (s: Signal)
      modifies this`manifest
      ensures s == Done <==> GrantFits(old(manifest), grant)
      ensures s == Done || s == Failed || s == OverBudget(CeilingExhausted, true)
      ensures s == Failed <==>
        !GrantFits(old(manifest), grant)
        && (grant.rows <= 0 || grant.attempts <= 0 || (1 <= RowsLeft(old(manifest)) && 1 <= AttemptsLeft(old(manifest))))
      ensures s.OverBudget? ==> forall g :: !GrantFits(old(manifest), g)
      ensures manifest == if s == Done then Granted(old(manifest), grant, None) else old(manifest)
      ensures Extends(old(manifest), manifest) && LedgerOnly(old(manifest), manifest)
      ensures s == Done && Books(old(manifest)) ==> Remaining(manifest) == grant
    {
      hide Books, Extends, LedgerOnly, Remaining;
      ReflexiveExtension(manifest);
      if GrantFits(manifest, grant) { GrantSpendable(manifest, grant); }
      if grant.rows <= 0 || grant.attempts <= 0 { return Failed; }
      var totals := Consumed(manifest.reservations);
      var left := Usage(manifest.ceilings.rows - totals.rows, manifest.ceilings.attempts - totals.attempts);
      if left.rows <= 0 || left.attempts <= 0 { return OverBudget(CeilingExhausted, true); }
      if grant.rows > left.rows || grant.attempts > left.attempts { return Failed; }
      var n := |manifest.invocations|;
      if n > 0 && manifest.invocations[n - 1].state == Extracting {
        var last := manifest.invocations[n - 1];
        manifest := manifest.(invocations :=
          manifest.invocations[n - 1 := last.(state := Interrupted, reason := Some(UnconfirmedInterruption))]);
      }
      manifest := manifest.(invocations :=
        manifest.invocations + [Invocation(n + 1, grant, Usage(0, 0), Extracting, None, None)]);
      s := Done;
    }

    /**
     * Passes exactly when the rows and one more attempt fit what is left under the ceilings and the
     * last grant together. A terminal refusal of a single row leaves nothing for any later grant.
     */
    method Require(rows: int) returns (s: Signal)
      requires manifest.invocations != []
      ensures s == Done <==> rows <= Remaining(manifest).rows && 1 <= Remaining(manifest).attempts
      ensures s == Done <==> RowsFit(manifest, rows) && 1 <= AttemptsLeft(manifest) && 1 <= GrantAttemptsLeft(manifest)
      ensures s.OverBudget? ==>
        (s.terminal <==> RowsLeft(manifest) < rows || (RowsFit(manifest, rows) && AttemptsLeft(manifest) < 1))
      ensures s.OverBudget? && s.terminal && rows <= 1 ==> forall g :: !GrantFits(manifest, g)
      ensures s == match Requirement(manifest, rows)
                   case Allowed => Done
                   case Exceeded(reason, terminal) => OverBudget(reason, terminal)
    {
      var total, left := Consumed(manifest.reservations), Remaining(manifest);
      if rows > manifest.ceilings.rows - total.rows { return OverBudget(CampaignRowsExhausted, true); }
      if rows > left.rows { return OverBudget(InvocationRowsExhausted, false); }
      if 1 > manifest.ceilings.attempts - total.attempts { return OverBudget(CampaignAttemptsExhausted, true); }
      if 1 > left.attempts { return OverBudget(InvocationAttemptsExhausted, false); }
      s := Done;
    }

    /**
     * The last attempt was answered: the part of its charge beyond the rows is released, to the
     * campaign and to the invocation that made it; no other invocation and no attempt count moves.
     */
    method Response(rows: int, page: Option<int>)
      requires manifest.reservations != []
      modifies this`manifest
      ensures manifest == Responded(old(manifest), rows, page)
      ensures Releases(old(manifest).reservations, manifest.reservations, rows)
    {
      ResponseReleases(manifest, rows, page);
      var n := |manifest.reservations| - 1;
      var answered := manifest.reservations[n].(state := ReceiptState.Response, charged := rows, page := page);
      manifest := manifest.(reservations := manifest.reservations[..n] + [answered]);
    }

    /** Saves the refreshed manifest; the caller learns nothing about a write that raised. */
    method Persist(state: State) returns (s: Signal)
      requires Sound() && Savable(manifest, state)
      modifies this`manifest, world`next, world`staging
      ensures s == Killed ==> world.Fatal()
      ensures Live()
      ensures manifest == Refreshed(old(manifest), state)
      ensures world.staging == old(world.staging) || world.staging == Some(manifest)
      ensures Extends(old(world.staging).value, world.staging.value)
      ensures s == Done || s == Failed || s == Killed
      ensures world.At(old(world.next)).write.Lands() ==> world.staging == Some(manifest)
      ensures s == Done ==> world.staging == Some(manifest)
      ensures s == SignalOf(world.At(old(world.next)).write) && world.next == old(world.next) + 1
    {
      hide MemoryOk, StagingOk, PublishedOk, EndedRightly, Refreshed, Extends;
      RefreshedKeeps(manifest, state, world.files, world.metadata, world.Wires());
      ExtendsTransitive(world.staging.value, manifest, Refreshed(manifest, state));
      manifest := Refreshed(manifest, state);
      ReflexiveExtension(manifest);
      ReflexiveExtension(world.staging.value);
      var e := world.Draw();
      if e.write.Lands() {
        world.staging := Some(manifest);
      }
      s := SignalOf(e.write);
    }

    /** Charges one physical attempt, and saves the charge, before the attempt is made. */
    method Reserve() returns (s: Signal)
      requires Live() && manifest.invocations != [] && RequestShape(lane, query, capacity)
      modifies this`manifest, world`next, world`staging
      ensures s == Killed ==> world.Fatal()
      ensures Live() && LedgerOnly(old(manifest), manifest) && Extends(old(manifest), manifest)
      ensures |manifest.invocations| == |old(manifest).invocations|
      ensures world.staging == old(world.staging) || world.staging == Some(manifest)
      ensures Extends(old(world.staging).value, world.staging.value)
      ensures match Requirement(old(manifest), capacity)
              case Exceeded(reason, terminal) =>
                && s == OverBudget(reason, terminal) && manifest == old(manifest)
                && world.staging == old(world.staging) && world.next == old(world.next)
              case Allowed =>
                && s == SignalOf(world.At(old(world.next)).write) && world.next == old(world.next) + 1
                && |manifest.reservations| == |old(manifest).reservations| + 1
                && manifest == Refreshed(Reserved(old(manifest), lane, query, capacity), Extracting)
      ensures s == Done ==>
        && world.staging == Some(manifest)
        && Awaiting(manifest, lane, query, capacity)
        && |manifest.reservations| == |old(manifest).reservations| + 1
        && world.sent < |manifest.reservations|
        && world.delivered + capacity <= Consumed(manifest.reservations).rows
    {
      hide MemoryOk, StagingOk, PublishedOk, EndedRightly, Refreshed, Reserved, Extends, Requirement, LedgerOnly, Awaiting;
      ReflexiveExtension(manifest);
      ReflexiveExtension(world.staging.value);
      s := Require(capacity);
      if s != Done { return; }
      ReservedKeeps(manifest, lane, query, capacity, world.files, world.metadata, world.Wires());
      ExtendsTransitive(world.staging.value, manifest, Reserved(manifest, lane, query, capacity));
      manifest := Reserved(manifest, lane, query, capacity);
      s := Persist(Extracting);
    }
  }

  /** A grant the ledger can give: positive, and chargeable in full under both ceilings. */
  predicate GrantFits(m: Manifest, grant: Usage) {
    && 0 < grant.rows && Consumed(m.reservations).rows + grant.rows <= m.ceilings.rows
    && 0 < grant.attempts && Consumed(m.reservations).attempts + grant.attempts <= m.ceilings.attempts
  }

  predicate ReleasesTo(a: seq<Reservation>, b: seq<Reservation>, rows: int, k: int)
    requires a != []
  {
    var released := if k == a[|a| - 1].invocation then a[|a| - 1].charged - rows else 0;
    ConsumedBy(b, k) == Usage(ConsumedBy(a, k).rows - released, ConsumedBy(a, k).attempts)
  }

  /** `b` charges `rows` for the last attempt of `a` and otherwise what `a` does, in total and by invocation. */
  ghost predicate Releases(a: seq<Reservation>, b: seq<Reservation>, rows: int)
    requires a != []
  {
    var last := a[|a| - 1];
    && Consumed(b) == Usage(Consumed(a).rows - (last.charged - rows), Consumed(a).attempts)
    && forall k :: ReleasesTo(a, b, rows, k)
  }

  lemma ResponseReleases(m: Manifest, rows: int, page: Option<int>)
    requires m.reservations != []
    ensures Releases(m.reservations, Responded(m, rows, page).reservations, rows)
  {
    var n := |m.reservations| - 1;
    var before, last := m.reservations[..n], m.reservations[n];
    var answered := last.(state := ReceiptState.Response, charged := rows, page := page);
    assert m.reservations == before + [last];
    ConsumedSnoc(before, last);
    ConsumedSnoc(before, answered);
    forall k ensures ReleasesTo(m.reservations, before + [answered], rows, k) {
      ConsumedBySnoc(before, last, k);
      ConsumedBySnoc(before, answered, k);
    }
  }

  /** An opened invocation can spend all of its grant. */
  lemma GrantSpendable(m: Manifest, grant: Usage)
    requires GrantFits(m, grant)
    ensures Extends(m, Granted(m, grant, None)) && LedgerOnly(m, Granted(m, grant, None))
    ensures Books(m) ==> Remaining(Granted(m, grant, None)) == grant
  {
    if Books(m) { NewInvocationUncharged(m); }
    hide Books;
  }

  lemma ReflexiveExtension(m: Manifest)
    ensures Extends(m, m) && LedgerOnly(m, m)
  {
  }

  /** Evidence and charges do not change when the derived fields are recomputed. */
  lemma RefreshedFields(m: Manifest, state: State)
    ensures var r := Refreshed(m, state);
            && LedgerOnly(m, r) && r.reservations == m.reservations && |r.invocations| == |m.invocations|
            && Extends(m, r) && r.complete == r.rangeComplete == LanesComplete(r)
            && forall i :: 0 <= i < |m.invocations| ==> r.invocations[i].id == m.invocations[i].id
  {
  }

  lemma MemoryFields(a: Manifest, b: Manifest, files: map<Path, seq<Row>>, metadata: Option<Metadata>, world: Physical)
    requires Stored(a, files, metadata) && Covered(a, world) && LedgerOnly(a, b)
    requires Consumed(a.reservations).rows <= Consumed(b.reservations).rows && |a.reservations| <= |b.reservations|
    ensures Stored(b, files, metadata) && Covered(b, world)
  {
  }

  lemma RefreshedKeeps(m: Manifest, state: State, files: map<Path, seq<Row>>, metadata: Option<Metadata>, world: Physical)
    requires MemoryOk(m, files, metadata, world) && Savable(m, state)
    ensures var r := Refreshed(m, state);
            && MemoryOk(r, files, metadata, world) && StagingOk(r, files, metadata, world) && Extends(m, r)
            && r.complete == r.rangeComplete == LanesComplete(r)
  {
    hide Books, Settled, Stored, Covered, Refreshed;
    RefreshedSettles(m, state);
    RefreshedFields(m, state);
    MemoryFields(m, Refreshed(m, state), files, metadata, world);
  }

  /** The reservation step with its save, as values. */
  lemma ReservedKeeps(m: Manifest, lane: Lane, query: Option<Query>, capacity: int,
                      files: map<Path, seq<Row>>, metadata: Option<Metadata>, world: Physical)
    requires MemoryOk(m, files, metadata, world) && m.invocations != [] && RequestShape(lane, query, capacity)
    requires Requirement(m, capacity) == Allowed
    ensures var r := Reserved(m, lane, query, capacity);
            && MemoryOk(r, files, metadata, world) && Extends(m, r)
            && Extends(m, Refreshed(r, Extracting)) && LedgerOnly(m, Refreshed(r, Extracting))
            && |Refreshed(r, Extracting).invocations| == |m.invocations|
            && Awaiting(Refreshed(r, Extracting), lane, query, capacity)
            && |Refreshed(r, Extracting).reservations| == |m.reservations| + 1
            && world.sent < |Refreshed(r, Extracting).reservations|
            && world.delivered + capacity <= Consumed(Refreshed(r, Extracting).reservations).rows
  {
    hide Books, Stored, Requirement, Refreshed;
    var r := Reserved(m, lane, query, capacity);
    ReservedBooks(m, lane, query, capacity);
    LastInvocationId(m);
    MemoryFields(m, r, files, metadata, world);
    RefreshedFields(r, Extracting);
    ExtendsTransitive(m, r, Refreshed(r, Extracting));
  }

  lemma LastInvocationId(m: Manifest)
    requires Books(m) && m.invocations != []
    ensures m.invocations[|m.invocations| - 1].id == |m.invocations|
  {
    assert InvocationKept(m.parameters.named, m.reservations, m.invocations, |m.invocations| - 1);
  }
}

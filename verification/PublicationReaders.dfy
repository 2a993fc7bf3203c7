/**
 * Readers: a descriptor resolved once stays good for its whole hour, whatever operators do
 * meanwhile, and for no longer.
 */
module PublicationReaders {
  import opened Wrappers
  import opened Publication
  import opened PublicationLifecycle

  /** The metadata keys that the published catalog shows. */
  const CATALOG_KEYS := {
    "silver_version_id", "silver_manifest_sha256", "scope_id", "catalog_sha256", "dbt_graph_sha256",
    "code_revision", "policy_sha256", "policy_version", "identity_rule_version", "source_dataset_id",
    "coverage_state", "coverage_known", "scope", "observed_at", "pipeline_completed_at", "captured_at"}

  function Shown(metadata: Metadata): map<string, Option<string>> {
    map k | k in CATALOG_KEYS :: if k in metadata then Some(metadata[k]) else None
  }

  datatype Descriptor = Descriptor(version: int, id: Id, namespace: Id, builtAt: Option<int>,
                                   metadata: map<string, Option<string>>, resolvedAt: int, expiresAt: int)

  datatype ReadError = BadDescriptor | NoneActive | NotKnown | NoLonger | Expiring | Future | Expired | Changed

  datatype Result<T> = Good(value: T) | Bad(error: ReadError)

  /** The row a selection names in the catalog, which lists only publications once activated. */
  function Catalog(r: Registry, id: Option<Id>): Result<Id> {
    if id.None? then
      if r.active.id.None? || r.active.id.value !in r.rows || !r.rows[r.active.id.value].everActivated then Bad(NoneActive)
      else if r.rows[r.active.id.value].phase != Retained then Bad(NoLonger)
      else Good(r.active.id.value)
    else if !CanonicalId(id.value) then Bad(BadDescriptor)
    else if id.value !in r.rows || !r.rows[id.value].everActivated then Bad(NotKnown)
    else if r.rows[id.value].phase != Retained then Bad(NoLonger)
    else Good(id.value)
  }

  function Describe(r: Registry, id: Id, now: int): Descriptor
    requires id in r.rows
  {
    Descriptor(1, id, id, r.rows[id].builtAt, Shown(r.rows[id].metadata), now, now + OPERATION)
  }

  /** A retained publication that readers may hold until `until`. */
  predicate Held(r: Registry, id: Id, until: int) {
    && r.In(id, Retained)
    && (r.active.Protects(id) || (r.rows[id].retainUntil.Some? && until <= r.rows[id].retainUntil.value))
  }

  function Resolve(r: Registry, id: Option<Id>, now: int): Result<Descriptor> {
    match Catalog(r, id)
    case Bad(error) => Bad(error)
    case Good(value) =>
      if value in r.rows && Held(r, value, now + OPERATION) then Good(Describe(r, value, now)) else Bad(Expiring)
  }

  function Validate(r: Registry, d: Descriptor, now: int): Result<Descriptor> {
    if d.version != 1 || !CanonicalId(d.id) || d.namespace != d.id || d.expiresAt - d.resolvedAt != OPERATION
    then Bad(BadDescriptor)
    else match Catalog(r, Some(d.id))
      case Bad(error) => Bad(error)
      case Good(id) =>
        if now < d.resolvedAt then Bad(Future)
        else if d.expiresAt <= now then Bad(Expired)
        else if id !in r.rows || d.metadata != Shown(r.rows[id].metadata) || d.builtAt != r.rows[id].builtAt then Bad(Changed)
        else Good(d)
  }

  // ---- One request ------------------------------------------------------------------------

  /** A publication once sealed keeps its contents whatever happens to it later. */
  predicate SameContents(a: Row, b: Row) {
    a.metadata == b.metadata && a.builtAt == b.builtAt && a.receipt == b.receipt
  }

  lemma StepKeepsContents(r: Registry, m: Move, id: Id)
    requires id in r.rows && r.rows[id].phase !in {Building, Failed}
    ensures id in Step(r, m).0.rows && SameContents(r.rows[id], Step(r, m).0.rows[id])
    ensures Step(r, m).0.rows[id].phase !in {Building, Failed}
  {
    StepShape(r, m);
    hide Step, CanonicalId, Candidates, RetainedIds, Eligible, SetOf, Later, Extending;
  }

  /** A request whose clock readings come before a horizon cannot end the protection it needs. */
  lemma StepHolds(r: Registry, m: Move, id: Id, resolved: int)
    requires Consistent(r) && Held(r, id, resolved + OPERATION)
    requires resolved <= m.at.first <= m.at.second <= m.at.third < resolved + OPERATION
    ensures Held(Step(r, m).0, id, resolved + OPERATION)
  {
    StepShape(r, m);
    hide Step, ValidReceipt, CanonicalId, SlotsOk, HistoryOk, PinsOk, Candidates, RetainedIds;
    assert RowOk(id, r.rows[id]);
    var s := Step(r, m).0;
    if m.request.Activate? && s != r {
      var value := m.request.id;
      assert s.rows[id] == RowAfter(r, id, value, m.at);
      if r.active.Protects(id) && !s.active.Protects(id) {
        assert id in Extending(r.active, value);
      }
    }
  }

  // ---- Runs -------------------------------------------------------------------------------

  lemma {:induction false} RunHolds(r: Registry, moves: seq<Move>, id: Id, resolved: int)
    requires Consistent(r) && Held(r, id, resolved + OPERATION) && Clocked(resolved, moves)
    requires moves != [] ==> moves[|moves| - 1].at.third < resolved + OPERATION
    ensures Held(After(r, moves), id, resolved + OPERATION)
  {
    hide Consistent, Held;
    if moves != [] {
      var n := |moves| - 1;
      var before := moves[..n];
      assert before != [] ==> before[n - 1] == moves[n - 1];
      RunHolds(r, before, id, resolved);
      RunConsistent(r, before);
      StepHolds(After(r, before), moves[n], id, resolved);
    }
  }

  lemma {:induction false} RunKeepsContents(r: Registry, moves: seq<Move>, id: Id)
    requires id in r.rows && r.rows[id].phase !in {Building, Failed}
    ensures id in After(r, moves).rows && SameContents(r.rows[id], After(r, moves).rows[id])
    ensures After(r, moves).rows[id].phase !in {Building, Failed}
  {
    hide Step;
    if moves != [] {
      var n := |moves| - 1;
      RunKeepsContents(r, moves[..n], id);
      StepKeepsContents(After(r, moves[..n]), moves[n], id);
    }
  }

  /**
   * The reader horizon. A descriptor resolved at `resolved` validates unchanged at a later instant
   * exactly while its hour lasts, under every interleaving of operator requests in between.
   */
  lemma ReaderHorizon(r: Registry, selection: Option<Id>, resolved: int, moves: seq<Move>, now: int)
    requires Consistent(r) && Resolve(r, selection, resolved).Good?
    requires Clocked(resolved, moves) && resolved <= now && (moves != [] ==> moves[|moves| - 1].at.third <= now)
    ensures var d := Resolve(r, selection, resolved).value;
            Validate(After(r, moves), d, now) == Good(d) <==> now < resolved + OPERATION
  {
    hide SlotsOk, PointerOk, HistoryOk, PinsOk, ValidReceipt, CanonicalId;
    var d := Resolve(r, selection, resolved).value;
    assert RowOk(d.id, r.rows[d.id]);
    RunKeepsContents(r, moves, d.id);
    if now < resolved + OPERATION {
      RunHolds(r, moves, d.id, resolved);
      RunConsistent(r, moves);
      assert RowOk(d.id, After(r, moves).rows[d.id]);
    }
  }

  /** The latest publication can be resolved as soon as, and as long as, there is an active one. */
  lemma LatestResolves(r: Registry, now: int)
    requires Consistent(r)
    ensures Resolve(r, None, now).Good? <==> r.log != []
    ensures r.log != [] ==> Resolve(r, None, now).value.id == r.log[|r.log| - 1].id
  {
    hide SlotsOk, ValidReceipt, CanonicalId;
    if r.active.id.Some? { assert RowOk(r.active.id.value, r.rows[r.active.id.value]); }
  }
}

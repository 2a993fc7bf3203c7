/**
 * The publication registry as values: rows, the active pointer, the activation log, and what each
 * operator request makes of them.
 *
 * A request runs in one transaction under an exclusive lock, so it either leaves the registry
 * alone or applies as a whole. What a transaction finds outside the registry tables is `Findings`;
 * the readings of the database clock are `Readings`. Instants are microseconds.
 */
module Publication {
  import opened Wrappers

  const SECOND := 1_000_000
  const MAX_RETAINED := 3
  const RETENTION := 24 * 3600 * SECOND
  const OPERATION := 3600 * SECOND

  type Id = string

  predicate CanonicalId(s: string) {
    |s| == 32 && forall i :: 0 <= i < |s| ==> '0' <= s[i] <= '9' || 'a' <= s[i] <= 'f'
  }

  // ---- Registry ---------------------------------------------------------------------------

  datatype Phase = Building | Failed | Sealed | Retained | Pruned | Discarded
  {
    predicate Candidate() { this in {Building, Failed, Sealed} }

    predicate Unfinished() { this in {Building, Failed} }
  }

  type Metadata = map<string, string>

  /** One dbt result: a node and its status. */
  datatype NodeResult = NodeResult(node: string, status: string)

  datatype Receipt = Receipt(version: int, publication: Id, metadata: Metadata, required: seq<string>,
                             models: seq<string>, tests: seq<string>, results: seq<NodeResult>,
                             digests: bool, inventory: string)

  /** `expectedNodes` is kept as a sorted list, which matters only as a multiset. */
  datatype Row = Row(phase: Phase, metadata: Metadata, expectedNodes: Option<multiset<string>>,
                     failure: Option<string>, receipt: Option<Receipt>, builtAt: Option<int>,
                     deactivatedAt: Option<int>, retainUntil: Option<int>, everActivated: bool,
                     expectedId: Option<Id>, expectedGeneration: nat)

  datatype Pointer = Pointer(id: Option<Id>, generation: nat, previous: Option<Id>, activatedAt: Option<int>)
  {
    predicate Protects(value: Id) { id == Some(value) || previous == Some(value) }
  }

  datatype Event = Event(generation: nat, id: Id, previous: Option<Id>, restoration: bool, at: int)

  datatype Registry = Registry(rows: map<Id, Row>, active: Pointer, log: seq<Event>)
  {
    predicate In(id: Id, phase: Phase) { id in rows && rows[id].phase == phase }
  }

  const EMPTY := Registry(map[], Pointer(None, 0, None, None), [])

  function Candidates(rows: map<Id, Row>): set<Id> { set id | id in rows && rows[id].phase.Candidate() }

  function RetainedIds(rows: map<Id, Row>): set<Id> { set id | id in rows && rows[id].phase == Retained }

  // ---- Requests ---------------------------------------------------------------------------

  datatype Request =
    | Reserve(id: Id, metadata: Metadata)
    | UpdateMetadata(id: Id, metadata: Metadata)
    | RegisterNodes(id: Id, nodes: seq<string>)
    | MarkFailed(id: Id, code: string)
    | Retry(id: Id)
    | Seal(id: Id, receipt: Receipt)
    | Activate(id: Id, expectedId: Option<Id>, expectedGeneration: int, restore: bool)
    | Cleanup(ids: seq<Id>)
    | Discard(id: Id)

  /**
   * What the transaction finds outside the registry: sealed contents and the reader boundary
   * intact, published views intact, view signatures compatible, no live build on the candidate,
   * no outside object depending on it, the inventory of the built tables, and whether every later
   * statement succeeds.
   */
  datatype Findings = Findings(intact: bool, views: bool, compatible: bool, unowned: bool, independent: bool,
                               built: string, survives: bool)

  datatype Readings = Readings(first: int, second: int, third: int)

  datatype Move = Move(request: Request, findings: Findings, at: Readings)

  datatype Error = Invalid | Unknown | Unavailable | Conflict | Stale | Capacity | Schema | CandidateBusy
                 | Validation | Protected | Dependency | Aborted

  datatype Reply =
    | Refused(error: Error)
    | Registered(row: Row)
    | Unchanged
    | Noop(active: Pointer)
    | Activated(event: Event)
    | Cleaned(ids: seq<Id>)
    | Gone(id: Id)

  // ---- Reservation and building -----------------------------------------------------------

  function NewRow(metadata: Metadata, active: Pointer): Row {
    Row(Building, metadata, None, None, None, None, None, None, false, active.id, active.generation)
  }

  function WithRow(r: Registry, id: Id, row: Row): Registry { r.(rows := r.rows[id := row]) }

  function Reserving(r: Registry, id: Id, metadata: Metadata): (Registry, Reply) {
    if !CanonicalId(id) then (r, Refused(Invalid))
    else if id in r.rows then
      if r.rows[id].phase.Unfinished() && r.rows[id].metadata == metadata then (r, Registered(r.rows[id]))
      else (r, Refused(Conflict))
    else if Candidates(r.rows) != {} then (r, Refused(CandidateBusy))
    else if |RetainedIds(r.rows)| >= MAX_RETAINED then (r, Refused(Capacity))
    else (WithRow(r, id, NewRow(metadata, r.active)), Registered(NewRow(metadata, r.active)))
  }

  function Lookup(r: Registry, id: Id): Option<Error> {
    if !CanonicalId(id) then Some(Invalid) else if id !in r.rows then Some(Unknown) else None
  }

  function Updating(r: Registry, id: Id, metadata: Metadata): (Registry, Reply) {
    if Lookup(r, id).Some? then (r, Refused(Lookup(r, id).value))
    else
      var row := r.rows[id];
      if !row.phase.Unfinished() || (exists k :: k in row.metadata && k in metadata && metadata[k] != row.metadata[k])
      then (r, Refused(Conflict))
      else
        var updated := row.(metadata := row.metadata + metadata);
        (WithRow(r, id, updated), Registered(updated))
  }

  predicate Distinct<T(==)>(s: seq<T>) { forall i, j :: 0 <= i < j < |s| ==> s[i] != s[j] }

  function Registering(r: Registry, id: Id, nodes: seq<string>): (Registry, Reply) {
    if nodes == [] || !Distinct(nodes) then (r, Refused(Validation))
    else if Lookup(r, id).Some? then (r, Refused(Lookup(r, id).value))
    else
      var row := r.rows[id];
      if !row.phase.Unfinished() || (row.expectedNodes.Some? && row.expectedNodes.value != multiset(nodes))
      then (r, Refused(Conflict))
      else (WithRow(r, id, row.(expectedNodes := Some(multiset(nodes)))), Unchanged)
  }

  predicate SafeCode(code: string) {
    && 1 <= |code| <= 80 && 'A' <= code[0] <= 'Z'
    && forall i :: 1 <= i < |code| ==> 'A' <= code[i] <= 'Z' || '0' <= code[i] <= '9' || code[i] == '_'
  }

  function Failing(r: Registry, id: Id, code: string): (Registry, Reply) {
    if !SafeCode(code) then (r, Refused(Invalid))
    else if Lookup(r, id).Some? then (r, Refused(Lookup(r, id).value))
    else if !r.rows[id].phase.Unfinished() then (r, Unchanged)
    else (WithRow(r, id, r.rows[id].(phase := Failed, failure := Some(code))), Unchanged)
  }

  function Retrying(r: Registry, id: Id, f: Findings): (Registry, Reply) {
    if Lookup(r, id).Some? then (r, Refused(Lookup(r, id).value))
    else if !r.rows[id].phase.Unfinished() then (r, Refused(Invalid))
    else if !f.unowned then (r, Refused(CandidateBusy))
    else
      var row := r.rows[id].(phase := Building, failure := None);
      (WithRow(r, id, row), Registered(row))
  }

  // ---- Sealing ----------------------------------------------------------------------------

  const OUTPUT_RELATIONS := [
    "fact_contract", "dim_entity", "dim_supplier", "dim_municipality", "dim_modality", "dim_date",
    "mart_contract_overview", "mart_entity_monthly", "mart_supplier_concentration",
    "mart_contract_detail", "mart_data_quality"]

  function LastSegment(s: string): string {
    if s == "" then "" else if '.' !in s then s else LastSegment(s[1..])
  }

  predicate HasPrefix(s: string, prefix: string) { prefix <= s }

  function SetOf(s: seq<string>): set<string> { set x | x in s }

  /** The status the receipt reports for a node, when each node is reported once. */
  predicate Reports(results: seq<NodeResult>, node: string, status: string) {
    NodeResult(node, status) in results
  }

  predicate ValidReceipt(id: Id, row: Row, receipt: Receipt) {
    && receipt.version == 1 && receipt.publication == id && receipt.metadata == row.metadata
    && receipt.required != [] && row.expectedNodes == Some(multiset(receipt.required))
    && receipt.tests != []
    && (forall i, j :: 0 <= i < j < |receipt.results| ==> receipt.results[i].node != receipt.results[j].node)
    && SetOf(receipt.required) == SetOf(receipt.models) + SetOf(receipt.tests)
    && (forall n :: n in receipt.models ==> HasPrefix(n, "model."))
    && (forall n :: n in receipt.tests ==> HasPrefix(n, "test."))
    && (forall o :: o in OUTPUT_RELATIONS ==> exists n :: n in receipt.models && LastSegment(n) == o)
    && (forall n :: n in receipt.models ==> Reports(receipt.results, n, "success"))
    && (forall n :: n in receipt.tests ==> Reports(receipt.results, n, "pass"))
    && receipt.digests
  }

  function Sealing(r: Registry, id: Id, receipt: Receipt, f: Findings, at: int): (Registry, Reply) {
    if Lookup(r, id).Some? then (r, Refused(Lookup(r, id).value))
    else
      var row := r.rows[id];
      if !ValidReceipt(id, row, receipt) then (r, Refused(Validation))
      else if !f.unowned then (r, Refused(CandidateBusy))
      else if row.phase in {Sealed, Retained} then
        (r, if row.receipt != Some(receipt) || !f.intact then Refused(Conflict) else Registered(row))
      else if !row.phase.Unfinished() then (r, Refused(Unavailable))
      else if f.built != receipt.inventory then (r, Refused(Conflict))
      else if !f.survives then (r, Refused(Aborted))
      else if !f.independent then (r, Refused(Dependency))
      else
        var sealed := row.(phase := Sealed, receipt := Some(receipt), builtAt := Some(at));
        (WithRow(r, id, sealed), Registered(sealed))
  }

  // ---- Activation -------------------------------------------------------------------------

  /** The protected publications that activating `value` leaves unprotected, and the old active one. */
  function Extending(active: Pointer, value: Id): set<Id> {
    var kept := {value} + if active.id.Some? then {active.id.value} else {};
    (if active.previous.Some? then {active.previous.value} - kept else {})
    + if active.id.Some? then {active.id.value} else {}
  }

  function Later(until: Option<int>, at: int): int {
    if until.Some? && until.value > at then until.value else at
  }

  function RowAfter(r: Registry, id: Id, value: Id, at: Readings): Row
    requires id in r.rows
  {
    var row := r.rows[id];
    var deactivated := if r.active.id == Some(id) then row.(deactivatedAt := Some(at.first)) else row;
    var extended := if id in Extending(r.active, value)
                    then deactivated.(retainUntil := Some(Later(row.retainUntil, at.second + RETENTION)))
                    else deactivated;
    if id == value then extended.(phase := Retained, everActivated := true) else extended
  }

  function NextEvent(r: Registry, value: Id, restore: bool, at: Readings): Event {
    Event(r.active.generation + 1, value, r.active.id, restore, at.third)
  }

  function RowsAfter(r: Registry, value: Id, at: Readings): map<Id, Row> {
    map id | id in r.rows :: RowAfter(r, id, value, at)
  }

  function AfterActivation(r: Registry, value: Id, restore: bool, at: Readings): Registry {
    Registry(RowsAfter(r, value, at),
             Pointer(Some(value), r.active.generation + 1, r.active.id, Some(at.third)),
             r.log + [NextEvent(r, value, restore, at)])
  }

  function Activating(r: Registry, id: Id, expectedId: Option<Id>, expectedGeneration: int, restore: bool,
                      f: Findings, at: Readings): (Registry, Reply)
  {
    if !CanonicalId(id) || (expectedId.Some? && !CanonicalId(expectedId.value)) || expectedGeneration < 0
    then (r, Refused(Invalid))
    else if id !in r.rows then (r, Refused(Unknown))
    else
      var row := r.rows[id];
      if row.phase !in {Sealed, Retained} then (r, Refused(Unavailable))
      else if !f.intact then (r, Refused(Conflict))
      else if r.active.id == Some(id) then (r, if f.views then Noop(r.active) else Refused(Conflict))
      else if (expectedId, expectedGeneration) != (r.active.id, r.active.generation) then (r, Refused(Stale))
      else if restore && !row.everActivated then (r, Refused(Invalid))
      else if row.phase == Sealed && |RetainedIds(r.rows)| >= MAX_RETAINED then (r, Refused(Capacity))
      else if !f.compatible then (r, Refused(Schema))
      else if !f.survives then (r, Refused(Aborted))
      else if !f.independent then (r, Refused(Dependency))
      else (AfterActivation(r, id, restore, at), Activated(NextEvent(r, id, restore, at)))
  }

  // ---- Cleanup ----------------------------------------------------------------------------

  predicate EligibleRow(r: Registry, id: Id, at: int) {
    && r.In(id, Retained) && r.rows[id].retainUntil.Some? && r.rows[id].retainUntil.value <= at
    && !r.active.Protects(id)
  }

  function Eligible(r: Registry, at: int): set<Id> { set id | id in r.rows && EligibleRow(r, id, at) }

  function AfterCleanup(r: Registry, ids: set<Id>): Registry {
    r.(rows := map id | id in r.rows :: if id in ids then r.rows[id].(phase := Pruned) else r.rows[id])
  }

  function Cleaning(r: Registry, ids: seq<Id>, f: Findings, at: int): (Registry, Reply) {
    if (exists i :: 0 <= i < |ids| && !CanonicalId(ids[i])) || !Distinct(ids) then (r, Refused(Invalid))
    else if exists i :: 0 <= i < |ids| && ids[i] !in Eligible(r, at) then (r, Refused(Protected))
    else if ids != [] && !f.independent then (r, Refused(Dependency))
    else if !f.survives then (r, Refused(Aborted))
    else (AfterCleanup(r, SetOf(ids)), Cleaned(ids))
  }

  function Discarding(r: Registry, id: Id, f: Findings): (Registry, Reply) {
    if Lookup(r, id).Some? then (r, Refused(Lookup(r, id).value))
    else
      var row := r.rows[id];
      if row.everActivated || !row.phase.Candidate() then (r, Refused(Protected))
      else if !f.unowned then (r, Refused(CandidateBusy))
      else if !f.independent then (r, Refused(Dependency))
      else (WithRow(r, id, row.(phase := Discarded)), Gone(id))
  }

  // ---- Runs -------------------------------------------------------------------------------

  function Step(r: Registry, m: Move): (Registry, Reply) {
    match m.request
    case Reserve(id, metadata) => Reserving(r, id, metadata)
    case UpdateMetadata(id, metadata) => Updating(r, id, metadata)
    case RegisterNodes(id, nodes) => Registering(r, id, nodes)
    case MarkFailed(id, code) => Failing(r, id, code)
    case Retry(id) => Retrying(r, id, m.findings)
    case Seal(id, receipt) => Sealing(r, id, receipt, m.findings, m.at.first)
    case Activate(id, expectedId, generation, restore) =>
      Activating(r, id, expectedId, generation, restore, m.findings, m.at)
    case Cleanup(ids) => Cleaning(r, ids, m.findings, m.at.first)
    case Discard(id) => Discarding(r, id, m.findings)
  }

  /** The registry after a sequence of requests. */
  function After(r: Registry, moves: seq<Move>): Registry {
    if moves == [] then r else Step(After(r, moves[..|moves| - 1]), moves[|moves| - 1]).0
  }

  function ReplyAt(r: Registry, moves: seq<Move>, i: nat): Reply
    requires i < |moves|
  {
    Step(After(r, moves[..i]), moves[i]).1
  }

  /** The clock readings never go back, within a request or between requests. */
  predicate Clocked(from: int, moves: seq<Move>) {
    && (forall i :: 0 <= i < |moves| ==>
          from <= moves[i].at.first <= moves[i].at.second <= moves[i].at.third)
    && (forall i, j :: 0 <= i < j < |moves| ==> moves[i].at.third <= moves[j].at.first)
  }
}

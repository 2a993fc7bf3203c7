/**
 * The warehouse as values: the contract table, the version audit, the activation history and the
 * population tables, and what loading, restoring or adopting a snapshot makes of them.
 *
 * A manifest hash is modelled by what it fixes, the bundle's rows, time and evidence (hashes are
 * taken to be injective). Each operation is one transaction under an exclusive lock.
 */
module Warehouse {
  import opened Wrappers
  import Campaign

  type Key = string

  // ---- Bundles ----------------------------------------------------------------------------

  /** A row in the columns that a load copies. */
  datatype Contract = Contract(version: string, key: Key, signing: Option<int>, department: string, content: string)

  datatype Coverage = Coverage(authoritative: bool, complete: bool, bounded: bool, scope: Campaign.Scope,
                               parent: Option<Identity>, baseline: Option<BaselineBinding>)

  datatype BaselineBinding = BaselineBinding(id: Identity, keys: set<Key>)

  datatype Snapshot = Snapshot(rows: seq<Contract>, finishedAt: int, coverage: Option<Coverage>, evidence: string)

  datatype Identity = Identity(version: string, manifest: Snapshot)

  /** A verified bundle; its rows carry its own version. */
  datatype Bundle = Bundle(id: Identity, rowCount: int, preview: bool)

  predicate OwnRows(id: Identity) {
    forall i :: 0 <= i < |id.manifest.rows| ==> id.manifest.rows[i].version == id.version
  }

  predicate DistinctKeys(rows: seq<Contract>) {
    forall i, j :: 0 <= i < j < |rows| ==> rows[i].key != rows[j].key
  }

  function Keys(rows: seq<Contract>): set<Key> { set i | 0 <= i < |rows| :: rows[i].key }

  lemma KeysSnoc(rows: seq<Contract>, row: Contract)
    ensures Keys(rows + [row]) == Keys(rows) + {row.key}
  {
    var all := rows + [row];
    assert forall i :: 0 <= i < |rows| ==> all[i] == rows[i];
    assert all[|rows|] == row;
    forall k | k in Keys(rows) ensures k in Keys(all) {
      var i :| 0 <= i < |rows| && rows[i].key == k;
      assert all[i].key == k;
    }
  }

  /** The rows by key; with repeated keys the last one counts. */
  function RowMap(rows: seq<Contract>): (m: map<Key, Contract>)
    ensures m.Keys == Keys(rows)
  {
    if rows == [] then map[]
    else
      var n := |rows| - 1;
      assert rows[..n] + [rows[n]] == rows;
      KeysSnoc(rows[..n], rows[n]);
      RowMap(rows[..n])[rows[n].key := rows[n]]
  }

  // ---- Tables -----------------------------------------------------------------------------

  datatype Stored = Stored(row: Contract, manifest: Snapshot, loadedAt: int)

  datatype Counts = Counts(inserted: int, updated: int, deleted: int)

  datatype Audit = Audit(manifest: Snapshot, finishedAt: int, sourceRows: int, counts: Counts)

  datatype Kind = Activation | Restoration | LegacyBaseline

  /** The counts of a legacy baseline are unknown. */
  datatype Event = Event(id: Identity, previous: Option<Identity>, kind: Kind, sourceRows: int, counts: Option<Counts>)

  datatype Pointer = Pointer(id: Identity, activation: int)

  datatype Adoption = Adoption(scope: Campaign.Scope, keys: set<Key>, proof: string)

  /** `installed` says whether the activation relations exist; `evidence` lists the identities registered. */
  datatype State = State(table: map<Key, Stored>, audit: map<string, Audit>, installed: bool,
                         active: Option<Pointer>, events: seq<Event>, binding: Option<Campaign.Scope>,
                         evidence: set<Identity>, adoptions: map<Identity, Adoption>)

  datatype Error = Malformed | Conflict | Broken | Aborted

  datatype Reply =
    | Refused(error: Error)
    | Unchanged(sourceRows: int)
    | Applied(sourceRows: int, counts: Counts)
    | Adopted

  // ---- Activation metadata ----------------------------------------------------------------

  function Latest(events: seq<Event>): Option<Pointer> {
    if events == [] then None else Some(Pointer(events[|events| - 1].id, |events|))
  }

  datatype Ensured = Failed | Ready(state: State, active: Option<Identity>)

  function Recorded(s: State, id: Identity, previous: Option<Identity>, kind: Kind, rows: int, counts: Option<Counts>): State {
    s.(events := s.events + [Event(id, previous, kind, rows, counts)], active := Some(Pointer(id, |s.events| + 1)))
  }

  /** What a table row says about the snapshot it came from. */
  function Origin(stored: Stored): (string, Snapshot, int) { (stored.row.version, stored.manifest, stored.loadedAt) }

  function Origins(table: map<Key, Stored>): set<(string, Snapshot, int)> { set k | k in table :: Origin(table[k]) }

  /** A table from before the activation history is adopted as one snapshot, if its audit says so. */
  ghost function LegacyStart(s: State): Ensured {
    if s.table == map[] then Ready(s.(installed := true), None)
    else if |Origins(s.table)| != 1 then Failed
    else
      var origin :| origin in Origins(s.table);
      LegacyFrom(s, origin)
  }

  function LegacyFrom(s: State, origin: (string, Snapshot, int)): Ensured {
    var (version, manifest, loadedAt) := origin;
    if version !in s.audit then Failed
    else
      var audit := s.audit[version];
      if (audit.manifest, audit.finishedAt, audit.sourceRows) != (manifest, loadedAt, |s.table|) then Failed
      else
        var id := Identity(version, manifest);
        Ready(Recorded(s.(installed := true), id, None, LegacyBaseline, |s.table|, None), Some(id))
  }

  ghost function Ensure(s: State): Ensured {
    if !s.installed then LegacyStart(s)
    else if s.active != Latest(s.events) || (s.active.None? && s.table != map[]) then Failed
    else Ready(s, if s.active.Some? then Some(s.active.value.id) else None)
  }

  // ---- Population guards ------------------------------------------------------------------

  /** The coverage receipt is well formed: authority needs completeness, and baseline and parent agree. */
  predicate CoverageOk(c: Coverage) {
    && (c.complete ==> c.bounded) && (c.authoritative ==> c.complete)
    && c.scope.from < c.scope.to
    && c.parent == if c.baseline.Some? then Some(c.baseline.value.id) else None
  }

  predicate RestoreGuard(active: Option<Identity>, registered: bool, expected: Option<Identity>) {
    registered && expected == active
  }

  predicate LegacyGuard(s: State, id: Identity, active: Option<Identity>, registered: bool, restore: bool,
                        expected: Option<Identity>)
  {
    && (active != Some(id) ==> restore && RestoreGuard(active, registered, expected))
    && (s.binding.Some? ==> registered && id in s.adoptions && s.adoptions[id].scope == s.binding.value)
  }

  predicate Within(rows: seq<Contract>, scope: Campaign.Scope) {
    forall i :: 0 <= i < |rows| ==> scope.Covers(rows[i].signing, rows[i].department)
  }

  /** A candidate may replace the active snapshot it was built on, and only by keeping its keys. */
  predicate CandidateGuard(s: State, id: Identity, c: Coverage, active: Option<Identity>) {
    && c.complete && c.bounded && c.parent == active
    && (if active.None? then c.baseline.None?
        else s.binding.Some? && c.baseline.Some? && c.baseline.value.id == active.value
             && s.table.Keys <= Keys(id.manifest.rows) && s.table.Keys == c.baseline.value.keys)
    && Within(id.manifest.rows, c.scope)
  }

  predicate Guard(s: State, id: Identity, active: Option<Identity>, registered: bool, restore: bool,
                  expected: Option<Identity>)
  {
    match id.manifest.coverage
    case None => LegacyGuard(s, id, active, registered, restore, expected)
    case Some(c) =>
      && c.authoritative && !(registered && s.binding.None?)
      && (s.binding.Some? ==> s.binding.value == c.scope)
      && if active == Some(id) then id in s.evidence
         else if restore then RestoreGuard(active, registered, expected) && id in s.evidence
         else CandidateGuard(s, id, c, active)
  }

  /** A first candidate binds the workspace to its scope. */
  function Bound(s: State, id: Identity, active: Option<Identity>, restore: bool): State {
    if id.manifest.coverage.Some? && active != Some(id) && !restore && s.binding.None?
    then s.(binding := Some(id.manifest.coverage.value.scope)) else s
  }

  // ---- Loading ----------------------------------------------------------------------------

  /** The conditional upsert, row by row: a row whose copied columns are equal is left alone. */
  function Upserted(table: map<Key, Stored>, rows: seq<Contract>, manifest: Snapshot): map<Key, Stored> {
    if rows == [] then table
    else
      var before, row := Upserted(table, rows[..|rows| - 1], manifest), rows[|rows| - 1];
      if row.key in before && before[row.key].row == row then before
      else before[row.key := Stored(row, manifest, manifest.finishedAt)]
  }

  function Deleted(table: map<Key, Stored>, rows: seq<Contract>): map<Key, Stored> {
    map k | k in table && k in Keys(rows) :: table[k]
  }

  /** The incoming keys whose stored row differs in the copied columns. */
  function Differing(table: map<Key, Stored>, rows: seq<Contract>): set<Key> {
    set k | k in Keys(rows) && k in table && table[k].row != RowMap(rows)[k]
  }

  function LoadCounts(table: map<Key, Stored>, rows: seq<Contract>): Counts {
    Counts(|Keys(rows) - table.Keys|, |Differing(table, rows)|, |table.Keys - Keys(rows)|)
  }

  function Synchronised(s: State, id: Identity, active: Option<Identity>, registered: bool): (State, Reply) {
    var rows := id.manifest.rows;
    var counts := LoadCounts(s.table, rows);
    var t := s.(table := Upserted(Deleted(s.table, rows), rows, id.manifest), evidence := s.evidence + {id},
                audit := if registered then s.audit
                         else s.audit[id.version := Audit(id.manifest, id.manifest.finishedAt, |rows|, counts)]);
    (Recorded(t, id, active, if registered then Restoration else Activation, |rows|, Some(counts)),
     Applied(|rows|, counts))
  }

  /** What is decided about a load before any row moves: it ends there, or replaces the snapshot active in `ready`. */
  datatype Admission = Ends(state: State, reply: Reply) | Replaces(ready: State, active: Option<Identity>)

  /** Everything a load may refuse, given the activation history it read. */
  function Admit(s: State, e: Ensured, b: Bundle, restore: bool, expected: Option<Identity>, survives: bool): Admission {
    var id := b.id;
    var registered := id.version in s.audit;
    if b.preview then Ends(s, Refused(Conflict))
    else if id.manifest.coverage.Some? && !CoverageOk(id.manifest.coverage.value) then Ends(s, Refused(Malformed))
    else if id.manifest.coverage.Some? && !id.manifest.coverage.value.authoritative then Ends(s, Refused(Conflict))
    else if registered && s.audit[id.version].manifest != id.manifest then Ends(s, Refused(Conflict))
    else match e
      case Failed => Ends(s, Refused(Broken))
      case Ready(ready, active) =>
        if !Guard(ready, id, active, registered, restore, expected) then Ends(s, Refused(Conflict))
        else if active == Some(id) then
          if survives then Ends(ready.(evidence := ready.evidence + {id}), Unchanged(b.rowCount)) else Ends(s, Refused(Aborted))
        else if !DistinctKeys(id.manifest.rows) || |id.manifest.rows| != b.rowCount then Ends(s, Refused(Broken))
        else if !survives then Ends(s, Refused(Aborted))
        else Replaces(Bound(ready, id, active, restore), active)
  }

  /** A load; a refusal leaves every table as it was. */
  ghost function Loaded(s: State, b: Bundle, restore: bool, expected: Option<Identity>, survives: bool): (State, Reply) {
    match Admit(s, Ensure(s), b, restore, expected, survives)
    case Ends(state, reply) => (state, reply)
    case Replaces(ready, active) => Synchronised(ready, b.id, active, b.id.version in s.audit)
  }

  // ---- Adoption ---------------------------------------------------------------------------

  /** The rows of a table in the copied columns. */
  function Plain(table: map<Key, Stored>): map<Key, Contract> { map k | k in table :: table[k].row }

  /**
   * An adoption of the active legacy snapshot. `valid` is the rest of the proof: the record's own
   * identity, its stated reason and its Bronze runs.
   */
  function AdoptingFrom(s: State, e: Ensured, b: Bundle, record: Adoption, valid: bool, survives: bool): (State, Reply) {
    var id := b.id;
    if !valid || record.keys != Keys(id.manifest.rows) || !Within(id.manifest.rows, record.scope) then (s, Refused(Malformed))
    else match e
      case Failed => (s, Refused(Broken))
      case Ready(ready, active) =>
        if active != Some(id) then (s, Refused(Conflict))
        else if ready.binding.Some? && ready.binding.value != record.scope then (s, Refused(Conflict))
        else if Plain(ready.table) != RowMap(id.manifest.rows) || |ready.table| != |id.manifest.rows| then (s, Refused(Conflict))
        else if ready.table.Keys != record.keys then (s, Refused(Conflict))
        else if id in ready.adoptions && ready.adoptions[id] != record then (s, Refused(Conflict))
        else if !survives then (s, Refused(Aborted))
        else (ready.(binding := Some(record.scope), adoptions := ready.adoptions[id := record],
                     evidence := ready.evidence + {id}),
              Adopted)
  }

  ghost function Adopting(s: State, b: Bundle, record: Adoption, valid: bool, survives: bool): (State, Reply) {
    AdoptingFrom(s, Ensure(s), b, record, valid, survives)
  }

  // ---- Runs -------------------------------------------------------------------------------

  datatype Request =
    | Load(bundle: Bundle, restore: bool, expected: Option<Identity>)
    | Adopt(bundle: Bundle, record: Adoption, valid: bool)

  /** A request, and whether its transaction survives to its commit. */
  datatype Move = Move(request: Request, survives: bool)

  ghost function Step(s: State, m: Move): (State, Reply) {
    match m.request
    case Load(bundle, restore, expected) => Loaded(s, bundle, restore, expected, m.survives)
    case Adopt(bundle, record, valid) => Adopting(s, bundle, record, valid, m.survives)
  }

  ghost function After(s: State, moves: seq<Move>): State {
    if moves == [] then s else Step(After(s, moves[..|moves| - 1]), moves[|moves| - 1]).0
  }
}

/** The contract table always equals the active snapshot, through loads, restorations and adoptions. */
module WarehouseSync {
  import opened Wrappers
  import opened Sets
  import opened Warehouse

  // ---- The meaning of a snapshot ----------------------------------------------------------

  /** The table that exactly holds a bundle's rows. */
  function TableOf(manifest: Snapshot): map<Key, Stored> {
    map k | k in RowMap(manifest.rows) :: Stored(RowMap(manifest.rows)[k], manifest, manifest.finishedAt)
  }

  lemma {:induction false} RowMapAt(rows: seq<Contract>, i: nat)
    requires DistinctKeys(rows) && i < |rows|
    ensures rows[i].key in RowMap(rows) && RowMap(rows)[rows[i].key] == rows[i]
  {
    var n := |rows| - 1;
    if i < n { RowMapAt(rows[..n], i); }
  }

  lemma {:induction false} KeysCount(rows: seq<Contract>)
    requires DistinctKeys(rows)
    ensures |Keys(rows)| == |rows|
  {
    if rows != [] {
      var n := |rows| - 1;
      KeysCount(rows[..n]);
      assert rows[..n] + [rows[n]] == rows;
      KeysSnoc(rows[..n], rows[n]);
      assert rows[n].key !in Keys(rows[..n]);
    }
  }

  /** The rows of a table that a load would update or insert, if none of them is skipped. */
  predicate UpsertedIs(table: map<Key, Stored>, rows: seq<Contract>, manifest: Snapshot, t: map<Key, Stored>) {
    && t.Keys == table.Keys + Keys(rows)
    && forall k :: k in t ==> t[k] == if k in Keys(rows) then Stored(RowMap(rows)[k], manifest, manifest.finishedAt) else table[k]
  }

  lemma NoKeys()
    ensures Keys([]) == {}
  {
  }

  lemma RowMapSnoc(rows: seq<Contract>, row: Contract)
    requires DistinctKeys(rows + [row])
    ensures DistinctKeys(rows) && row.key !in Keys(rows) && Keys(rows + [row]) == Keys(rows) + {row.key}
    ensures RowMap(rows + [row]) == RowMap(rows)[row.key := row]
  {
    var all := rows + [row];
    assert all[..|rows|] == rows && forall i :: 0 <= i < |rows| ==> all[i] == rows[i];
    KeysSnoc(rows, row);
    forall i | 0 <= i < |rows| ensures rows[i].key != row.key {
      assert all[i].key != all[|rows|].key;
    }
  }

  lemma {:induction false} UpsertedMeaning(table: map<Key, Stored>, rows: seq<Contract>, manifest: Snapshot)
    requires DistinctKeys(rows)
    requires forall k :: k in Keys(rows) && k in table ==> table[k].row != RowMap(rows)[k]
    ensures UpsertedIs(table, rows, manifest, Upserted(table, rows, manifest))
  {
    hide Keys, RowMap, DistinctKeys;
    if rows == [] {
      NoKeys();
    } else {
      var n := |rows| - 1;
      assert rows[..n] + [rows[n]] == rows;
      RowMapSnoc(rows[..n], rows[n]);
      UpsertedMeaning(table, rows[..n], manifest);
    }
  }

  /** Delete and conditional upsert leave exactly the incoming snapshot when no row is skipped. */
  lemma LoadedTable(table: map<Key, Stored>, manifest: Snapshot)
    requires DistinctKeys(manifest.rows)
    requires forall k :: k in Keys(manifest.rows) && k in table ==> table[k].row != RowMap(manifest.rows)[k]
    ensures Upserted(Deleted(table, manifest.rows), manifest.rows, manifest) == TableOf(manifest)
  {
    UpsertedMeaning(Deleted(table, manifest.rows), manifest.rows, manifest);
  }

  // ---- Invariant --------------------------------------------------------------------------

  /** The audit is a function from versions to verified snapshots. */
  predicate AuditOk(audit: map<string, Audit>) {
    forall v :: v in audit ==>
      && OwnRows(Identity(v, audit[v].manifest)) && DistinctKeys(audit[v].manifest.rows)
      && audit[v].sourceRows == |audit[v].manifest.rows| && audit[v].finishedAt == audit[v].manifest.finishedAt
  }

  predicate Registered(audit: map<string, Audit>, id: Identity) {
    id.version in audit && audit[id.version].manifest == id.manifest
  }

  /** Rows from before the activation history were written by a load of the snapshot they name. */
  predicate LegacyRow(audit: map<string, Audit>, k: Key, stored: Stored) {
    k in TableOf(stored.manifest) && TableOf(stored.manifest)[k] == stored && OwnRows(Identity(stored.row.version, stored.manifest))
  }

  predicate TableOk(s: State) {
    if s.installed then s.table == if s.active.None? then map[] else TableOf(s.active.value.id.manifest)
    else forall k :: k in s.table ==> LegacyRow(s.audit, k, s.table[k])
  }

  /** Rows before, plus inserted, minus deleted, are the rows after; inserted and updated ones are not more than those. */
  predicate CountsOk(before: int, e: Event) {
    match e.counts
    case None => e.kind == LegacyBaseline
    case Some(c) =>
      && e.kind != LegacyBaseline
      && before + c.inserted - c.deleted == e.sourceRows && c.inserted + c.updated == e.sourceRows
  }

  predicate EventOk(s: State, i: nat)
    requires i < |s.events|
  {
    var e := s.events[i];
    && Registered(s.audit, e.id) && e.sourceRows == |e.id.manifest.rows|
    && e.previous == (if i == 0 then None else Some(s.events[i - 1].id)) && e.previous != Some(e.id)
    && CountsOk(if i == 0 then 0 else s.events[i - 1].sourceRows, e)
    && (e.kind == LegacyBaseline ==> i == 0)
    && (e.kind == Activation ==> forall j :: 0 <= j < i ==> s.events[j].id.version != e.id.version)
  }

  predicate HistoryOk(s: State) {
    && s.active == Latest(s.events) && (!s.installed ==> s.events == [])
    && forall i :: 0 <= i < |s.events| ==> EventOk(s, i)
  }

  /**
   * One scope for the whole workspace; every population snapshot in the audit lies in it and has its
   * evidence, every adopted snapshot lies in it, and so does whatever is active once a scope is bound.
   */
  predicate ScopeOk(s: State) {
    && (forall v :: v in s.audit && s.audit[v].manifest.coverage.Some? ==>
          && s.binding == Some(s.audit[v].manifest.coverage.value.scope)
          && CoverageOk(s.audit[v].manifest.coverage.value) && s.audit[v].manifest.coverage.value.authoritative
          && Identity(v, s.audit[v].manifest) in s.evidence
          && Within(s.audit[v].manifest.rows, s.audit[v].manifest.coverage.value.scope))
    && (forall id :: id in s.adoptions ==>
          s.binding == Some(s.adoptions[id].scope) && Registered(s.audit, id) && Within(id.manifest.rows, s.adoptions[id].scope))
    && (s.binding.Some? && s.active.Some? ==> Within(s.active.value.id.manifest.rows, s.binding.value))
    && (!s.installed ==> s.binding.None?)
  }

  predicate Consistent(s: State) {
    AuditOk(s.audit) && TableOk(s) && HistoryOk(s) && ScopeOk(s)
  }

  const EMPTY := State(map[], map[], false, None, [], None, {}, map[])

  lemma EmptyConsistent()
    ensures Consistent(EMPTY)
  {
  }

  // ---- Starting the history ---------------------------------------------------------------

  lemma TableOfSize(manifest: Snapshot)
    requires DistinctKeys(manifest.rows)
    ensures |TableOf(manifest)| == |manifest.rows|
    ensures TableOf(manifest).Keys == Keys(manifest.rows)
  {
    KeysCount(manifest.rows);
    assert TableOf(manifest).Keys == RowMap(manifest.rows).Keys;
    assert |TableOf(manifest)| == |TableOf(manifest).Keys|;
  }

  /** A part of a table that is as large as the table is the table. */
  lemma WholeTable(part: map<Key, Stored>, whole: map<Key, Stored>)
    requires |part| == |whole| && forall k :: k in part ==> k in whole && part[k] == whole[k]
    ensures part == whole
  {
    assert part.Keys <= whole.Keys;
    assert |whole.Keys| == |whole| && |part.Keys| == |part|;
    if part.Keys != whole.Keys {
      var k :| k in whole.Keys && k !in part.Keys;
      SubsetSize(part.Keys, whole.Keys - {k});
    }
  }

  lemma SoleOrigin(table: map<Key, Stored>, origin: (string, Snapshot, int), k: Key)
    requires |Origins(table)| == 1 && origin in Origins(table) && k in table
    ensures Origin(table[k]) == origin
  {
    assert Origin(table[k]) in Origins(table);
    if Origin(table[k]) != origin {
      SubsetSize({origin, Origin(table[k])}, Origins(table));
    }
  }

  lemma LegacyWhole(s: State, origin: (string, Snapshot, int))
    requires TableOk(s) && !s.installed && |Origins(s.table)| == 1 && origin in Origins(s.table)
    requires |s.table| == |origin.1.rows| && DistinctKeys(origin.1.rows)
    ensures s.table == TableOf(origin.1)
  {
    hide Origins, TableOf, DistinctKeys;
    forall k | k in s.table ensures k in TableOf(origin.1) && TableOf(origin.1)[k] == s.table[k] {
      SoleOrigin(s.table, origin, k);
      assert LegacyRow(s.audit, k, s.table[k]);
    }
    TableOfSize(origin.1);
    WholeTable(s.table, TableOf(origin.1));
  }

  lemma SameScope(s: State, t: State)
    requires ScopeOk(s) && s.audit == t.audit && s.binding == t.binding && s.evidence == t.evidence && s.adoptions == t.adoptions
    requires t.binding.None?
    ensures ScopeOk(t)
  {
  }

  lemma Unbound(s: State)
    requires ScopeOk(s) && !s.installed
    ensures s.binding.None?
  {
  }

  lemma LegacyConsistent(s: State, origin: (string, Snapshot, int))
    requires Consistent(s) && !s.installed && |Origins(s.table)| == 1 && origin in Origins(s.table)
    ensures match LegacyFrom(s, origin)
            case Failed => true
            case Ready(r, active) => Consistent(r) && r.installed && active.Some? && r.table == s.table && r.audit == s.audit
  {
    hide Origins, TableOf, DistinctKeys, OwnRows, LegacyRow, ScopeOk;
    if LegacyFrom(s, origin).Ready? {
      LegacyWhole(s, origin);
      var r := LegacyFrom(s, origin).state;
      Unbound(s);
      SameScope(s, r);
      assert EventOk(r, 0);
    }
  }

  lemma EnsureConsistent(s: State)
    requires Consistent(s)
    ensures match Ensure(s)
            case Failed => !s.installed
            case Ready(r, active) =>
              && Consistent(r) && r.installed && r.table == s.table && r.audit == s.audit && r.binding == s.binding
              && r.evidence == s.evidence && r.adoptions == s.adoptions
              && active == (if r.active.Some? then Some(r.active.value.id) else None)
              && (s.installed ==> r == s)
  {
    if !s.installed && s.table == map[] { InstalledConsistent(s); }
    hide LegacyFrom, AuditOk, ScopeOk, EventOk, LegacyRow, TableOf;
    if !s.installed && s.table != map[] && |Origins(s.table)| == 1 {
      forall origin | origin in Origins(s.table)
        ensures match LegacyFrom(s, origin)
                case Failed => true
                case Ready(r, active) =>
                  && Consistent(r) && r.installed && r.table == s.table && r.audit == s.audit && r.binding == s.binding
                  && r.evidence == s.evidence && r.adoptions == s.adoptions
                  && active == (if r.active.Some? then Some(r.active.value.id) else None)
      {
        LegacyConsistent(s, origin);
        LegacyFromKeeps(s, origin);
      }
    }
  }

  lemma InstalledConsistent(s: State)
    requires Consistent(s) && !s.installed && s.table == map[]
    ensures Consistent(s.(installed := true))
  {
  }

  lemma LegacyFromKeeps(s: State, origin: (string, Snapshot, int))
    ensures match LegacyFrom(s, origin)
            case Failed => true
            case Ready(r, active) =>
              && r.binding == s.binding && r.evidence == s.evidence && r.adoptions == s.adoptions
              && r.active.Some? && active == Some(r.active.value.id)
  {
  }

  // ---- Loading ----------------------------------------------------------------------------

  /** The conditional upsert never skips a row: equal columns would mean equal versions, so the same snapshot. */
  lemma NoRowSkipped(s: State, id: Identity, k: Key)
    requires Consistent(s) && s.installed && OwnRows(id) && DistinctKeys(id.manifest.rows)
    requires id.version in s.audit ==> s.audit[id.version].manifest == id.manifest
    requires s.active.Some? ==> s.active.value.id != id
    requires k in Keys(id.manifest.rows) && k in s.table
    ensures s.table[k].row != RowMap(id.manifest.rows)[k]
  {
    var active := s.active.value.id;
    assert EventOk(s, |s.events| - 1);
    RowMapVersion(active, k);
    RowMapVersion(id, k);
  }

  lemma RowMapVersion(id: Identity, k: Key)
    requires OwnRows(id) && DistinctKeys(id.manifest.rows) && k in Keys(id.manifest.rows)
    ensures RowMap(id.manifest.rows)[k].version == id.version
  {
    var j :| 0 <= j < |id.manifest.rows| && id.manifest.rows[j].key == k;
    RowMapAt(id.manifest.rows, j);
  }

  lemma CountsAddUp(table: map<Key, Stored>, rows: seq<Contract>)
    requires DistinctKeys(rows)
    requires forall k :: k in Keys(rows) && k in table ==> table[k].row != RowMap(rows)[k]
    ensures var c := LoadCounts(table, rows);
            |table| + c.inserted - c.deleted == |rows| && c.inserted + c.updated == |rows|
    ensures LoadCounts(table, rows).deleted == 0 <==> table.Keys <= Keys(rows)
  {
    KeysCount(rows);
    assert Differing(table, rows) == Keys(rows) * table.Keys;
    hide Differing, Keys, RowMap, DistinctKeys;
    SplitSize(Keys(rows), table.Keys);
    SplitSize(table.Keys, Keys(rows));
    assert Keys(rows) * table.Keys == table.Keys * Keys(rows);
    assert |table.Keys| == |table|;
  }

  /** What the load transaction relies on once its guards have passed. */
  predicate Loadable(s: State, id: Identity, active: Option<Identity>, registered: bool) {
    && Consistent(s) && s.installed && OwnRows(id) && DistinctKeys(id.manifest.rows)
    && active == (if s.active.Some? then Some(s.active.value.id) else None) && active != Some(id)
    && registered == (id.version in s.audit) && (registered ==> s.audit[id.version].manifest == id.manifest)
    && (id.manifest.coverage.Some? ==>
          s.binding == Some(id.manifest.coverage.value.scope)
          && CoverageOk(id.manifest.coverage.value) && id.manifest.coverage.value.authoritative
          && Within(id.manifest.rows, id.manifest.coverage.value.scope))
    && (s.binding.Some? ==> Within(id.manifest.rows, s.binding.value))
  }

  lemma SynchronisedTable(s: State, id: Identity, active: Option<Identity>, registered: bool)
    requires Loadable(s, id, active, registered)
    ensures Synchronised(s, id, active, registered).0.table == TableOf(id.manifest)
    ensures var c := LoadCounts(s.table, id.manifest.rows);
            |s.table| + c.inserted - c.deleted == |id.manifest.rows| && c.inserted + c.updated == |id.manifest.rows|
  {
    hide Upserted, Deleted, LoadCounts, TableOf;
    var rows := id.manifest.rows;
    forall k | k in Keys(rows) && k in s.table ensures s.table[k].row != RowMap(rows)[k] {
      NoRowSkipped(s, id, k);
    }
    LoadedTable(s.table, id.manifest);
    CountsAddUp(s.table, rows);
  }

  lemma ActiveSize(s: State)
    requires Consistent(s) && s.installed
    ensures |s.table| == if s.events == [] then 0 else s.events[|s.events| - 1].sourceRows
  {
    if s.events != [] {
      assert EventOk(s, |s.events| - 1);
      TableOfSize(s.active.value.id.manifest);
    }
  }

  lemma SynchronisedHistory(s: State, id: Identity, active: Option<Identity>, registered: bool)
    requires Loadable(s, id, active, registered)
    ensures HistoryOk(Synchronised(s, id, active, registered).0)
  {
    hide Upserted, Deleted, LoadCounts, TableOf, OwnRows, DistinctKeys, ScopeOk;
    SynchronisedTable(s, id, active, registered);
    ActiveSize(s);
    var t := Synchronised(s, id, active, registered).0;
    var n := |s.events|;
    forall i | 0 <= i <= n ensures EventOk(t, i) {
      if i < n {
        assert EventOk(s, i);
      } else {
        forall j | 0 <= j < n ensures s.events[j].id.version in s.audit { assert EventOk(s, j); }
      }
    }
  }

  lemma SynchronisedConsistent(s: State, id: Identity, active: Option<Identity>, registered: bool)
    requires Loadable(s, id, active, registered)
    ensures Consistent(Synchronised(s, id, active, registered).0)
  {
    hide Upserted, Deleted, LoadCounts, TableOf, OwnRows, DistinctKeys, HistoryOk, EventOk;
    SynchronisedTable(s, id, active, registered);
    SynchronisedHistory(s, id, active, registered);
  }

  lemma BoundConsistent(s: State, id: Identity, active: Option<Identity>, restore: bool, registered: bool,
                 expected: Option<Identity>)
    requires Consistent(s) && s.installed && registered == (id.version in s.audit)
    requires Guard(s, id, active, registered, restore, expected)
    requires id.manifest.coverage.Some? ==> CoverageOk(id.manifest.coverage.value)
    requires active == (if s.active.Some? then Some(s.active.value.id) else None) && active != Some(id)
    ensures Consistent(Bound(s, id, active, restore))
    ensures id.manifest.coverage.Some? && Bound(s, id, active, restore).binding.None? ==> restore
  {
    hide TableOf, OwnRows, DistinctKeys;
    var b := Bound(s, id, active, restore);
    forall i | 0 <= i < |s.events| ensures EventOk(b, i) {
      assert EventOk(s, i);
    }
  }

  // ---- Every request ----------------------------------------------------------------------

  /** The bundle verifier guarantees that a bundle's rows carry its version. */
  predicate Verified(m: Move) { OwnRows(m.request.bundle.id) }

  lemma EvidenceConsistent(s: State, id: Identity)
    requires Consistent(s)
    ensures Consistent(s.(evidence := s.evidence + {id}))
  {
    hide AuditOk, TableOf, EventOk;
    var t := s.(evidence := s.evidence + {id});
    forall i | 0 <= i < |s.events| ensures EventOk(t, i) { SameEvent(s, t, i); }
  }

  lemma SameEvent(s: State, t: State, i: nat)
    requires i < |s.events| && EventOk(s, i) && t.events == s.events && t.audit == s.audit
    ensures EventOk(t, i)
  {
  }

  lemma LoadConsistent(s: State, m: Move)
    requires Consistent(s) && m.request.Load? && Verified(m)
    ensures Consistent(Step(s, m).0)
  {
    hide Consistent, Guard, Ensure, Upserted, LoadCounts, OwnRows;
    EnsureConsistent(s);
    var (t, reply) := Step(s, m);
    var id, restore, expected := m.request.bundle.id, m.request.restore, m.request.expected;
    var registered := id.version in s.audit;
    if reply.Unchanged? || reply.Applied? {
      var Ready(ready, active) := Ensure(s);
      if reply.Unchanged? {
        EvidenceConsistent(ready, id);
      } else {
        BoundConsistent(ready, id, active, restore, registered, expected);
        GuardBinds(ready, id, active, registered, restore, expected);
        SynchronisedConsistent(Bound(ready, id, active, restore), id, active, registered);
      }
    }
  }

  /**
   * A population load that passes its guard binds the workspace to its scope; whatever passes the
   * guard of a bound workspace lies in its scope.
   */
  lemma GuardBinds(s: State, id: Identity, active: Option<Identity>, registered: bool, restore: bool,
                 expected: Option<Identity>)
    requires Guard(s, id, active, registered, restore, expected) && active != Some(id) && Consistent(s)
    requires registered == (id.version in s.audit) && (registered ==> s.audit[id.version].manifest == id.manifest)
    requires id.manifest.coverage.Some? ==> CoverageOk(id.manifest.coverage.value)
    ensures id.manifest.coverage.Some? ==>
              && Bound(s, id, active, restore).binding == Some(id.manifest.coverage.value.scope)
              && id.manifest.coverage.value.authoritative && Within(id.manifest.rows, id.manifest.coverage.value.scope)
    ensures var b := Bound(s, id, active, restore); b.binding.Some? ==> Within(id.manifest.rows, b.binding.value)
  {
    hide Within, CoverageOk, AuditOk, TableOk, HistoryOk;
  }

  lemma AdoptConsistent(s: State, m: Move)
    requires Consistent(s) && m.request.Adopt?
    ensures Consistent(Step(s, m).0)
  {
    hide Consistent, Ensure, Plain, RowMap;
    EnsureConsistent(s);
    if Step(s, m).1.Adopted? {
      var ready := Ensure(s).state;
      AdoptedConsistent(ready, m.request.bundle.id, m.request.record);
    }
  }

  lemma AdoptedConsistent(s: State, id: Identity, record: Adoption)
    requires Consistent(s) && s.installed && s.active.Some? && s.active.value.id == id
    requires Within(id.manifest.rows, record.scope) && (s.binding.Some? ==> s.binding.value == record.scope)
    ensures Consistent(s.(binding := Some(record.scope), adoptions := s.adoptions[id := record], evidence := s.evidence + {id}))
  {
    hide AuditOk, TableOf;
    var t := s.(binding := Some(record.scope), adoptions := s.adoptions[id := record], evidence := s.evidence + {id});
    assert EventOk(s, |s.events| - 1);
    forall i | 0 <= i < |s.events| ensures EventOk(t, i) { SameEvent(s, t, i); }
  }

  lemma StepConsistent(s: State, m: Move)
    requires Consistent(s) && Verified(m)
    ensures Consistent(Step(s, m).0)
  {
    hide Consistent, Step;
    match m.request
    case Load(_, _, _) => LoadConsistent(s, m);
    case Adopt(_, _, _) => AdoptConsistent(s, m);
  }

  /** Whatever is loaded, restored, adopted or refused, the table is the active snapshot. */
  lemma {:induction false} RunConsistent(s: State, moves: seq<Move>)
    requires Consistent(s) && forall i :: 0 <= i < |moves| ==> Verified(moves[i])
    ensures Consistent(After(s, moves))
  {
    hide Consistent, Step;
    if moves != [] {
      var n := |moves| - 1;
      RunConsistent(s, moves[..n]);
      StepConsistent(After(s, moves[..n]), moves[n]);
    }
  }
}

/** What whole runs of loads, restorations and adoptions guarantee. */
module WarehouseResults {
  import opened Wrappers
  import opened Warehouse
  import opened WarehouseSync

  /** The identity a run left active, if any. */
  function ActiveOf(s: State): Option<Identity> {
    if s.active.Some? then Some(s.active.value.id) else None
  }

  /** The state that the statements of an applied load start from. */
  ghost function StartOf(s: State, m: Move): State
    requires m.request.Load? && Ensure(s).Ready?
  {
    Bound(Ensure(s).state, m.request.bundle.id, Ensure(s).active, m.request.restore)
  }

  lemma AppliedShape(s: State, m: Move)
    requires m.request.Load? && Step(s, m).1.Applied?
    ensures Ensure(s).Ready?
    ensures var id := m.request.bundle.id;
            var registered := id.version in s.audit;
            && Guard(Ensure(s).state, id, Ensure(s).active, registered, m.request.restore, m.request.expected)
            && Ensure(s).active != Some(id) && DistinctKeys(id.manifest.rows)
            && (registered ==> s.audit[id.version].manifest == id.manifest)
            && (id.manifest.coverage.Some? ==> CoverageOk(id.manifest.coverage.value))
            && Step(s, m) == Synchronised(StartOf(s, m), id, Ensure(s).active, registered)
  {
    hide Ensure, Guard, Bound, Upserted, LoadCounts, OwnRows, DistinctKeys;
  }

  lemma AppliedStart(s: State, m: Move)
    requires Consistent(s) && Verified(m) && m.request.Load? && Step(s, m).1.Applied?
    ensures Ensure(s).Ready?
    ensures var start := StartOf(s, m);
            && Loadable(start, m.request.bundle.id, Ensure(s).active, m.request.bundle.id.version in s.audit)
            && start.table == s.table && start.audit == s.audit
  {
    AppliedShape(s, m);
    EnsureConsistent(s);
    hide Step, Consistent, Guard, Ensure, TableOf, OwnRows, DistinctKeys;
    var id, restore, expected := m.request.bundle.id, m.request.restore, m.request.expected;
    var registered := id.version in s.audit;
    var Ready(ready, active) := Ensure(s);
    BoundConsistent(ready, id, active, restore, registered, expected);
    GuardBinds(ready, id, active, registered, restore, expected);
  }

  /** An applied load leaves exactly its bundle, and reports what the tables show. */
  lemma AppliedLoad(s: State, m: Move)
    requires Consistent(s) && Verified(m) && m.request.Load? && Step(s, m).1.Applied?
    ensures var (t, reply) := Step(s, m);
            var id := m.request.bundle.id;
            && t.installed && ActiveOf(t) == Some(id) && t.table == TableOf(id.manifest)
            && DistinctKeys(id.manifest.rows) && Registered(t.audit, id)
            && reply.sourceRows == |t.table|
            && |s.table| + reply.counts.inserted - reply.counts.deleted == |t.table|
            && reply.counts.inserted + reply.counts.updated == |t.table|
            && (reply.counts.deleted == 0 <==> s.table.Keys <= t.table.Keys)
  {
    hide Consistent, Guard, Ensure, Bound, TableOf, OwnRows, DistinctKeys, LoadCounts, Upserted, Deleted;
    AppliedShape(s, m);
    AppliedStart(s, m);
    hide Step;
    var id := m.request.bundle.id;
    DeletedCount(s.table, id.manifest.rows);
    TableOfSize(id.manifest);
    SynchronisedTable(StartOf(s, m), id, Ensure(s).active, id.version in s.audit);
  }

  lemma DeletedCount(table: map<Key, Stored>, rows: seq<Contract>)
    ensures LoadCounts(table, rows).deleted == 0 <==> table.Keys <= Keys(rows)
  {
    var gone := table.Keys - Keys(rows);
    if |gone| == 0 {
      forall k | k in table.Keys ensures k in Keys(rows) { assert k !in gone; }
    } else {
      var k :| k in gone;
    }
  }

  lemma EnsureKeepsTable(s: State)
    ensures Ensure(s).Ready? ==> Ensure(s).state.table == s.table
  {
  }

  lemma OthersKeepTable(s: State, m: Move)
    requires !Step(s, m).1.Applied?
    ensures Step(s, m).0.table == s.table
  {
    EnsureKeepsTable(s);
    hide Ensure, Guard, Upserted, LoadCounts, CoverageOk, DistinctKeys, Plain, RowMap;
  }

  lemma GuardKeepsKeys(s: State, m: Move)
    requires Consistent(s) && m.request.Load? && !m.request.restore && Step(s, m).1.Applied?
    ensures s.table.Keys <= Keys(m.request.bundle.id.manifest.rows)
  {
    AppliedShape(s, m);
    EnsureConsistent(s);
    hide Step, Ensure, TableOf, OwnRows, DistinctKeys;
  }

  /** Only an explicit restoration removes contracts. */
  lemma OnlyRestoresDelete(s: State, m: Move)
    requires Consistent(s) && Verified(m) && (m.request.Load? ==> !m.request.restore)
    ensures s.table.Keys <= Step(s, m).0.table.Keys
  {
    if Step(s, m).1.Applied? {
      AppliedOnlyLoads(s, m);
      AppliedLoad(s, m);
      GuardKeepsKeys(s, m);
      DeletedCount(s.table, m.request.bundle.id.manifest.rows);
      TableOfSize(m.request.bundle.id.manifest);
    } else {
      OthersKeepTable(s, m);
    }
    hide Step, Consistent, TableOf;
  }

  lemma AppliedOnlyLoads(s: State, m: Move)
    ensures Step(s, m).1.Applied? ==> m.request.Load?
  {
    hide Ensure, Guard, Plain, RowMap, Loaded;
  }

  /** Membership only grows along a chain without restorations. */
  lemma {:induction false} MembershipGrows(s: State, moves: seq<Move>)
    requires Consistent(s) && forall i :: 0 <= i < |moves| ==>
        Verified(moves[i]) && (moves[i].request.Load? ==> !moves[i].request.restore)
    ensures s.table.Keys <= After(s, moves).table.Keys
  {
    hide Consistent, Step;
    if moves != [] {
      var n := |moves| - 1;
      MembershipGrows(s, moves[..n]);
      RunConsistent(s, moves[..n]);
      OnlyRestoresDelete(After(s, moves[..n]), moves[n]);
    }
  }

  /** Restoring a snapshot after any chain of requests gives back the table of its first load. */
  lemma RestorationExact(s: State, first: Move, moves: seq<Move>, last: Move)
    requires Consistent(s) && Verified(first) && Verified(last) && forall i :: 0 <= i < |moves| ==> Verified(moves[i])
    requires first.request.Load? && last.request.Load? && first.request.bundle.id == last.request.bundle.id
    requires Step(s, first).1.Applied?
    requires Step(After(Step(s, first).0, moves), last).1.Applied?
    ensures Step(After(Step(s, first).0, moves), last).0.table == Step(s, first).0.table
  {
    hide Consistent, Step, After, TableOf;
    AppliedLoad(s, first);
    StepConsistent(s, first);
    RunConsistent(Step(s, first).0, moves);
    AppliedLoad(After(Step(s, first).0, moves), last);
  }

  /**
   * When an explicit restoration of a registered snapshot takes effect: exactly when the caller
   * names the current snapshot and, for a snapshot without coverage in a bound workspace, that
   * snapshot was adopted. Nothing in the tables themselves can refuse it.
   */
  lemma RestoreApplies(s: State, m: Move)
    requires Consistent(s) && s.installed && Verified(m) && m.survives
    requires m.request.Load? && m.request.restore && !m.request.bundle.preview
    requires var id := m.request.bundle.id; Registered(s.audit, id) && ActiveOf(s) != Some(id)
    requires m.request.bundle.rowCount == |m.request.bundle.id.manifest.rows|
    ensures var id := m.request.bundle.id;
            Step(s, m).1.Applied? <==>
              && m.request.expected == ActiveOf(s)
              && (id.manifest.coverage.None? && s.binding.Some? ==> id in s.adoptions)
  {
    hide TableOf, Upserted, LoadCounts, OwnRows, DistinctKeys;
    var id := m.request.bundle.id;
    assert s.audit[id.version].manifest == id.manifest;
    assert DistinctKeys(id.manifest.rows);
  }

  /**
   * Once a scope is bound, by a first candidate or by adopting a legacy snapshot, every contract in
   * the warehouse lies in it; an active population snapshot has always bound its scope.
   */
  lemma ActiveMembersInScope(s: State, k: Key)
    requires Consistent(s) && s.active.Some? && k in s.table
    ensures s.active.value.id.manifest.coverage.Some? ==>
              s.binding == Some(s.active.value.id.manifest.coverage.value.scope)
    ensures s.binding.Some? ==> s.binding.value.Covers(s.table[k].row.signing, s.table[k].row.department)
  {
    var id := s.active.value.id;
    assert EventOk(s, |s.events| - 1);
    assert s.audit[id.version].manifest == id.manifest;
    assert DistinctKeys(id.manifest.rows);
    var i :| 0 <= i < |id.manifest.rows| && id.manifest.rows[i].key == k;
    RowMapAt(id.manifest.rows, i);
  }

  /** Two candidates built on the same active snapshot: once one is applied the other is stale. */
  lemma OneSuccessorPerParent(s: State, a: Move, b: Move)
    requires Consistent(s) && Verified(a) && Verified(b)
    requires a.request.Load? && b.request.Load? && !a.request.restore && !b.request.restore
    requires a.request.bundle.id.manifest.coverage.Some? && b.request.bundle.id.manifest.coverage.Some?
    requires a.request.bundle.id.manifest.coverage.value.parent == b.request.bundle.id.manifest.coverage.value.parent
    requires a.request.bundle.id != b.request.bundle.id && Step(s, a).1.Applied?
    ensures Step(Step(s, a).0, b).1.Refused?
  {
    hide TableOf, Upserted, LoadCounts, OwnRows, DistinctKeys, Consistent;
    AppliedLoad(s, a);
    StepConsistent(s, a);
    EnsureConsistent(s);
    EnsureConsistent(Step(s, a).0);
    ParentWasActive(s, a);
    hide Step, Ensure;
    var t := Step(s, a).0;
    assert Ensure(t).active == Some(a.request.bundle.id);
    StaleRefused(t, b);
  }

  lemma ParentWasActive(s: State, a: Move)
    requires a.request.Load? && !a.request.restore && a.request.bundle.id.manifest.coverage.Some? && Step(s, a).1.Applied?
    ensures Ensure(s).Ready? && a.request.bundle.id.manifest.coverage.value.parent == Ensure(s).active
    ensures Ensure(s).active != Some(a.request.bundle.id)
  {
    hide TableOf, Upserted, LoadCounts, OwnRows, DistinctKeys, Ensure;
  }

  lemma StaleRefused(s: State, b: Move)
    requires b.request.Load? && !b.request.restore && b.request.bundle.id.manifest.coverage.Some?
    requires Ensure(s).Ready? && Ensure(s).active != b.request.bundle.id.manifest.coverage.value.parent
    requires Ensure(s).active != Some(b.request.bundle.id)
    ensures Step(s, b).1.Refused?
  {
    hide TableOf, Upserted, LoadCounts, OwnRows, DistinctKeys, Ensure;
  }
}

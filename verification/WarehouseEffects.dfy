/** When loads and adoptions take effect, and what they then leave, in the fields of the tables. */
module WarehouseEffects {
  import opened Wrappers
  import opened Sets
  import opened Warehouse
  import opened WarehouseSync
  import opened WarehouseResults

  /** A signing date and department inside a scope. */
  predicate Member(row: Contract, from: int, to: int) {
    row.department == "Antioquia" && row.signing.Some? && from <= row.signing.value < to
  }

  // ---- Loading ----------------------------------------------------------------------------

  /** A bundle that the verifier lets through to the tables: as many distinct rows as it says. */
  predicate Whole(b: Bundle) {
    && b.rowCount == |b.id.manifest.rows|
    && forall i, j :: 0 <= i < j < |b.id.manifest.rows| ==> b.id.manifest.rows[i].key != b.id.manifest.rows[j].key
  }

  /**
   * When a new population candidate takes effect: exactly when it is complete and built on the
   * active snapshot, inside a scope the workspace can have, and keeps every contract; it may add
   * any number of others.
   */
  lemma CandidateApplies(s: State, m: Move)
    requires Consistent(s) && s.installed && m.survives
    requires m.request.Load? && !m.request.restore && !m.request.bundle.preview && Whole(m.request.bundle)
    requires m.request.bundle.id.version !in s.audit && m.request.bundle.id.manifest.coverage.Some?
    ensures var id := m.request.bundle.id;
            var c, rows := id.manifest.coverage.value, id.manifest.rows;
            Step(s, m).1.Applied? <==>
              && c.authoritative && c.complete && c.bounded && c.scope.from < c.scope.to
              && c.parent == ActiveOf(s) && c.parent == (if c.baseline.Some? then Some(c.baseline.value.id) else None)
              && (s.binding.Some? ==> s.binding.value == c.scope)
              && (forall i :: 0 <= i < |rows| ==> Member(rows[i], c.scope.from, c.scope.to))
              && (s.active.Some? ==>
                    && s.binding.Some? && c.baseline.Some? && s.table.Keys == c.baseline.value.keys
                    && forall k :: k in s.table ==> exists i :: 0 <= i < |rows| && rows[i].key == k)
  {
    CandidateAdmitted(s, m);
    NotActive(s, m.request.bundle.id);
    hide Step, Consistent, Guard, TableOf, OwnRows, DistinctKeys;
    var id := m.request.bundle.id;
    CandidateGuarded(s, id, id.manifest.coverage.value, m.request.expected);
  }

  lemma CandidateAdmitted(s: State, m: Move)
    requires Consistent(s) && s.installed && m.survives
    requires m.request.Load? && !m.request.restore && !m.request.bundle.preview && Whole(m.request.bundle)
    requires m.request.bundle.id.version !in s.audit && m.request.bundle.id.manifest.coverage.Some?
    ensures var id := m.request.bundle.id;
            Step(s, m).1.Applied? <==>
              CoverageOk(id.manifest.coverage.value) && Guard(s, id, ActiveOf(s), false, false, m.request.expected)
  {
    NotActive(s, m.request.bundle.id);
    hide TableOf, Upserted, LoadCounts, OwnRows, TableOk, AuditOk, ScopeOk, EventOk, Guard, CoverageOk;
    GuardAuthority(s, m.request.bundle.id, m.request.expected);
    assert DistinctKeys(m.request.bundle.id.manifest.rows);
  }

  lemma GuardAuthority(s: State, id: Identity, expected: Option<Identity>)
    requires id.manifest.coverage.Some?
    ensures Guard(s, id, ActiveOf(s), false, false, expected) ==> id.manifest.coverage.value.authoritative
  {
  }

  lemma CandidateGuarded(s: State, id: Identity, c: Coverage, expected: Option<Identity>)
    requires id.manifest.coverage == Some(c) && ActiveOf(s) != Some(id)
    ensures CoverageOk(c) && Guard(s, id, ActiveOf(s), false, false, expected) <==>
              && c.authoritative && c.complete && c.bounded && c.scope.from < c.scope.to
              && c.parent == ActiveOf(s) && c.parent == (if c.baseline.Some? then Some(c.baseline.value.id) else None)
              && (s.binding.Some? ==> s.binding.value == c.scope)
              && (forall i :: 0 <= i < |id.manifest.rows| ==> Member(id.manifest.rows[i], c.scope.from, c.scope.to))
              && (s.active.Some? ==>
                    && s.binding.Some? && c.baseline.Some? && s.table.Keys == c.baseline.value.keys
                    && forall k :: k in s.table ==> exists i :: 0 <= i < |id.manifest.rows| && id.manifest.rows[i].key == k)
  {
    var rows := id.manifest.rows;
    if s.table.Keys <= Keys(rows) {
      forall k | k in s.table ensures exists i :: 0 <= i < |rows| && rows[i].key == k { assert k in Keys(rows); }
    }
    assert Within(rows, c.scope) <==> forall i :: 0 <= i < |rows| ==> Member(rows[i], c.scope.from, c.scope.to);
  }

  lemma NotActive(s: State, id: Identity)
    requires Consistent(s) && id.version !in s.audit
    ensures ActiveOf(s) != Some(id)
  {
    if s.active.Some? { assert EventOk(s, |s.events| - 1); }
  }

  /** The tables other than the contracts after an applied load: one event, one pointer, one audit row if new. */
  lemma LoadRecords(s: State, m: Move)
    requires Consistent(s) && s.installed && Verified(m) && m.request.Load? && Step(s, m).1.Applied?
    ensures var id, t, counts := m.request.bundle.id, Step(s, m).0, Step(s, m).1.counts;
            var known, rows := id.version in s.audit, m.request.bundle.id.manifest.rows;
            && t.events == s.events + [Event(id, ActiveOf(s), if known then Restoration else Activation, |rows|, Some(counts))]
            && t.active == Some(Pointer(id, |s.events| + 1))
            && t.audit == (if known then s.audit
                           else s.audit[id.version := Audit(id.manifest, id.manifest.finishedAt, |rows|, counts)])
            && t.evidence == s.evidence + {id} && t.adoptions == s.adoptions && t.installed
            && t.binding == (if s.binding.None? && id.manifest.coverage.Some? && !m.request.restore
                             then Some(id.manifest.coverage.value.scope) else s.binding)
            && counts.inserted == |Keys(rows) - s.table.Keys| && counts.updated == |Keys(rows) * s.table.Keys|
            && counts.deleted == |s.table.Keys - Keys(rows)|
  {
    hide *;
    AppliedShape(s, m);
    AppliedStart(s, m);
    InstalledReady(s);
    var id, registered := m.request.bundle.id, m.request.bundle.id.version in s.audit;
    AllUpdated(StartOf(s, m), id, ActiveOf(s), registered);
    StartIs(s, m);
    SynchronisedRecords(StartOf(s, m), id, ActiveOf(s), registered);
  }

  lemma InstalledReady(s: State)
    requires Consistent(s) && s.installed
    ensures Ensure(s) == Ready(s, ActiveOf(s))
  {
    hide TableOf, AuditOk, ScopeOk, EventOk;
  }

  lemma StartIs(s: State, m: Move)
    requires m.request.Load? && Ensure(s) == Ready(s, ActiveOf(s)) && ActiveOf(s) != Some(m.request.bundle.id)
    ensures StartOf(s, m) == s.(binding := if s.binding.None? && m.request.bundle.id.manifest.coverage.Some? && !m.request.restore
                                           then Some(m.request.bundle.id.manifest.coverage.value.scope) else s.binding)
  {
    hide Ensure, ActiveOf;
  }

  lemma SynchronisedRecords(s: State, id: Identity, active: Option<Identity>, known: bool)
    ensures var (t, reply) := Synchronised(s, id, active, known);
            var rows, counts := id.manifest.rows, LoadCounts(s.table, id.manifest.rows);
            && reply == Applied(|rows|, counts)
            && t.events == s.events + [Event(id, active, if known then Restoration else Activation, |rows|, Some(counts))]
            && t.active == Some(Pointer(id, |s.events| + 1))
            && t.audit == (if known then s.audit
                           else s.audit[id.version := Audit(id.manifest, id.manifest.finishedAt, |rows|, counts)])
            && t.evidence == s.evidence + {id} && t.adoptions == s.adoptions && t.installed == s.installed
            && t.binding == s.binding
  {
    hide LoadCounts, Upserted, Deleted;
  }

  /** Every stored row with an incoming key is updated, because no row is skipped. */
  lemma AllUpdated(s: State, id: Identity, active: Option<Identity>, registered: bool)
    requires Loadable(s, id, active, registered)
    ensures var rows := id.manifest.rows;
            LoadCounts(s.table, rows) ==
            Counts(|Keys(rows) - s.table.Keys|, |Keys(rows) * s.table.Keys|, |s.table.Keys - Keys(rows)|)
  {
    hide Consistent, TableOf, OwnRows, DistinctKeys, Keys;
    forall k | k in Keys(id.manifest.rows) && k in s.table ensures s.table[k].row != RowMap(id.manifest.rows)[k] {
      NoRowSkipped(s, id, k);
    }
    assert Differing(s.table, id.manifest.rows) == Keys(id.manifest.rows) * s.table.Keys;
  }

  /** Loading what is active again changes no contract and only registers it, adopted where it has to be. */
  lemma LoadUnchanged(s: State, m: Move)
    requires Consistent(s) && s.installed && m.survives
    requires m.request.Load? && !m.request.bundle.preview && ActiveOf(s) == Some(m.request.bundle.id)
    ensures var id := m.request.bundle.id;
            && (Step(s, m).1 == Unchanged(m.request.bundle.rowCount) <==>
                  (id.manifest.coverage.None? && s.binding.Some? ==> id in s.adoptions))
            && (Step(s, m).1.Unchanged? ==> Step(s, m).0 == s.(evidence := s.evidence + {id}))
            && (!Step(s, m).1.Unchanged? ==> Step(s, m).0 == s)
  {
    hide TableOf, Upserted, LoadCounts, OwnRows, DistinctKeys;
    assert EventOk(s, |s.events| - 1);
    assert s.audit[m.request.bundle.id.version].manifest == m.request.bundle.id.manifest;
  }

  // ---- Adoption ---------------------------------------------------------------------------

  /**
   * A legacy snapshot is adopted exactly when it is the active one, the record proves its keys and
   * that all its rows lie in the scope, and neither another scope nor another record stands already.
   */
  lemma AdoptExact(s: State, m: Move)
    requires Consistent(s) && s.installed && m.request.Adopt?
    ensures var id, record := m.request.bundle.id, m.request.record;
            var rows, t := id.manifest.rows, Step(s, m).0;
            && (Step(s, m).1 == Adopted <==>
                  && m.survives && m.request.valid && ActiveOf(s) == Some(id) && record.keys == s.table.Keys
                  && (forall i :: 0 <= i < |rows| ==> Member(rows[i], record.scope.from, record.scope.to))
                  && (s.binding.Some? ==> s.binding.value == record.scope)
                  && (id in s.adoptions ==> s.adoptions[id] == record))
            && (Step(s, m).1 == Adopted ==>
                  t == s.(binding := Some(record.scope), adoptions := s.adoptions[id := record], evidence := s.evidence + {id}))
            && (Step(s, m).1 != Adopted ==> Step(s, m).1.Refused? && t == s)
  {
    hide ScopeOk, OwnRows, DistinctKeys;
    var id := m.request.bundle.id;
    if ActiveOf(s) == Some(id) {
      assert EventOk(s, |s.events| - 1);
      assert s.audit[id.version].manifest == id.manifest;
      TableOfSize(id.manifest);
      PlainTable(id.manifest);
    }
  }

  lemma PlainTable(manifest: Snapshot)
    ensures Plain(TableOf(manifest)) == RowMap(manifest.rows)
  {
  }

  // ---- Older tables -----------------------------------------------------------------------

  /**
   * A table from before the activation history is taken over exactly when all its rows name one
   * snapshot and that snapshot's audit has its manifest, its time and the size of the table.
   */
  lemma LegacyExact(s: State, k: Key)
    requires !s.installed && k in s.table
    ensures var (version, manifest, loadedAt) := (s.table[k].row.version, s.table[k].manifest, s.table[k].loadedAt);
            && (Ensure(s).Ready? <==>
                  && (forall o :: o in s.table ==>
                        s.table[o].row.version == version && s.table[o].manifest == manifest && s.table[o].loadedAt == loadedAt)
                  && version in s.audit && s.audit[version].manifest == manifest
                  && s.audit[version].finishedAt == loadedAt && s.audit[version].sourceRows == |s.table|)
            && (Ensure(s).Ready? ==>
                  var id := Identity(version, manifest);
                  && Ensure(s).active == Some(id)
                  && Ensure(s).state == s.(installed := true, active := Some(Pointer(id, |s.events| + 1)),
                                           events := s.events + [Event(id, None, LegacyBaseline, |s.table|, None)]))
  {
    var origin := Origin(s.table[k]);
    assert origin in Origins(s.table);
    if |Origins(s.table)| == 1 {
      forall o | o in s.table ensures Origin(s.table[o]) == origin { SoleOrigin(s.table, origin, o); }
      forall o | o in Origins(s.table) ensures o == origin { }
    }
    if forall o :: o in s.table ==> Origin(s.table[o]) == origin {
      assert Origins(s.table) == {origin};
    }
  }
}

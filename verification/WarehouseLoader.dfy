/**
 * The loader: each method is one locked transaction, worked out on copies of the tables and
 * committed at its end.
 */
module WarehouseLoader {
  import opened Wrappers
  import opened Sets
  import opened Warehouse
  import opened WarehouseSync
  import opened WarehouseResults

  /** `metadata.ensure`: reads the active snapshot, starting the history of an older table if needed. */
  method EnsureActivation(s: State) returns (r: Ensured)
    ensures r == Ensure(s)
  {
    hide LegacyFrom;
    if s.installed {
      if s.active != Latest(s.events) { return Failed; }
      if s.active.None? && |s.table| != 0 { return Failed; }
      return Ready(s, if s.active.Some? then Some(s.active.value.id) else None);
    }
    if |s.table| == 0 { return Ready(s.(installed := true), None); }
    var groups := Origins(s.table);
    if |groups| != 1 { return Failed; }
    var origin :| origin in groups;
    forall other | other in groups ensures other == origin { SubsetSize({origin, other}, groups); }
    return LegacyFrom(s, origin);
  }

  /** Copies the incoming rows to a table of their own. */
  method CopyIncoming(rows: seq<Contract>) returns (incoming: map<Key, Contract>)
    ensures incoming == RowMap(rows)
  {
    incoming := map[];
    for i := 0 to |rows|
      invariant incoming == RowMap(rows[..i])
    {
      assert rows[..i + 1][..i] == rows[..i];
      incoming := incoming[rows[i].key := rows[i]];
    }
    assert rows[..|rows|] == rows;
  }

  /** Inserts each row, or updates the stored one when its copied columns differ. */
  method Upsert(table: map<Key, Stored>, rows: seq<Contract>, manifest: Snapshot) returns (result: map<Key, Stored>)
    ensures result == Upserted(table, rows, manifest)
  {
    result := table;
    for i := 0 to |rows|
      invariant result == Upserted(table, rows[..i], manifest)
    {
      assert rows[..i + 1][..i] == rows[..i];
      var row := rows[i];
      if row.key !in result || result[row.key].row != row {
        result := result[row.key := Stored(row, manifest, manifest.finishedAt)];
      }
    }
    assert rows[..|rows|] == rows;
  }

  method Synchronise(table: map<Key, Stored>, rows: seq<Contract>, manifest: Snapshot)
    returns (result: map<Key, Stored>, counts: Counts)
    ensures counts == LoadCounts(table, rows)
    ensures result == Upserted(Deleted(table, rows), rows, manifest)
  {
    hide Upserted, Keys;
    var incoming := CopyIncoming(rows);
    var differing := set k | k in incoming && k in table && table[k].row != incoming[k];
    assert differing == Differing(table, rows);
    counts := Counts(|incoming.Keys - table.Keys|, |differing|, |table.Keys - incoming.Keys|);
    var kept := map k | k in table && k in incoming :: table[k];
    assert kept == Deleted(table, rows);
    result := Upsert(kept, rows, manifest);
  }

  class WarehouseLoader {
    var table: map<Key, Stored>
    var audit: map<string, Audit>
    var installed: bool
    var active: Option<Pointer>
    var events: seq<Event>
    var binding: Option<Warehouse.Campaign.Scope>
    var evidence: set<Identity>
    var adoptions: map<Identity, Adoption>

    function Tables(): State
      reads this
    {
      State(table, audit, installed, active, events, binding, evidence, adoptions)
    }

    constructor ()
      ensures Tables() == EMPTY && Consistent(Tables())
    {
      table, audit, installed, active, events := map[], map[], false, None, [];
      binding, evidence, adoptions := None, {}, map[];
      new;
      EmptyConsistent();
    }

    method Commit(s: State)
      modifies this
      ensures Tables() == s
    {
      table, audit, installed, active, events := s.table, s.audit, s.installed, s.active, s.events;
      binding, evidence, adoptions := s.binding, s.evidence, s.adoptions;
    }

    /** Loads a verified bundle, or restores a registered one. */
    method LoadBundle(b: Bundle, restore: bool, expected: Option<Identity>, survives: bool) returns (reply: Reply)
      modifies this
      ensures (Tables(), reply) == Step(old(Tables()), Move(Load(b, restore, expected), survives))
      ensures old(Consistent(Tables())) && OwnRows(b.id) ==> Consistent(Tables())
      ensures old(Consistent(Tables())) && OwnRows(b.id) && reply.Applied? ==>
                && table == TableOf(b.id.manifest) && active.Some? && active.value.id == b.id
                && |old(table)| + reply.counts.inserted - reply.counts.deleted == |table|
                && reply.counts.inserted + reply.counts.updated == |table|
                && (!restore ==> reply.counts.deleted == 0)
    {
      hide Consistent, OwnRows, Guard, Ensure, Upserted, LoadCounts, TableOf;
      ghost var before := Tables();
      ghost var m := Move(Load(b, restore, expected), survives);
      reply := RunLoad(b, restore, expected, survives);
      if Consistent(before) && OwnRows(b.id) {
        StepConsistent(before, m);
        if reply.Applied? {
          AppliedLoad(before, m);
          if !restore { OnlyRestoresDelete(before, m); }
        }
      }
    }

    method RunLoad(b: Bundle, restore: bool, expected: Option<Identity>, survives: bool) returns (reply: Reply)
      modifies this
      ensures (Tables(), reply) == Loaded(old(Tables()), b, restore, expected, survives)
    {
      hide Admit, Ensure, Upserted, LoadCounts;
      var id, rows := b.id, b.id.manifest.rows;
      var registered := id.version in audit;
      var ensured := EnsureActivation(Tables());
      match Admit(Tables(), ensured, b, restore, expected, survives) {
        case Ends(state, answer) =>
          Commit(state);
          reply := answer;
        case Replaces(ready, current) =>
          var synchronised, counts := Synchronise(ready.table, rows, id.manifest);
          var working := ready.(table := synchronised, evidence := ready.evidence + {id});
          if !registered {
            var record := Audit(id.manifest, id.manifest.finishedAt, |rows|, counts);
            working := working.(audit := working.audit[id.version := record]);
          }
          Commit(Recorded(working, id, current, if registered then Restoration else Activation, |rows|, Some(counts)));
          reply := Applied(|rows|, counts);
      }
    }

    /** Binds the active legacy snapshot to a population scope. */
    method AdoptBundle(b: Bundle, record: Adoption, valid: bool, survives: bool) returns (reply: Reply)
      modifies this
      ensures (Tables(), reply) == Step(old(Tables()), Move(Adopt(b, record, valid), survives))
      ensures old(Consistent(Tables())) ==> Consistent(Tables())
    {
      hide Consistent, OwnRows, Ensure, RowMap, Plain;
      ghost var before := Tables();
      reply := RunAdopt(b, record, valid, survives);
      if Consistent(before) { AdoptConsistent(before, Move(Adopt(b, record, valid), survives)); }
    }

    method RunAdopt(b: Bundle, record: Adoption, valid: bool, survives: bool) returns (reply: Reply)
      modifies this
      ensures (Tables(), reply) == Adopting(old(Tables()), b, record, valid, survives)
    {
      hide Ensure, AdoptingFrom;
      var ensured := EnsureActivation(Tables());
      var outcome := AdoptingFrom(Tables(), ensured, b, record, valid, survives);
      Commit(outcome.0);
      reply := outcome.1;
    }
  }
}

/**
 * What every request keeps: one candidate slot, bounded retention, a protected pointer, an
 * activation log that replays to the pointer, and immutable sealed publications.
 */
module PublicationLifecycle {
  import opened Wrappers
  import opened Publication

  // ---- Invariant --------------------------------------------------------------------------

  /** One candidate at most, and candidates and retained publications together fit the capacity. */
  predicate SlotsOk(rows: map<Id, Row>) {
    && |Candidates(rows)| <= 1
    && |Candidates(rows)| + |RetainedIds(rows)| <= MAX_RETAINED
  }

  predicate RowOk(id: Id, row: Row) {
    && CanonicalId(id)
    && (row.everActivated <==> row.phase in {Retained, Pruned})
    && (row.phase in {Sealed, Retained, Pruned} ==>
          row.builtAt.Some? && row.receipt.Some? && ValidReceipt(id, row, row.receipt.value))
    && (row.retainUntil.Some? || row.deactivatedAt.Some? ==> row.everActivated)
    && (row.phase == Building ==> row.failure.None?) && (row.phase == Failed ==> row.failure.Some?)
  }

  predicate RowsOk(rows: map<Id, Row>) { forall id :: id in rows ==> RowOk(id, rows[id]) }

  /** A retained publication that is not the active one stays for a day after it was deactivated. */
  predicate ExpiryOk(row: Row) {
    row.retainUntil.Some? && row.deactivatedAt.Some? && row.deactivatedAt.value + RETENTION <= row.retainUntil.value
  }

  predicate PointerOk(r: Registry) {
    && (r.active.id.Some? ==> r.In(r.active.id.value, Retained))
    && (r.active.previous.Some? ==> r.In(r.active.previous.value, Retained) && r.active.previous != r.active.id)
    && (r.active.id.None? ==> r.active.previous.None?)
    && (forall id :: id in r.rows && r.In(id, Retained) && r.active.id != Some(id) ==> ExpiryOk(r.rows[id]))
  }

  function ReplayLog(log: seq<Event>): Pointer {
    if log == [] then EMPTY.active
    else
      var before, last := ReplayLog(log[..|log| - 1]), log[|log| - 1];
      Pointer(Some(last.id), before.generation + 1, before.id, Some(last.at))
  }

  function LoggedIds(log: seq<Event>): set<Id> { set i | 0 <= i < |log| :: log[i].id }

  /** Each event continues from the pointer that the events before it left behind. */
  predicate EventOk(log: seq<Event>, i: nat)
    requires i < |log|
  {
    var before := ReplayLog(log[..i]);
    && log[i].generation == i + 1 && log[i].previous == before.id && before.id != Some(log[i].id)
    && (log[i].restoration ==> log[i].id in LoggedIds(log[..i]))
  }

  predicate HistoryOk(r: Registry) {
    && r.active == ReplayLog(r.log) && r.active.generation == |r.log|
    && (forall i :: 0 <= i < |r.log| ==> EventOk(r.log, i))
    && LoggedIds(r.log) == set id | id in r.rows && r.rows[id].everActivated
  }

  /** A publication is pinned to the pointer that some point of the history left. */
  predicate PinOk(log: seq<Event>, row: Row) {
    row.expectedGeneration <= |log| && row.expectedId == ReplayLog(log[..row.expectedGeneration]).id
  }

  predicate PinsOk(r: Registry) { forall id :: id in r.rows ==> PinOk(r.log, r.rows[id]) }

  predicate Consistent(r: Registry) {
    SlotsOk(r.rows) && RowsOk(r.rows) && PointerOk(r) && HistoryOk(r) && PinsOk(r)
  }

  lemma EmptyConsistent()
    ensures Consistent(EMPTY)
  {
  }

  // ---- The shape of a request's effect ----------------------------------------------------

  /** What can become of a candidate: bindings only grow, and sealed contents stay. */
  predicate PrivateChange(a: Row, b: Row) {
    && a.phase.Candidate() && (b.phase.Candidate() || b.phase == Discarded)
    && (forall k :: k in a.metadata ==> k in b.metadata && b.metadata[k] == a.metadata[k])
    && a.expectedId == b.expectedId && a.expectedGeneration == b.expectedGeneration
    && (a.expectedNodes.Some? ==> b.expectedNodes == a.expectedNodes)
    && a.everActivated == b.everActivated && a.retainUntil == b.retainUntil && a.deactivatedAt == b.deactivatedAt
    && (a.phase == Sealed ==> b.phase == Discarded && a.metadata == b.metadata && a.builtAt == b.builtAt && a.receipt == b.receipt)
  }

  /** A request leaves the registry alone, adds a candidate, changes one, activates, or prunes. */
  predicate Shape(r: Registry, m: Move, s: Registry) {
    || s == r
    || match m.request
       case Activate(id, _, _, restore) =>
         && id in r.rows && r.rows[id].phase in {Sealed, Retained} && r.active.id != Some(id)
         && (restore ==> r.rows[id].everActivated) && s == AfterActivation(r, id, restore, m.at)
       case Cleanup(ids) => SetOf(ids) <= Eligible(r, m.at.first) && s == AfterCleanup(r, SetOf(ids))
       case Reserve(id, metadata) =>
         && CanonicalId(id) && id !in r.rows && Candidates(r.rows) == {} && |RetainedIds(r.rows)| < MAX_RETAINED
         && s == WithRow(r, id, NewRow(metadata, r.active))
       case _ =>
         && m.request.id in r.rows && m.request.id in s.rows && s == WithRow(r, m.request.id, s.rows[m.request.id])
         && PrivateChange(r.rows[m.request.id], s.rows[m.request.id])
  }

  lemma StepShape(r: Registry, m: Move)
    ensures Shape(r, m, Step(r, m).0)
  {
    hide AfterActivation, AfterCleanup, Eligible, ValidReceipt, CanonicalId, Distinct, SafeCode, Candidates, RetainedIds;
    if m.request.Cleanup? && Step(r, m).0 != r {
      forall id | id in SetOf(m.request.ids) ensures id in Eligible(r, m.at.first) {
        var i :| 0 <= i < |m.request.ids| && m.request.ids[i] == id;
      }
    }
  }

  // ---- Requests that touch one private row ------------------------------------------------

  /** A row that no reader has ever seen, replaced by another such row. */
  predicate PrivateEdit(r: Registry, id: Id, row: Row) {
    && RowOk(id, row) && !row.everActivated
    && (id in r.rows ==> !r.rows[id].everActivated)
    && PinOk(r.log, row)
  }

  lemma PrivateSets(r: Registry, id: Id, row: Row)
    requires row.phase != Retained && (id in r.rows ==> r.rows[id].phase != Retained)
    ensures RetainedIds(WithRow(r, id, row).rows) == RetainedIds(r.rows)
    ensures Candidates(WithRow(r, id, row).rows) ==
            if row.phase.Candidate() then Candidates(r.rows) + {id} else Candidates(r.rows) - {id}
  {
  }

  lemma PrivateSlots(r: Registry, id: Id, row: Row)
    requires SlotsOk(r.rows) && row.phase != Retained
    requires row.phase.Candidate() && id !in Candidates(r.rows) ==>
               Candidates(r.rows) == {} && |RetainedIds(r.rows)| < MAX_RETAINED
    requires id in r.rows ==> r.rows[id].phase != Retained
    ensures SlotsOk(WithRow(r, id, row).rows)
  {
    PrivateSets(r, id, row);
    hide Candidates, RetainedIds, WithRow;
    if id in Candidates(r.rows) { assert Candidates(r.rows) + {id} == Candidates(r.rows); }
  }

  lemma PrivateEditConsistent(r: Registry, id: Id, row: Row)
    requires Consistent(r) && PrivateEdit(r, id, row)
    requires row.phase.Candidate() && id !in Candidates(r.rows) ==>
               Candidates(r.rows) == {} && |RetainedIds(r.rows)| < MAX_RETAINED
    ensures Consistent(WithRow(r, id, row))
  {
    hide ValidReceipt, SlotsOk, EventOk, PinOk, CanonicalId;
    var s := WithRow(r, id, row);
    assert id in r.rows ==> RowOk(id, r.rows[id]);
    PrivateSlots(r, id, row);
    assert PointerOk(s);
    assert (set k | k in s.rows && s.rows[k].everActivated) == set k | k in r.rows && r.rows[k].everActivated;
  }

  lemma PrivateStepConsistent(r: Registry, m: Move)
    requires Consistent(r) && !m.request.Activate? && !m.request.Cleanup?
    ensures Consistent(Step(r, m).0)
  {
    StepShape(r, m);
    hide Step, ValidReceipt, SlotsOk, HistoryOk, PointerOk, PinOk, CanonicalId;
    var s := Step(r, m).0;
    if s != r {
      var id := m.request.id;
      if m.request.Reserve? {
        PinNow(r, m.request.metadata);
        PrivateEditConsistent(r, id, NewRow(m.request.metadata, r.active));
      } else {
        assert RowOk(id, r.rows[id]) && PinOk(r.log, r.rows[id]);
        EditedRow(r, m);
        SamePin(r.log, r.rows[id], s.rows[id]);
        PrivateEditConsistent(r, id, s.rows[id]);
      }
    }
  }

  lemma PinNow(r: Registry, metadata: Metadata)
    requires HistoryOk(r)
    ensures PinOk(r.log, NewRow(metadata, r.active))
  {
    assert r.log[..|r.log|] == r.log;
  }

  lemma EditedRow(r: Registry, m: Move)
    requires !m.request.Activate? && !m.request.Cleanup? && !m.request.Reserve?
    requires m.request.id in r.rows && RowOk(m.request.id, r.rows[m.request.id])
    requires Step(r, m).0 != r
    ensures m.request.id in Step(r, m).0.rows
    ensures RowOk(m.request.id, Step(r, m).0.rows[m.request.id])
  {
    hide CanonicalId, SafeCode, Distinct;
  }

  // ---- Activation -------------------------------------------------------------------------

  lemma ActivationPhases(r: Registry, id: Id, restore: bool, at: Readings)
    requires id in r.rows
    ensures var rows := AfterActivation(r, id, restore, at).rows;
            && rows.Keys == r.rows.Keys
            && forall k :: k in rows ==> rows[k].phase == if k == id then Retained else r.rows[k].phase
  {
  }

  lemma ActivationSets(r: Registry, id: Id, restore: bool, at: Readings)
    requires id in r.rows
    ensures Candidates(AfterActivation(r, id, restore, at).rows) == Candidates(r.rows) - {id}
    ensures RetainedIds(AfterActivation(r, id, restore, at).rows) == RetainedIds(r.rows) + {id}
  {
    ActivationPhases(r, id, restore, at);
    hide AfterActivation, RowAfter;
  }

  lemma ActivationSlots(r: Registry, id: Id, restore: bool, at: Readings)
    requires SlotsOk(r.rows) && id in r.rows && r.rows[id].phase in {Sealed, Retained}
    ensures SlotsOk(AfterActivation(r, id, restore, at).rows)
  {
    ActivationSets(r, id, restore, at);
    assert r.rows[id].phase == Sealed ==> id in Candidates(r.rows);
    assert r.rows[id].phase == Retained ==> id in RetainedIds(r.rows);
    hide AfterActivation, Candidates, RetainedIds;
    if r.rows[id].phase == Retained { assert RetainedIds(r.rows) + {id} == RetainedIds(r.rows); }
  }

  lemma ActivationPointer(r: Registry, id: Id, restore: bool, at: Readings)
    requires PointerOk(r) && RowsOk(r.rows) && at.first <= at.second
    requires id in r.rows && r.rows[id].phase in {Sealed, Retained} && r.active.id != Some(id)
    ensures PointerOk(AfterActivation(r, id, restore, at))
  {
    hide ValidReceipt, CanonicalId;
    var s := AfterActivation(r, id, restore, at);
    forall k | s.In(k, Retained) && s.active.id != Some(k) ensures ExpiryOk(s.rows[k]) {
      assert RowOk(k, r.rows[k]);
      if r.active.id == Some(k) {
        assert k in Extending(r.active, id);
      }
    }
  }

  lemma LoggedSnoc(log: seq<Event>, e: Event)
    ensures LoggedIds(log + [e]) == LoggedIds(log) + {e.id}
  {
    var all := log + [e];
    assert forall i :: 0 <= i < |log| ==> all[i] == log[i];
    assert all[|log|] == e;
    forall k | k in LoggedIds(log) ensures k in LoggedIds(all) {
      var i :| 0 <= i < |log| && log[i].id == k;
      assert all[i].id == k;
    }
  }

  lemma ActivatedEver(r: Registry, id: Id, restore: bool, at: Readings)
    requires id in r.rows
    ensures (set k | k in AfterActivation(r, id, restore, at).rows && AfterActivation(r, id, restore, at).rows[k].everActivated)
            == (set k | k in r.rows && r.rows[k].everActivated) + {id}
  {
  }

  lemma EventsKept(log: seq<Event>, e: Event)
    requires forall i :: 0 <= i < |log| ==> EventOk(log, i)
    ensures forall i :: 0 <= i < |log| ==> EventOk(log + [e], i)
  {
    forall i | 0 <= i < |log| ensures EventOk(log + [e], i) {
      assert EventOk(log, i);
      assert (log + [e])[..i] == log[..i] && (log + [e])[i] == log[i];
    }
  }

  lemma NextEventOk(log: seq<Event>, e: Event)
    requires e.generation == |log| + 1 && e.previous == ReplayLog(log).id && e.previous != Some(e.id)
    requires e.restoration ==> e.id in LoggedIds(log)
    ensures EventOk(log + [e], |log|)
    ensures ReplayLog(log + [e]) == Pointer(Some(e.id), ReplayLog(log).generation + 1, ReplayLog(log).id, Some(e.at))
  {
    hide LoggedIds;
    assert (log + [e])[..|log|] == log;
  }

  lemma ActivationHistory(r: Registry, id: Id, restore: bool, at: Readings)
    requires HistoryOk(r) && id in r.rows && r.active.id != Some(id)
    requires restore ==> r.rows[id].everActivated
    ensures HistoryOk(AfterActivation(r, id, restore, at))
  {
    hide LoggedIds, RowAfter, EventOk, ReplayLog;
    var event := NextEvent(r, id, restore, at);
    LoggedSnoc(r.log, event);
    ActivatedEver(r, id, restore, at);
    EventsKept(r.log, event);
    NextEventOk(r.log, event);
  }

  lemma ActivationRow(r: Registry, k: Id, id: Id, at: Readings)
    requires k in r.rows && RowOk(k, r.rows[k]) && (r.active.Protects(k) ==> r.rows[k].phase == Retained)
    requires k == id ==> r.rows[k].phase in {Sealed, Retained}
    ensures RowOk(k, RowAfter(r, k, id, at))
  {
    hide CanonicalId;
  }

  lemma ActivationRows(r: Registry, id: Id, restore: bool, at: Readings)
    requires RowsOk(r.rows) && PointerOk(r) && id in r.rows && r.rows[id].phase in {Sealed, Retained}
    ensures RowsOk(AfterActivation(r, id, restore, at).rows)
  {
    hide RowOk, ExpiryOk, RowAfter;
    forall k | k in r.rows ensures RowOk(k, RowAfter(r, k, id, at)) {
      ActivationRow(r, k, id, at);
    }
  }

  lemma ActivationPins(r: Registry, id: Id, restore: bool, at: Readings)
    requires PinsOk(r)
    ensures PinsOk(AfterActivation(r, id, restore, at))
  {
    var s := AfterActivation(r, id, restore, at);
    forall k | k in s.rows ensures PinOk(s.log, s.rows[k]) {
      assert PinOk(r.log, r.rows[k]);
      assert s.log[..r.rows[k].expectedGeneration] == r.log[..r.rows[k].expectedGeneration];
    }
  }

  lemma ActivationConsistent(r: Registry, id: Id, restore: bool, at: Readings)
    requires Consistent(r) && at.first <= at.second
    requires id in r.rows && r.rows[id].phase in {Sealed, Retained} && r.active.id != Some(id)
    requires restore ==> r.rows[id].everActivated
    ensures Consistent(AfterActivation(r, id, restore, at))
  {
    hide SlotsOk, RowsOk, PointerOk, HistoryOk, PinsOk;
    ActivationSlots(r, id, restore, at);
    ActivationPointer(r, id, restore, at);
    ActivationHistory(r, id, restore, at);
    ActivationRows(r, id, restore, at);
    ActivationPins(r, id, restore, at);
  }

  // ---- Cleanup ----------------------------------------------------------------------------

  lemma CleanupSlots(r: Registry, ids: set<Id>)
    requires SlotsOk(r.rows) && ids <= RetainedIds(r.rows)
    ensures SlotsOk(AfterCleanup(r, ids).rows)
  {
    var rows := AfterCleanup(r, ids).rows;
    assert Candidates(rows) == Candidates(r.rows);
    assert RetainedIds(rows) == RetainedIds(r.rows) - ids;
  }

  lemma CleanupRows(r: Registry, ids: set<Id>)
    requires RowsOk(r.rows) && ids <= RetainedIds(r.rows)
    ensures RowsOk(AfterCleanup(r, ids).rows)
    ensures forall k :: k in r.rows ==> AfterCleanup(r, ids).rows[k].everActivated == r.rows[k].everActivated
  {
    hide CanonicalId;
    var s := AfterCleanup(r, ids);
    forall k | k in s.rows ensures RowOk(k, s.rows[k]) {
      assert RowOk(k, r.rows[k]);
    }
  }

  lemma SamePin(log: seq<Event>, a: Row, b: Row)
    requires PinOk(log, a) && a.expectedId == b.expectedId && a.expectedGeneration == b.expectedGeneration
    ensures PinOk(log, b)
  {
  }

  lemma CleanupConsistent(r: Registry, ids: set<Id>, at: int)
    requires Consistent(r) && ids <= Eligible(r, at)
    ensures Consistent(AfterCleanup(r, ids))
  {
    hide SlotsOk, RowsOk, EventOk, ExpiryOk, PinOk;
    CleanupSlots(r, ids);
    CleanupRows(r, ids);
    var s := AfterCleanup(r, ids);
    forall k | k in s.rows ensures PinOk(s.log, s.rows[k]) {
      assert PinOk(r.log, r.rows[k]);
      SamePin(r.log, r.rows[k], s.rows[k]);
    }
    assert (set k | k in s.rows && s.rows[k].everActivated) == set k | k in r.rows && r.rows[k].everActivated;
  }

  // ---- Every request, every run -----------------------------------------------------------

  lemma StepConsistent(r: Registry, m: Move)
    requires Consistent(r) && m.at.first <= m.at.second
    ensures Consistent(Step(r, m).0)
  {
    StepShape(r, m);
    hide Step, Consistent, AfterActivation, AfterCleanup, Eligible, CanonicalId;
    if Step(r, m).0 != r {
      match m.request {
        case Activate(id, _, _, restore) => ActivationConsistent(r, id, restore, m.at);
        case Cleanup(ids) => CleanupConsistent(r, SetOf(ids), m.at.first);
        case _ => PrivateStepConsistent(r, m);
      }
    }
  }

  /** Every registry reachable from an empty one by any requests satisfies the invariant. */
  lemma {:induction false} RunConsistent(r: Registry, moves: seq<Move>)
    requires Consistent(r) && forall i :: 0 <= i < |moves| ==> moves[i].at.first <= moves[i].at.second
    ensures Consistent(After(r, moves))
  {
    if moves != [] {
      var n := |moves| - 1;
      RunConsistent(r, moves[..n]);
      StepConsistent(After(r, moves[..n]), moves[n]);
    }
  }
}

/** What operators and pipelines can rely on over whole runs of publication requests. */
module PublicationResults {
  import opened Wrappers
  import opened Publication
  import opened PublicationLifecycle

  // ---- Capacity ---------------------------------------------------------------------------

  /** Activation re-checks the retention capacity; a reserved candidate can never fail that check. */
  lemma ActivationHasRoom(r: Registry, m: Move)
    requires Consistent(r) && m.request.Activate?
    ensures Step(r, m).1 != Refused(Capacity)
  {
    hide RowsOk, PointerOk, HistoryOk, PinsOk;
    var id := m.request.id;
    if r.In(id, Sealed) { assert id in Candidates(r.rows); }
  }

  /** A reservation is refused for capacity exactly when three publications are retained and no candidate exists. */
  lemma ReservationCapacity(r: Registry, m: Move)
    requires Consistent(r) && m.request.Reserve? && CanonicalId(m.request.id) && m.request.id !in r.rows
    ensures Step(r, m).1 == Refused(Capacity) <==> |RetainedIds(r.rows)| == MAX_RETAINED
  {
    hide RowsOk, PointerOk, HistoryOk, PinsOk;
  }

  // ---- Receipts ---------------------------------------------------------------------------

  /** The results a receipt lists for one node. */
  function Statuses(results: seq<NodeResult>, node: string): set<string> {
    set i | 0 <= i < |results| && results[i].node == node :: results[i].status
  }

  /**
   * Every node pinned for a sealed publication was reported exactly once, and successfully for its
   * kind; nothing else was required, and every published relation comes from a model.
   */
  lemma SealedReceiptCovers(r: Registry, id: Id, node: string)
    requires Consistent(r) && id in r.rows && r.rows[id].phase in {Sealed, Retained, Pruned}
    requires r.rows[id].receipt.Some? && r.rows[id].expectedNodes.Some?
    ensures var receipt := r.rows[id].receipt.value;
            && (node in r.rows[id].expectedNodes.value <==> node in receipt.models || node in receipt.tests)
            && (node in r.rows[id].expectedNodes.value ==>
                  Statuses(receipt.results, node) == {if HasPrefix(node, "model.") then "success" else "pass"})
  {
    hide SlotsOk, PointerOk, HistoryOk, PinsOk, CanonicalId;
    assert RowOk(id, r.rows[id]);
    var receipt := r.rows[id].receipt.value;
    assert node in r.rows[id].expectedNodes.value <==> node in receipt.required;
    assert node in receipt.required <==> node in SetOf(receipt.models) + SetOf(receipt.tests);
    if node in receipt.required {
      var status := if HasPrefix(node, "model.") then "success" else "pass";
      assert node in receipt.tests ==> node[0] == "test."[0];
      assert HasPrefix(node, "model.") ==> node[0] == "model."[0];
      assert NodeResult(node, status) in receipt.results;
      var i :| 0 <= i < |receipt.results| && receipt.results[i] == NodeResult(node, status);
      assert receipt.results[i].status in Statuses(receipt.results, node);
    }
  }

  // ---- Activation history -----------------------------------------------------------------

  lemma StepLog(r: Registry, m: Move)
    ensures var (s, reply) := Step(r, m);
            if reply.Activated? then
              && m.request.Activate? && s.log == r.log + [reply.event]
              && reply.event.id == m.request.id && s.active.generation == r.active.generation + 1
              && m.request.expectedId == r.active.id && m.request.expectedGeneration == r.active.generation
            else s.log == r.log && s.active == r.active
  {
    hide ValidReceipt, CanonicalId, Eligible;
  }

  lemma {:induction false} GenerationGrows(r: Registry, moves: seq<Move>, i: nat, j: nat)
    requires i <= j <= |moves|
    ensures After(r, moves[..i]).active.generation <= After(r, moves[..j]).active.generation
    ensures i < j && ReplyAt(r, moves, i).Activated? ==>
              After(r, moves[..i]).active.generation < After(r, moves[..j]).active.generation
    decreases j
  {
    hide Step;
    if i < j {
      GenerationGrows(r, moves, i, j - 1);
      assert moves[..j][..j - 1] == moves[..j - 1];
      StepLog(After(r, moves[..j - 1]), moves[j - 1]);
    }
  }

  /**
   * An activation pinned to an active identity and generation takes effect at most once over any
   * run, whoever sends it and whatever it activates.
   */
  lemma OncePerPin(r: Registry, moves: seq<Move>, i: nat, j: nat)
    requires i < j < |moves| && ReplyAt(r, moves, i).Activated? && ReplyAt(r, moves, j).Activated?
    ensures moves[i].request.expectedGeneration < moves[j].request.expectedGeneration
  {
    hide Step;
    StepLog(After(r, moves[..i]), moves[i]);
    StepLog(After(r, moves[..j]), moves[j]);
    GenerationGrows(r, moves, i, j);
  }

  /** The events a run added, in order. */
  function Added(r: Registry, moves: seq<Move>): seq<Event> {
    if moves == [] then []
    else
      var n := |moves| - 1;
      Added(r, moves[..n]) + match ReplyAt(r, moves, n) case Activated(e) => [e] case _ => []
  }

  /** The activation log is exactly the activations that took effect. */
  lemma {:induction false} LogRecordsActivations(r: Registry, moves: seq<Move>)
    ensures After(r, moves).log == r.log + Added(r, moves)
  {
    hide Step;
    if moves != [] {
      var n := |moves| - 1;
      LogRecordsActivations(r, moves[..n]);
      StepLog(After(r, moves[..n]), moves[n]);
    }
  }

  // ---- Expiry -----------------------------------------------------------------------------

  predicate NotEarlier(a: Option<int>, b: Option<int>) { a.Some? ==> b.Some? && a.value <= b.value }

  /** No request ever brings a retention limit forward. */
  lemma StepExpiry(r: Registry, m: Move, id: Id)
    requires Consistent(r) && id in r.rows
    ensures id in Step(r, m).0.rows && NotEarlier(r.rows[id].retainUntil, Step(r, m).0.rows[id].retainUntil)
  {
    StepShape(r, m);
    hide Step, ValidReceipt, CanonicalId, SlotsOk, PointerOk, HistoryOk, PinsOk, Eligible, Candidates, RetainedIds,
        SetOf, Extending;
    assert RowOk(id, r.rows[id]);
  }

  /** A pruned publication had been expired, unprotected, and deactivated for a full day. */
  lemma PrunedOnlyExpired(r: Registry, m: Move, id: Id)
    requires Consistent(r) && r.In(id, Retained) && !Step(r, m).0.In(id, Retained)
    ensures m.request.Cleanup? && id in m.request.ids && Step(r, m).0.In(id, Pruned)
    ensures !r.active.Protects(id) && r.rows[id].deactivatedAt.Some?
    ensures r.rows[id].deactivatedAt.value + RETENTION <= m.at.first
  {
    StepShape(r, m);
    hide Step, ValidReceipt, CanonicalId, SlotsOk, HistoryOk, PinsOk, Candidates, RetainedIds;
    assert RowOk(id, r.rows[id]);
  }

  // ---- Bindings ---------------------------------------------------------------------------

  /** Everything bound to a publication so far stays bound: metadata keys, pin and pinned nodes. */
  predicate Extends(a: Row, b: Row) {
    && (forall k :: k in a.metadata ==> k in b.metadata && b.metadata[k] == a.metadata[k])
    && a.expectedId == b.expectedId && a.expectedGeneration == b.expectedGeneration
    && (a.expectedNodes.Some? ==> b.expectedNodes == a.expectedNodes)
  }

  lemma StepExtends(r: Registry, m: Move, id: Id)
    requires id in r.rows
    ensures id in Step(r, m).0.rows && Extends(r.rows[id], Step(r, m).0.rows[id])
  {
    StepShape(r, m);
    hide Step, CanonicalId, Candidates, RetainedIds, Eligible, SetOf, Later, Extending;
  }

  lemma {:induction false} RunExtends(r: Registry, moves: seq<Move>, id: Id)
    requires id in r.rows
    ensures id in After(r, moves).rows && Extends(r.rows[id], After(r, moves).rows[id])
  {
    hide Step;
    if moves != [] {
      var n := |moves| - 1;
      RunExtends(r, moves[..n], id);
      StepExtends(After(r, moves[..n]), moves[n], id);
    }
  }
}

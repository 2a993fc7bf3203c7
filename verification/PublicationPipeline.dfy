/**
 * The pipeline's publication stages, pinned to the active publication its execution started from.
 * Between the transactions of a stage other operators may run requests of their own.
 */
module PublicationPipeline {
  import opened Wrappers
  import opened Publication
  import opened PublicationLifecycle
  import opened PublicationResults
  import opened PublicationControl

  /** The part of an execution's document that the publication stages read. */
  datatype Document = Document(id: Id, silverVersion: string, silverDigest: string,
                               expectedId: Option<Id>, expectedGeneration: nat)

  datatype Outcome = StoreError(error: Error) | StalePublication | PublicationConflict | Superseded
                   | NeedsBuild | Ready | Reached(generation: nat)

  type Script = seq<(Request, Findings)>

  function Bound(metadata: Metadata, key: string): Option<string> {
    if key in metadata then Some(metadata[key]) else None
  }

  /** The candidate is the execution's own: same pinned activation, same Silver snapshot. */
  predicate Owned(row: Row, doc: Document) {
    && row.expectedId == doc.expectedId && row.expectedGeneration == doc.expectedGeneration
    && Bound(row.metadata, "silver_version_id") == Some(doc.silverVersion)
    && Bound(row.metadata, "silver_manifest_sha256") == Some(doc.silverDigest)
  }

  method CandidateStage(store: PublicationStore, doc: Document, others: Script, f: Findings)
    returns (outcome: Outcome, ghost moves: seq<Move>)
    requires store.Valid()
    modifies store
    ensures store.Valid() && store.Registry() == After(old(store.Registry()), moves)
    ensures Within(old(store.now), moves, store.now)
    ensures outcome.NeedsBuild? || outcome.Ready? ==>
              && doc.id in store.rows && Owned(store.rows[doc.id], doc)
              && (outcome.Ready? <==> store.rows[doc.id].phase in {Sealed, Retained})
    ensures doc.id in old(store.rows) && CanonicalId(doc.id) ==>
              moves == [] && (outcome.NeedsBuild? || outcome.Ready? <==> Owned(old(store.rows)[doc.id], doc))
  {
    hide Kept, Step;
    moves := [];
    if !CanonicalId(doc.id) { return StoreError(Invalid), moves; }
    var row;
    if doc.id in store.rows {
      row := store.rows[doc.id];
    } else {
      moves := store.PerformAll(others);
      var metadata: Metadata := map["silver_version_id" := doc.silverVersion, "silver_manifest_sha256" := doc.silverDigest];
      var reply, m := store.ReserveCandidate(doc.id, metadata, f);
      assert (moves + [m])[..|moves|] == moves;
      moves := moves + [m];
      Reservation(After(old(store.Registry()), moves[..|moves| - 1]), m);
      if reply.Refused? { return StoreError(reply.error), moves; }
      row := reply.row;
    }
    if row.expectedId != doc.expectedId || row.expectedGeneration != doc.expectedGeneration {
      outcome := StalePublication;
    } else if Bound(row.metadata, "silver_version_id") != Some(doc.silverVersion)
              || Bound(row.metadata, "silver_manifest_sha256") != Some(doc.silverDigest) {
      outcome := PublicationConflict;
    } else {
      outcome := if row.phase in {Sealed, Retained} then Ready else NeedsBuild;
    }
  }

  /** A reservation answers with the row it leaves registered, or refuses. */
  lemma Reservation(r: Registry, m: Move)
    requires m.request.Reserve?
    ensures var (s, reply) := Step(r, m);
            reply.Refused? || (reply.Registered? && m.request.id in s.rows && s.rows[m.request.id] == reply.row)
  {
  }

  predicate IsOwnActivation(m: Move, doc: Document) {
    m.request == Activate(doc.id, doc.expectedId, doc.expectedGeneration, false)
  }

  method ActivateStage(store: PublicationStore, doc: Document, first: Script, second: Script, f: Findings)
    returns (outcome: Outcome, ghost moves: seq<Move>)
    requires store.Valid()
    modifies store
    ensures store.Valid() && store.Registry() == After(old(store.Registry()), moves)
    ensures Within(old(store.now), moves, store.now)
    ensures |moves| in {0, |first|, |first| + |second| + 1}
    ensures !CanonicalId(doc.id) ==> outcome == StoreError(Invalid) && moves == []
    ensures CanonicalId(doc.id) && doc.id !in old(store.rows) ==> outcome == StoreError(Unknown) && moves == []
    ensures CanonicalId(doc.id) && doc.id in old(store.rows) && !outcome.Superseded? ==>
              |moves| == |first| + |second| + 1 && IsOwnActivation(moves[|moves| - 1], doc)
    ensures outcome.Superseded? ==>
              doc.id in old(store.rows) && |moves| == |first| && old(store.rows)[doc.id].everActivated && store.active.id != Some(doc.id)
    ensures outcome.Reached? ==>
              && moves != [] && IsOwnActivation(moves[|moves| - 1], doc)
              && store.active.id == Some(doc.id) && outcome.generation == store.active.generation
  {
    hide Kept, Step, AfterActivation;
    moves := [];
    if !CanonicalId(doc.id) { return StoreError(Invalid), moves; }
    if doc.id !in store.rows { return StoreError(Unknown), moves; }
    var row := store.rows[doc.id];
    moves := store.PerformAll(first);
    var active := store.active;
    if row.everActivated && active.id != Some(doc.id) { return Superseded, moves; }
    ghost var between := store.PerformAll(second);
    RunConcat(old(store.Registry()), moves, between);
    moves := moves + between;
    var reply, m := store.ActivatePublication(doc.id, doc.expectedId, doc.expectedGeneration, false, f);
    ActivationReply(After(old(store.Registry()), moves), m);
    assert (moves + [m])[..|moves|] == moves;
    moves := moves + [m];
    if reply.Activated? {
      outcome := Reached(reply.event.generation);
    } else if reply.Noop? {
      outcome := Reached(reply.active.generation);
    } else {
      outcome := StoreError(reply.error);
    }
  }

  lemma ActivationReply(r: Registry, m: Move)
    requires m.request.Activate?
    ensures var (s, reply) := Step(r, m);
            match reply
            case Activated(event) => s.active.id == Some(m.request.id) && event.generation == s.active.generation
            case Noop(pointer) => s.active == pointer && pointer.id == Some(m.request.id)
            case Refused(_) => s == r
            case _ => false
  {
  }

  lemma {:induction false} RunConcat(r: Registry, a: seq<Move>, b: seq<Move>)
    ensures After(r, a + b) == After(After(r, a), b)
  {
    hide Step;
    if b == [] {
      assert a + b == a;
    } else {
      var n := |b| - 1;
      RunConcat(r, a, b[..n]);
      assert (a + b)[..|a| + n] == a + b[..n];
    }
  }

  // ---- One event per execution ------------------------------------------------------------

  /** How many of a run's activations, sent for one execution, took effect. */
  function OwnEvents(r: Registry, moves: seq<Move>, doc: Document): nat {
    if moves == [] then 0
    else
      var n := |moves| - 1;
      OwnEvents(r, moves[..n], doc) + if IsOwnActivation(moves[n], doc) && ReplyAt(r, moves, n).Activated? then 1 else 0
  }

  lemma {:induction false} OwnEventExists(r: Registry, moves: seq<Move>, doc: Document) returns (i: nat)
    requires OwnEvents(r, moves, doc) > 0
    ensures i < |moves| && IsOwnActivation(moves[i], doc) && ReplyAt(r, moves, i).Activated?
  {
    hide Step;
    var n := |moves| - 1;
    if IsOwnActivation(moves[n], doc) && ReplyAt(r, moves, n).Activated? {
      i := n;
    } else {
      i := OwnEventExists(r, moves[..n], doc);
      assert moves[..n][..i] == moves[..i];
    }
  }

  /**
   * However often an execution retries its activation, and whatever other operators do in between,
   * the execution adds at most one activation event.
   */
  lemma {:induction false} ExecutionActivatesOnce(r: Registry, moves: seq<Move>, doc: Document)
    ensures OwnEvents(r, moves, doc) <= 1
  {
    hide Step;
    if moves != [] {
      var n := |moves| - 1;
      ExecutionActivatesOnce(r, moves[..n], doc);
      if IsOwnActivation(moves[n], doc) && ReplyAt(r, moves, n).Activated? && OwnEvents(r, moves[..n], doc) > 0 {
        var i := OwnEventExists(r, moves[..n], doc);
        assert moves[..n][..i] == moves[..i];
        OncePerPin(r, moves, i, n);
        assert false;
      }
    }
  }
}

/**
 * The publication registry as the operators and readers of the system drive it: each method is one
 * transaction, worked out on a copy of the tables and committed at its end. Activation and cleanup, whose
 * statements each touch many rows, are run statement by statement.
 */
module PublicationControl {
  import opened Wrappers
  import opened Publication
  import opened PublicationLifecycle
  import opened PublicationReaders

  /** What is kept about a descriptor that was handed to a reader. */
  predicate IssuedOk(r: Registry, d: Descriptor, now: int) {
    && d.version == 1 && CanonicalId(d.id) && d.namespace == d.id && d.expiresAt == d.resolvedAt + OPERATION
    && d.resolvedAt <= now
    && d.id in r.rows && r.rows[d.id].phase !in {Building, Failed}
    && d.metadata == Shown(r.rows[d.id].metadata) && d.builtAt == r.rows[d.id].builtAt
    && (now < d.expiresAt ==> Held(r, d.id, d.expiresAt))
  }

  lemma IssuedStep(r: Registry, m: Move, d: Descriptor, now: int)
    requires Consistent(r) && IssuedOk(r, d, now)
    requires now <= m.at.first <= m.at.second <= m.at.third
    ensures IssuedOk(Step(r, m).0, d, m.at.third)
  {
    hide Consistent, Step, CanonicalId, Held;
    StepKeepsContents(r, m, d.id);
    if m.at.third < d.expiresAt { StepHolds(r, m, d.id, d.resolvedAt); }
  }

  /** `m` is what a transaction did that started at `from` on `before` and left `after` at `to`. */
  predicate Did(before: Registry, from: int, m: Move, after: Registry, to: int, reply: Reply) {
    from <= m.at.first <= m.at.second <= m.at.third == to && (after, reply) == Step(before, m)
  }

  predicate Kept(r: Registry, now: int, issued: set<Descriptor>) {
    Consistent(r) && forall d :: d in issued ==> IssuedOk(r, d, now)
  }

  lemma DidKeeps(before: Registry, from: int, m: Move, after: Registry, to: int, reply: Reply, issued: set<Descriptor>)
    requires Kept(before, from, issued) && Did(before, from, m, after, to, reply)
    ensures Kept(after, to, issued)
  {
    hide Step, IssuedOk, Consistent;
    StepConsistent(before, m);
    forall d | d in issued ensures IssuedOk(after, d, to) {
      IssuedStep(before, m, d, from);
    }
  }

  /** Moves made between two instants. */
  predicate Within(from: int, moves: seq<Move>, to: int) {
    from <= to && Clocked(from, moves) && forall i :: 0 <= i < |moves| ==> moves[i].at.third <= to
  }

  lemma ExtendingSet(active: Pointer, value: Id)
    ensures Extending(active, value) ==
            (if active.id.Some? then {active.id.value} else {}) +
            (if active.previous.Some? && active.previous.value != value && active.previous != active.id
             then {active.previous.value} else {})
  {
  }

  /** The three row updates of an activation, one statement each, amount to its effect on every row. */
  lemma PromotedRows(r: Registry, value: Id, at: Readings, deactivated: map<Id, Row>, extended: map<Id, Row>,
                 working: map<Id, Row>)
    requires value in r.rows
    requires deactivated == map k | k in r.rows :: if r.active.id == Some(k) then r.rows[k].(deactivatedAt := Some(at.first)) else r.rows[k]
    requires extended == map k | k in deactivated ::
               if k in Extending(r.active, value)
               then deactivated[k].(retainUntil := Some(Later(deactivated[k].retainUntil, at.second + RETENTION)))
               else deactivated[k]
    requires working == extended[value := extended[value].(phase := Retained, everActivated := true)]
    ensures working == RowsAfter(r, value, at)
  {
    hide Extending, Later;
    forall k | k in r.rows ensures working[k] == RowAfter(r, k, value, at) {
    }
  }

  class PublicationStore {
    var rows: map<Id, Row>
    var active: Pointer
    var log: seq<Event>
    var now: int
    ghost var issued: set<Descriptor>

    function Registry(): Registry
      reads this
    {
      Publication.Registry(rows, active, log)
    }

    ghost predicate Valid()
      reads this
    {
      Kept(Registry(), now, issued)
    }

    constructor ()
      ensures Valid() && Registry() == EMPTY && issued == {}
    {
      rows, active, log := map[], EMPTY.active, [];
      issued := {};
      new;
      EmptyConsistent();
    }

    /** The database clock: some later instant, or the same one. */
    method Tick() returns (t: int)
      modifies `now
      ensures old(now) <= t == now
    {
      t :| now <= t;
      now := t;
    }

    /** Commits what a request came to. */
    method Store(outcome: (Registry, Reply)) returns (reply: Reply)
      modifies `rows, `active, `log
      ensures (Registry(), reply) == outcome
    {
      rows, active, log := outcome.0.rows, outcome.0.active, outcome.0.log;
      reply := outcome.1;
    }

    // ---- Operators ------------------------------------------------------------------------

    method ReserveCandidate(id: Id, metadata: Metadata, f: Findings) returns (reply: Reply, ghost m: Move)
      requires Valid()
      modifies this
      ensures Valid() && m.request == Reserve(id, metadata) && m.findings == f
      ensures issued == old(issued) && Did(old(Registry()), old(now), m, Registry(), now, reply)
    {
      hide Kept;
      ghost var before, from := Registry(), now;
      m := Move(Reserve(id, metadata), f, Readings(now, now, now));
      var outcome := Reserving(Registry(), id, metadata);
      reply := Store(outcome);
      DidKeeps(before, from, m, Registry(), now, reply, issued);
    }

    method UpdateCandidate(id: Id, metadata: Metadata, f: Findings) returns (reply: Reply, ghost m: Move)
      requires Valid()
      modifies this
      ensures Valid() && m.request == UpdateMetadata(id, metadata) && m.findings == f
      ensures issued == old(issued) && Did(old(Registry()), old(now), m, Registry(), now, reply)
    {
      hide Kept;
      ghost var before, from := Registry(), now;
      m := Move(UpdateMetadata(id, metadata), f, Readings(now, now, now));
      var outcome := Updating(Registry(), id, metadata);
      reply := Store(outcome);
      DidKeeps(before, from, m, Registry(), now, reply, issued);
    }

    method RegisterExpectedNodes(id: Id, nodes: seq<string>, f: Findings) returns (reply: Reply, ghost m: Move)
      requires Valid()
      modifies this
      ensures Valid() && m.request == RegisterNodes(id, nodes) && m.findings == f
      ensures issued == old(issued) && Did(old(Registry()), old(now), m, Registry(), now, reply)
    {
      hide Kept;
      ghost var before, from := Registry(), now;
      m := Move(RegisterNodes(id, nodes), f, Readings(now, now, now));
      var outcome := Registering(Registry(), id, nodes);
      reply := Store(outcome);
      DidKeeps(before, from, m, Registry(), now, reply, issued);
    }

    method MarkCandidateFailed(id: Id, code: string, f: Findings) returns (reply: Reply, ghost m: Move)
      requires Valid()
      modifies this
      ensures Valid() && m.request == MarkFailed(id, code) && m.findings == f
      ensures issued == old(issued) && Did(old(Registry()), old(now), m, Registry(), now, reply)
    {
      hide Kept;
      ghost var before, from := Registry(), now;
      m := Move(MarkFailed(id, code), f, Readings(now, now, now));
      var outcome := Failing(Registry(), id, code);
      reply := Store(outcome);
      DidKeeps(before, from, m, Registry(), now, reply, issued);
    }

    method RetryCandidate(id: Id, f: Findings) returns (reply: Reply, ghost m: Move)
      requires Valid()
      modifies this
      ensures Valid() && m.request == Retry(id) && m.findings == f
      ensures issued == old(issued) && Did(old(Registry()), old(now), m, Registry(), now, reply)
    {
      hide Kept;
      ghost var before, from := Registry(), now;
      m := Move(Retry(id), f, Readings(now, now, now));
      var outcome := Retrying(Registry(), id, f);
      reply := Store(outcome);
      DidKeeps(before, from, m, Registry(), now, reply, issued);
    }

    method SealCandidate(id: Id, receipt: Receipt, f: Findings) returns (reply: Reply, ghost m: Move)
      requires Valid()
      modifies this
      ensures Valid() && m.request == Seal(id, receipt) && m.findings == f
      ensures issued == old(issued) && Did(old(Registry()), old(now), m, Registry(), now, reply)
    {
      hide Kept, ValidReceipt;
      ghost var before, from := Registry(), now;
      var builtAt := Tick();
      m := Move(Seal(id, receipt), f, Readings(builtAt, builtAt, builtAt));
      var outcome := Sealing(Registry(), id, receipt, f, builtAt);
      reply := Store(outcome);
      DidKeeps(before, from, m, Registry(), now, reply, issued);
    }

    /** The tables as the statements of an activation leave them, not committed yet. */
    method Promote(id: Id, restore: bool) returns (working: map<Id, Row>, pointer: Pointer, event: Event, ghost at: Readings)
      requires id in rows && active.id != Some(id)
      modifies `now
      ensures old(now) <= at.first <= at.second <= at.third == now
      ensures Publication.Registry(working, pointer, log + [event]) == AfterActivation(Registry(), id, restore, at)
      ensures event == NextEvent(Registry(), id, restore, at)
    {
      hide RowAfter, RowsAfter, Extending, Later;
      ghost var r := Registry();
      var extending: set<Id> := if active.id.Some? then {active.id.value} else {};
      if active.previous.Some? && active.previous.value != id && active.previous != active.id {
        extending := extending + {active.previous.value};
      }
      var first := Tick();
      var deactivated := map k | k in rows ::
        if active.id == Some(k) then rows[k].(deactivatedAt := Some(first)) else rows[k];
      var second := Tick();
      var extended := map k | k in deactivated ::
        if k in extending then deactivated[k].(retainUntil := Some(Later(deactivated[k].retainUntil, second + RETENTION)))
        else deactivated[k];
      var third := Tick();
      pointer := Pointer(Some(id), active.generation + 1, active.id, Some(third));
      working := extended[id := extended[id].(phase := Retained, everActivated := true)];
      event := Event(pointer.generation, id, active.id, restore, third);
      at := Readings(first, second, third);
      ExtendingSet(active, id);
      PromotedRows(r, id, at, deactivated, extended, working);
    }

    method ActivatePublication(id: Id, expectedId: Option<Id>, expectedGeneration: int, restore: bool, f: Findings)
      returns (reply: Reply, ghost m: Move)
      requires Valid()
      modifies this
      ensures Valid() && m.request == Activate(id, expectedId, expectedGeneration, restore) && m.findings == f
      ensures issued == old(issued) && Did(old(Registry()), old(now), m, Registry(), now, reply)
    {
      hide Kept, AfterActivation, CanonicalId;
      ghost var before, from := Registry(), now;
      ghost var at;
      m := Move(Activate(id, expectedId, expectedGeneration, restore), f, Readings(now, now, now));
      if !CanonicalId(id) || (expectedId.Some? && !CanonicalId(expectedId.value)) || expectedGeneration < 0 {
        reply := Refused(Invalid);
      } else if id !in rows {
        reply := Refused(Unknown);
      } else if rows[id].phase !in {Sealed, Retained} {
        reply := Refused(Unavailable);
      } else if !f.intact {
        reply := Refused(Conflict);
      } else if active.id == Some(id) {
        reply := if f.views then Noop(active) else Refused(Conflict);
      } else if (expectedId, expectedGeneration) != (active.id, active.generation) {
        reply := Refused(Stale);
      } else if restore && !rows[id].everActivated {
        reply := Refused(Invalid);
      } else if rows[id].phase == Sealed && |RetainedIds(rows)| >= MAX_RETAINED {
        reply := Refused(Capacity);
      } else if !f.compatible {
        reply := Refused(Schema);
      } else {
        var working, pointer, event;
        working, pointer, event, at := Promote(id, restore);
        m := m.(at := at);
        if !f.survives {
          reply := Refused(Aborted);
        } else if !f.independent {
          reply := Refused(Dependency);
        } else {
          rows, active, log := working, pointer, log + [event];
          reply := Activated(event);
        }
      }
      DidKeeps(before, from, m, Registry(), now, reply, issued);
    }

    method CleanupPublications(ids: seq<Id>, f: Findings) returns (reply: Reply, ghost m: Move)
      requires Valid()
      modifies this
      ensures Valid() && m.request == Cleanup(ids) && m.findings == f
      ensures issued == old(issued) && Did(old(Registry()), old(now), m, Registry(), now, reply)
    {
      hide Kept, CanonicalId;
      ghost var before, from := Registry(), now;
      var at := Tick();
      m := Move(Cleanup(ids), f, Readings(at, at, at));
      if (exists i :: 0 <= i < |ids| && !CanonicalId(ids[i])) || !Distinct(ids) {
        reply := Refused(Invalid);
      } else {
        var eligible := Eligible(Publication.Registry(rows, active, log), at);
        if exists i :: 0 <= i < |ids| && ids[i] !in eligible {
          reply := Refused(Protected);
        } else if ids != [] && !f.independent {
          reply := Refused(Dependency);
        } else {
          var working := rows;
          for i := 0 to |ids|
            invariant working == AfterCleanup(Registry(), SetOf(ids[..i])).rows
          {
            assert SetOf(ids[..i + 1]) == SetOf(ids[..i]) + {ids[i]};
            working := working[ids[i] := working[ids[i]].(phase := Pruned)];
          }
          assert ids[..|ids|] == ids;
          if !f.survives {
            reply := Refused(Aborted);
          } else {
            rows := working;
            reply := Cleaned(ids);
          }
        }
      }
      DidKeeps(before, from, m, Registry(), now, reply, issued);
    }

    method DiscardCandidate(id: Id, f: Findings) returns (reply: Reply, ghost m: Move)
      requires Valid()
      modifies this
      ensures Valid() && m.request == Discard(id) && m.findings == f
      ensures issued == old(issued) && Did(old(Registry()), old(now), m, Registry(), now, reply)
    {
      hide Kept;
      ghost var before, from := Registry(), now;
      m := Move(Discard(id), f, Readings(now, now, now));
      var outcome := Discarding(Registry(), id, f);
      reply := Store(outcome);
      DidKeeps(before, from, m, Registry(), now, reply, issued);
    }

    /** Any operator request. */
    method Perform(request: Request, f: Findings) returns (reply: Reply, ghost m: Move)
      requires Valid()
      modifies this
      ensures Valid() && m.request == request && m.findings == f
      ensures issued == old(issued) && Did(old(Registry()), old(now), m, Registry(), now, reply)
    {
      hide Valid, Step;
      match request
      case Reserve(id, metadata) => reply, m := ReserveCandidate(id, metadata, f);
      case UpdateMetadata(id, metadata) => reply, m := UpdateCandidate(id, metadata, f);
      case RegisterNodes(id, nodes) => reply, m := RegisterExpectedNodes(id, nodes, f);
      case MarkFailed(id, code) => reply, m := MarkCandidateFailed(id, code, f);
      case Retry(id) => reply, m := RetryCandidate(id, f);
      case Seal(id, receipt) => reply, m := SealCandidate(id, receipt, f);
      case Activate(id, expectedId, generation, restore) =>
        reply, m := ActivatePublication(id, expectedId, generation, restore, f);
      case Cleanup(ids) => reply, m := CleanupPublications(ids, f);
      case Discard(id) => reply, m := DiscardCandidate(id, f);
    }

    /** Requests of other operators, one transaction each. */
    method PerformAll(script: seq<(Request, Findings)>) returns (ghost moves: seq<Move>)
      requires Valid()
      modifies this
      ensures Valid() && issued == old(issued)
      ensures Registry() == After(old(Registry()), moves) && Within(old(now), moves, now)
      ensures |moves| == |script| && forall i :: 0 <= i < |moves| ==> moves[i].request == script[i].0
    {
      hide Kept, Step;
      moves := [];
      for i := 0 to |script|
        invariant Valid() && issued == old(issued)
        invariant Registry() == After(old(Registry()), moves) && Within(old(now), moves, now)
        invariant |moves| == i && forall k :: 0 <= k < i ==> moves[k].request == script[k].0
      {
        var reply, m := Perform(script[i].0, script[i].1);
        assert (moves + [m])[..|moves|] == moves;
        moves := moves + [m];
      }
    }

    // ---- Readers --------------------------------------------------------------------------

    /** Hands out a descriptor for the active publication, or for one selected by identity. */
    method ResolveDescriptor(id: Option<Id>) returns (result: Result<Descriptor>)
      requires Valid()
      modifies `now, `issued
      ensures Valid() && old(now) <= now && Registry() == old(Registry())
      ensures result == Resolve(Registry(), id, now)
      ensures issued == old(issued) + if result.Good? then {result.value} else {}
    {
      hide Consistent, CanonicalId;
      ghost var before := now;
      var t := Tick();
      result := Resolve(Publication.Registry(rows, active, log), id, t);
      forall d | d in issued ensures IssuedOk(Registry(), d, now) {
        assert IssuedOk(Registry(), d, before);
      }
      if result.Good? {
        ResolvedOk(Registry(), id, t);
        issued := issued + {result.value};
      }
    }

    /** A descriptor handed out earlier is accepted exactly while its hour lasts. */
    method ValidateDescriptor(d: Descriptor) returns (result: Result<Descriptor>)
      requires Valid()
      modifies `now
      ensures Valid() && old(now) <= now && Registry() == old(Registry())
      ensures result == Validate(Registry(), d, now)
      ensures d in issued ==> (result == Good(d) <==> now < d.expiresAt)
    {
      hide CanonicalId;
      ghost var before := now;
      var t := Tick();
      result := Validate(Publication.Registry(rows, active, log), d, t);
      forall e | e in issued ensures IssuedOk(Registry(), e, now) {
        assert IssuedOk(Registry(), e, before);
      }
      if d in issued { ServedUntilExpiry(Registry(), d, t); }
    }
  }

  lemma ResolvedOk(r: Registry, id: Option<Id>, now: int)
    requires Consistent(r) && Resolve(r, id, now).Good?
    ensures IssuedOk(r, Resolve(r, id, now).value, now)
  {
    hide SlotsOk, PointerOk, HistoryOk, PinsOk, ValidReceipt, CanonicalId;
    var d := Resolve(r, id, now).value;
    assert RowOk(d.id, r.rows[d.id]);
  }

  lemma ServedUntilExpiry(r: Registry, d: Descriptor, now: int)
    requires Consistent(r) && IssuedOk(r, d, now)
    ensures Validate(r, d, now) == Good(d) <==> now < d.expiresAt
  {
    hide SlotsOk, PointerOk, HistoryOk, PinsOk, ValidReceipt, CanonicalId;
    assert RowOk(d.id, r.rows[d.id]);
  }
}

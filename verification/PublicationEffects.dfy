/**
 * When each request takes effect, and what it then leaves, in the fields of the registry; and when
 * readers are given a descriptor. Whatever does not take effect leaves the registry as it was.
 */
module PublicationEffects {
  import opened Wrappers
  import opened Publication
  import opened PublicationLifecycle
  import opened PublicationReaders

  const HOUR := 3_600_000_000
  const DAY := 86_400_000_000

  /** Every publication but `id`, and the pointer and its history, are the same. */
  predicate OnlyRow(r: Registry, t: Registry, id: Id) {
    && t.active == r.active && t.log == r.log && t.rows.Keys == r.rows.Keys + {id}
    && forall k :: k in r.rows && k != id ==> t.rows[k] == r.rows[k]
  }

  predicate Known(r: Registry, id: Id) { CanonicalId(id) && id in r.rows }

  predicate Open(row: Row) { row.phase == Building || row.phase == Failed }

  // ---- Names ------------------------------------------------------------------------------

  /** Identities are 32 lower-case hexadecimal digits; failure codes are up to 80 characters after a letter. */
  lemma NamesExact(s: string)
    ensures CanonicalId(s) <==> |s| == 32 && forall i :: 0 <= i < |s| ==> var c := s[i] as int; 48 <= c < 58 || 97 <= c < 103
    ensures SafeCode(s) <==>
              && 0 < |s| < 81 && 65 <= s[0] as int < 91
              && forall i :: 1 <= i < |s| ==> var c := s[i] as int; 48 <= c < 58 || 65 <= c < 91 || c == 95
  {
  }

  /** The relation that a model node names: what follows its last dot. */
  lemma {:induction false} LastSegmentExact(s: string)
    ensures '.' !in LastSegment(s) && |LastSegment(s)| <= |s| && s[|s| - |LastSegment(s)|..] == LastSegment(s)
    ensures '.' in s ==> |LastSegment(s)| < |s| && s[|s| - |LastSegment(s)| - 1] == '.'
    ensures '.' !in s ==> LastSegment(s) == s
  {
    if '.' in s { LastSegmentExact(s[1..]); }
  }

  // ---- Candidates -------------------------------------------------------------------------

  /**
   * A new identity is reserved exactly when there is no other candidate and fewer than three
   * publications are retained, and it is pinned to what is active; a repeated reservation is
   * answered exactly while its candidate is open and asks for the same metadata.
   */
  lemma ReserveExact(r: Registry, id: Id, metadata: Metadata)
    ensures var (t, reply) := Reserving(r, id, metadata);
            && (reply.Registered? <==>
                  && CanonicalId(id)
                  && if id in r.rows then Open(r.rows[id]) && r.rows[id].metadata == metadata
                     else (forall k :: k in r.rows ==> r.rows[k].phase in {Retained, Pruned, Discarded})
                          && |set k | k in r.rows && r.rows[k].phase == Retained| < 3)
            && (reply.Registered? && id !in r.rows ==>
                  && OnlyRow(r, t, id) && t.rows[id].phase == Building && t.rows[id].metadata == metadata
                  && t.rows[id].expectedId == r.active.id && t.rows[id].expectedGeneration == r.active.generation
                  && t.rows[id].expectedNodes == None && t.rows[id].receipt == None && t.rows[id].builtAt == None
                  && t.rows[id].retainUntil == None && !t.rows[id].everActivated)
            && (reply.Registered? ==> reply.row == t.rows[id])
            && (!(reply.Registered? && id !in r.rows) ==> t == r)
  {
    forall k | k in r.rows ensures k in Candidates(r.rows) <==> !(r.rows[k].phase in {Retained, Pruned, Discarded}) {
      var phase := r.rows[k].phase;
      assert phase.Building? || phase.Failed? || phase.Sealed? || phase.Retained? || phase.Pruned? || phase.Discarded?;
    }
    assert RetainedIds(r.rows) == set k | k in r.rows && r.rows[k].phase == Retained;
  }

  /** New metadata is stored key by key, exactly while the candidate is open and no key changes its value. */
  lemma UpdateExact(r: Registry, id: Id, metadata: Metadata)
    ensures var (t, reply) := Updating(r, id, metadata);
            && (reply.Registered? <==>
                  && Known(r, id) && Open(r.rows[id])
                  && forall k :: k in metadata && k in r.rows[id].metadata ==> r.rows[id].metadata[k] == metadata[k])
            && (reply.Registered? ==>
                  && OnlyRow(r, t, id) && reply.row == t.rows[id]
                  && (forall k :: k in metadata ==> k in t.rows[id].metadata && t.rows[id].metadata[k] == metadata[k])
                  && (forall k :: k in r.rows[id].metadata ==>
                        k in t.rows[id].metadata && t.rows[id].metadata[k] == r.rows[id].metadata[k])
                  && (forall k :: k in t.rows[id].metadata ==> k in metadata || k in r.rows[id].metadata)
                  && t.rows[id] == r.rows[id].(metadata := t.rows[id].metadata))
            && (reply.Registered? || t == r)
  {
  }

  /** The node inventory is pinned exactly once; repeating the same nodes in any order changes nothing. */
  lemma RegisterExact(r: Registry, id: Id, nodes: seq<string>)
    ensures var (t, reply) := Registering(r, id, nodes);
            && (reply == Unchanged <==>
                  && nodes != [] && (forall i, j :: 0 <= i < j < |nodes| ==> nodes[i] != nodes[j])
                  && Known(r, id) && Open(r.rows[id])
                  && (r.rows[id].expectedNodes.Some? ==> r.rows[id].expectedNodes.value == multiset(nodes)))
            && (reply == Unchanged ==>
                  OnlyRow(r, t, id) && t.rows[id] == r.rows[id].(expectedNodes := Some(multiset(nodes))))
            && (reply == Unchanged || (reply.Refused? && t == r))
  {
  }

  /** A failure is recorded on an open candidate, under a safe code; any other publication is left alone. */
  lemma FailExact(r: Registry, id: Id, code: string)
    ensures var (t, reply) := Failing(r, id, code);
            && (reply == Unchanged <==> SafeCode(code) && Known(r, id))
            && (reply == Unchanged && Open(r.rows[id]) ==>
                  OnlyRow(r, t, id) && t.rows[id] == r.rows[id].(phase := Failed, failure := Some(code)))
            && (!(reply == Unchanged && Open(r.rows[id])) ==> t == r)
  {
  }

  /** A retry reopens a candidate that no live build owns. */
  lemma RetryExact(r: Registry, id: Id, f: Findings)
    ensures var (t, reply) := Retrying(r, id, f);
            && (reply.Registered? <==> Known(r, id) && Open(r.rows[id]) && f.unowned)
            && (reply.Registered? ==>
                  && OnlyRow(r, t, id) && reply.row == t.rows[id]
                  && t.rows[id] == r.rows[id].(phase := Building, failure := None))
            && (reply.Registered? || t == r)
  {
  }

  /** What a receipt must say about a publication, condition by condition. */
  lemma ReceiptExact(id: Id, row: Row, receipt: Receipt)
    ensures ValidReceipt(id, row, receipt) <==>
            && receipt.version == 1 && receipt.publication == id && receipt.metadata == row.metadata && receipt.digests
            && receipt.required != [] && row.expectedNodes == Some(multiset(receipt.required)) && receipt.tests != []
            && (forall n :: n in receipt.required <==> n in receipt.models || n in receipt.tests)
            && (forall n :: n in receipt.models ==> "model." <= n && NodeResult(n, "success") in receipt.results)
            && (forall n :: n in receipt.tests ==> "test." <= n && NodeResult(n, "pass") in receipt.results)
            && (forall i, j :: 0 <= i < j < |receipt.results| ==> receipt.results[i].node != receipt.results[j].node)
            && (forall o :: o in OUTPUT_RELATIONS ==> exists n :: n in receipt.models && LastSegment(n) == o)
  {
    hide LastSegment;
    assert SetOf(receipt.required) == SetOf(receipt.models) + SetOf(receipt.tests) <==>
           forall n :: n in receipt.required <==> n in receipt.models || n in receipt.tests by {
      if SetOf(receipt.required) == SetOf(receipt.models) + SetOf(receipt.tests) {
        forall n ensures n in receipt.required <==> n in receipt.models || n in receipt.tests {
          assert n in SetOf(receipt.required) <==> n in SetOf(receipt.models) + SetOf(receipt.tests);
        }
      }
    }
  }

  /**
   * A candidate is sealed exactly when it is open, its receipt is valid, no build owns it, the tables
   * are the ones the receipt names and nothing outside depends on them; it then holds that receipt.
   */
  lemma SealExact(r: Registry, id: Id, receipt: Receipt, f: Findings, at: int)
    ensures var (t, reply) := Sealing(r, id, receipt, f, at);
            && (reply.Registered? <==>
                  && Known(r, id) && ValidReceipt(id, r.rows[id], receipt) && f.unowned
                  && if Open(r.rows[id]) then f.built == receipt.inventory && f.survives && f.independent
                     else r.rows[id].phase in {Sealed, Retained} && r.rows[id].receipt == Some(receipt) && f.intact)
            && (reply.Registered? && Open(r.rows[id]) ==>
                  && OnlyRow(r, t, id)
                  && t.rows[id] == r.rows[id].(phase := Sealed, receipt := Some(receipt), builtAt := Some(at)))
            && (reply.Registered? ==> reply.row == t.rows[id])
            && (!(reply.Registered? && Open(r.rows[id])) ==> t == r)
  {
    hide ValidReceipt;
  }

  /** A candidate is discarded exactly if it was never activated, no build owns it and nothing depends on it. */
  lemma DiscardExact(r: Registry, id: Id, f: Findings)
    ensures var (t, reply) := Discarding(r, id, f);
            && (reply == Gone(id) <==>
                  && Known(r, id) && !r.rows[id].everActivated && r.rows[id].phase in {Building, Failed, Sealed}
                  && f.unowned && f.independent)
            && (reply == Gone(id) ==> OnlyRow(r, t, id) && t.rows[id] == r.rows[id].(phase := Discarded))
            && (reply == Gone(id) || (reply.Refused? && t == r))
  {
  }

  // ---- Activation -------------------------------------------------------------------------

  /**
   * In a reachable registry a sealed or retained publication, not the active one, is activated
   * exactly when the caller names what is active, contents and views are as they must be, and a
   * restoration is of something activated before.
   */
  lemma ActivateExact(r: Registry, m: Move)
    requires Consistent(r) && m.request.Activate?
    ensures var (id, f, t, reply) := (m.request.id, m.findings, Step(r, m).0, Step(r, m).1);
            && (reply.Activated? <==>
                  && Known(r, id) && r.active.id != Some(id)
                  && (r.rows[id].phase == Sealed || r.rows[id].phase == Retained)
                  && m.request.expectedId == r.active.id && m.request.expectedGeneration == r.active.generation
                  && (m.request.restore ==> r.rows[id].phase == Retained)
                  && f.intact && f.compatible && f.survives && f.independent)
            && (reply == Noop(r.active) <==>
                  && r.active.id == Some(id) && (m.request.expectedId.Some? ==> CanonicalId(m.request.expectedId.value))
                  && m.request.expectedGeneration >= 0 && f.intact && f.views)
            && (reply.Activated? || t == r)
  {
    hide SlotsOk, HistoryOk, PinsOk, ValidReceipt, AfterActivation, CanonicalId;
    if r.active.id.Some? { assert RowOk(r.active.id.value, r.rows[r.active.id.value]); }
    if m.request.id in r.rows { assert RowOk(m.request.id, r.rows[m.request.id]); }
    HasRoom(r, m);
  }

  lemma HasRoom(r: Registry, m: Move)
    requires Consistent(r) && m.request.Activate?
    ensures r.In(m.request.id, Sealed) ==> |RetainedIds(r.rows)| < MAX_RETAINED
  {
    hide RowsOk, PointerOk, HistoryOk, PinsOk;
    if r.In(m.request.id, Sealed) { assert m.request.id in Candidates(r.rows); }
  }

  /**
   * What an activation leaves: the pointer on the new publication with the old one behind it, and a
   * full day from then on for each publication that it leaves without protection.
   */
  lemma ActivationEffect(r: Registry, m: Move, k: Id)
    requires m.request.Activate? && Step(r, m).1.Activated? && k in r.rows
    ensures var (id, t) := (m.request.id, Step(r, m).0);
            && t.rows.Keys == r.rows.Keys
            && t.active == Pointer(Some(id), r.active.generation + 1, r.active.id, Some(m.at.third))
            && t.log == r.log + [Event(r.active.generation + 1, id, r.active.id, m.request.restore, m.at.third)]
            && (t.rows[k].phase == if k == id then Retained else r.rows[k].phase)
            && (t.rows[k].everActivated <==> k == id || r.rows[k].everActivated)
            && (t.rows[k].deactivatedAt == if r.active.id == Some(k) then Some(m.at.first) else r.rows[k].deactivatedAt)
            && (if r.active.id == Some(k) || (r.active.previous == Some(k) && k != id)
                then t.rows[k].retainUntil.Some?
                     && t.rows[k].retainUntil.value >= m.at.second + DAY
                     && (t.rows[k].retainUntil == Some(m.at.second + DAY) || t.rows[k].retainUntil == r.rows[k].retainUntil)
                     && NotBefore(t.rows[k].retainUntil, r.rows[k].retainUntil)
                else t.rows[k].retainUntil == r.rows[k].retainUntil)
  {
    hide ValidReceipt, CanonicalId, RetainedIds;
  }

  predicate NotBefore(a: Option<int>, b: Option<int>) { b.Some? ==> a.Some? && b.value <= a.value }

  // ---- Cleanup ----------------------------------------------------------------------------

  /**
   * Cleanup takes all the publications it names or none: it succeeds exactly when each of them is
   * retained, past its limit and neither active nor previous, and then every one is pruned.
   */
  lemma CleanupExact(r: Registry, ids: seq<Id>, f: Findings, at: int)
    ensures var (t, reply) := Cleaning(r, ids, f, at);
            && (reply == Cleaned(ids) <==>
                  && (forall i :: 0 <= i < |ids| ==> Expired(r, ids[i], at) && CanonicalId(ids[i]))
                  && (forall i, j :: 0 <= i < j < |ids| ==> ids[i] != ids[j])
                  && (ids != [] ==> f.independent) && f.survives)
            && (reply == Cleaned(ids) ==>
                  && t.active == r.active && t.log == r.log && t.rows.Keys == r.rows.Keys
                  && forall k :: k in r.rows ==> t.rows[k] == if k in ids then r.rows[k].(phase := Pruned) else r.rows[k])
            && (reply == Cleaned(ids) || (reply.Refused? && t == r))
  {
    hide CanonicalId;
    assert forall i :: 0 <= i < |ids| ==> (ids[i] in Eligible(r, at) <==> Expired(r, ids[i], at));
  }

  predicate Expired(r: Registry, id: Id, at: int) {
    && id in r.rows && r.rows[id].phase == Retained && r.active.id != Some(id) && r.active.previous != Some(id)
    && r.rows[id].retainUntil.Some? && r.rows[id].retainUntil.value <= at
  }

  // ---- Readers ----------------------------------------------------------------------------

  /** A publication that can be read for a whole hour from now. */
  predicate Readable(r: Registry, id: Id, now: int) {
    && CanonicalId(id) && id in r.rows && r.rows[id].everActivated && r.rows[id].phase == Retained
    && (r.active.id == Some(id) || r.active.previous == Some(id)
        || (r.rows[id].retainUntil.Some? && now + HOUR <= r.rows[id].retainUntil.value))
  }

  /** The descriptor of exactly this publication, as its row has it, for an hour. */
  predicate Describes(r: Registry, id: Id, now: int, d: Descriptor)
    requires id in r.rows
  {
    && d.version == 1 && d.id == id && d.namespace == id && d.builtAt == r.rows[id].builtAt
    && d.resolvedAt == now && d.expiresAt == now + HOUR && d.metadata.Keys == CATALOG_KEYS
    && forall k :: k in CATALOG_KEYS ==>
         d.metadata[k] == if k in r.rows[id].metadata then Some(r.rows[id].metadata[k]) else None
  }

  /** A selected publication is described exactly when it can be read for a whole hour, and it is the one described. */
  lemma ResolveExact(r: Registry, id: Id, now: int)
    ensures Resolve(r, Some(id), now).Good? <==> Readable(r, id, now)
    ensures Readable(r, id, now) ==> Describes(r, id, now, Resolve(r, Some(id), now).value)
    ensures !CanonicalId(id) ==> Resolve(r, Some(id), now) == Bad(BadDescriptor)
    ensures CanonicalId(id) && (id in r.rows ==> !r.rows[id].everActivated) ==> Resolve(r, Some(id), now) == Bad(NotKnown)
  {
    hide CanonicalId;
  }

  /** Without a selection the active publication is described, and nothing else. */
  lemma LatestExact(r: Registry, now: int)
    requires Consistent(r)
    ensures Resolve(r, None, now).Good? <==> r.active.id.Some?
    ensures r.active.id.Some? ==>
              r.active.id.value in r.rows && Describes(r, r.active.id.value, now, Resolve(r, None, now).value)
  {
    hide SlotsOk, HistoryOk, PinsOk, ValidReceipt, CanonicalId;
    if r.active.id.Some? { assert RowOk(r.active.id.value, r.rows[r.active.id.value]); }
  }

  /** A descriptor is accepted exactly within its hour, of a retained publication, and as that publication is. */
  lemma ValidateExact(r: Registry, d: Descriptor, now: int)
    ensures Validate(r, d, now) == Good(d) <==>
            && CanonicalId(d.id) && d.id in r.rows && r.rows[d.id].everActivated && r.rows[d.id].phase == Retained
            && d.resolvedAt <= now < d.expiresAt && Describes(r, d.id, d.resolvedAt, d)
    ensures Validate(r, d, now).Good? ==> Validate(r, d, now) == Good(d)
  {
    hide CanonicalId;
    if d.id in r.rows && Describes(r, d.id, d.resolvedAt, d) { assert d.metadata == Shown(r.rows[d.id].metadata); }
  }
}

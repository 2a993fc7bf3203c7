/**
 * A bounded acquisition campaign: its plan, its manifest and the steps of the ledger.
 *
 * A SHA-256 digest is modelled by the digested value itself (digests are taken to be injective).
 * The manifest is a value because what is saved to disk is a copy of it; the classes of
 * CampaignLedger and CampaignDriver keep the live copy and the saved one apart.
 */
module Campaign {
  import opened Wrappers
  import opened Text

  const DEPARTMENT := "Antioquia"

  // ---- Plan -------------------------------------------------------------------------------

  datatype Usage = Usage(rows: int, attempts: int)

  /** Half-open signing interval, in days. */
  datatype Scope = Scope(from: int, to: int)
  {
    predicate Covers(signing: Option<int>, department: string) {
      department == DEPARTMENT && signing.Some? && from <= signing.value < to
    }

    predicate Contains(row: Row) { Covers(row.signing, row.department) }
  }

  /** `digest` is the digest of the id list, which the source sorts before hashing. */
  datatype Baseline = Baseline(version: string, ids: seq<string>, digest: multiset<string>)

  type Positive = n: int | 0 < n witness 1

  /** The parameters of a campaign; `profile` stands for contract, revision and projection version. */
  datatype Plan = Plan(scope: Scope, baseline: Option<Baseline>, ceilings: Usage, pageSize: Positive,
                       projection: seq<string>, profile: string, named: bool)
  {
    function Ids(): seq<string> {
      if baseline.Some? then baseline.value.ids else []
    }
  }

  /** What the constructors of scope and ceilings and the baseline loader guarantee. */
  predicate PlanOk(plan: Plan) {
    && plan.scope.from < plan.scope.to
    && plan.ceilings.rows > 0 && plan.ceilings.attempts > 0
    && (plan.baseline.Some? ==> multiset(plan.baseline.value.ids) == plan.baseline.value.digest)
  }

  // ---- Requests and rows ------------------------------------------------------------------

  datatype Lane = MetadataLane | ScanLane | MemberLane

  datatype Filter = InScope(scope: Scope, after: Option<string>) | OneOf(ids: seq<string>)

  datatype Query = Query(select: seq<string>, filter: Filter, limit: int)

  function ScopeQuery(scope: Scope, projection: seq<string>, limit: int, cursor: Option<string>): Query {
    Query(projection, InScope(scope, cursor), limit)
  }

  function MemberQuery(ids: seq<string>, projection: seq<string>): Query {
    Query(projection, OneOf(ids), |ids|)
  }

  /**
   * A source row. `id` is "" when the identity field is missing or is not text; `signing` is None
   * when the date is absent or cannot be read without a zone; `conforms` is the column check
   * against the frozen source contract.
   */
  datatype Row = Row(id: string, department: string, signing: Option<int>, conforms: bool, payload: string)

  function RowIds(rows: seq<Row>): (ids: seq<string>)
    ensures |ids| == |rows|
  {
    seq(|rows|, i requires 0 <= i < |rows| => rows[i].id)
  }

  predicate ValidRows(rows: seq<Row>) {
    && (forall i :: 0 <= i < |rows| ==> rows[i].conforms)
    && (forall i :: 0 <= i < |rows| ==> Usable(rows[i].id))
    && Increasing(RowIds(rows))
    && (forall i :: 0 <= i < |rows| ==> rows[i].department == DEPARTMENT)
  }

  predicate ValidScanRows(rows: seq<Row>, scope: Scope, cursor: Option<string>) {
    && ValidRows(rows)
    && (cursor.Some? && rows != [] ==> Less(cursor.value, rows[0].id))
    && (forall i :: 0 <= i < |rows| ==> scope.Contains(rows[i]))
  }

  predicate ValidMemberRows(rows: seq<Row>, batch: seq<string>) {
    ValidRows(rows) && forall i :: 0 <= i < |rows| ==> rows[i].id in batch
  }

  function NextCursor(cursor: Option<string>, rows: seq<Row>): Option<string> {
    if rows == [] then cursor else Some(rows[|rows| - 1].id)
  }

  function Batch(ids: seq<string>, offset: nat, size: Positive): seq<string>
    requires offset <= |ids|
  {
    if offset + size <= |ids| then ids[offset..offset + size] else ids[offset..]
  }

  // ---- Manifest ---------------------------------------------------------------------------

  /** The name of a page file under the campaign directory. */
  datatype Path = Path(lane: Lane, sequence: int)

  /** `digest` is the page's hash, that is, its rows; `query` and cursors are what was asked. */
  datatype Page = Page(lane: Lane, sequence: int, path: Path, digest: seq<Row>, rowCount: int,
                       requested: Option<string>, final: Option<string>, fetchedAt: int, query: Query)

  datatype State = Planned | Extracting | PausedBudget | FailedRecoverable | Acquired | Truncated | Interrupted

  datatype Reason =
    | CeilingExhausted
    | CampaignRowsExhausted | CampaignAttemptsExhausted
    | InvocationRowsExhausted | InvocationAttemptsExhausted
    | PlanExhausted | RequestOrEvidenceFailure | UnconfirmedInterruption

  datatype Invocation = Invocation(id: int, grant: Usage, consumed: Usage, state: State,
                                   reason: Option<Reason>, key: Option<string>)

  datatype ReceiptState = Uncertain | Response

  datatype Reservation = Reservation(id: int, invocation: int, lane: Lane, maxRows: int, charged: int,
                                     state: ReceiptState, query: Option<Query>, page: Option<int>)

  datatype ScanProgress = ScanProgress(complete: bool, cursor: Option<string>)

  /** The source keeps `missing_ids` as a sorted duplicate-free list, that is, a set. */
  datatype MemberProgress = MemberProgress(complete: bool, offset: int, returned: seq<string>, missing: set<string>)

  datatype Metadata = Metadata(valid: bool, content: string)

  datatype Acquisition = Acquisition(plan: Plan, scope: Scope, baseline: Option<Baseline>, state: State,
                                     limits: Usage, consumed: Usage, scanComplete: bool, checkComplete: bool,
                                     unconfirmed: set<string>, observed: Option<(int, int)>, truncated: bool)

  datatype Status = Staging | ExtractingRun | PausedRun | FailedRun | Prepared | Committed

  datatype Manifest = Manifest(
    parameters: Plan, planId: Plan, scope: Scope, baseline: Option<Baseline>, ceilings: Usage,
    pages: seq<Page>, scan: ScanProgress, members: MemberProgress, received: int, written: int,
    invocations: seq<Invocation>, reservations: seq<Reservation>,
    metadataVerified: bool, metadataDigest: Option<Metadata>,
    complete: bool, rangeComplete: bool, reason: Option<Reason>, acquisition: Acquisition,
    checkpoint: Option<string>, status: Status, truncated: bool)

  // ---- Ledger arithmetic ------------------------------------------------------------------

  /** Everything charged so far: rows of every reservation, one attempt each. */
  function Consumed(rs: seq<Reservation>): Usage {
    if rs == [] then Usage(0, 0)
    else
      var before := Consumed(rs[..|rs| - 1]);
      Usage(before.rows + rs[|rs| - 1].charged, before.attempts + 1)
  }

  /** What one invocation was charged. */
  function ConsumedBy(rs: seq<Reservation>, invocation: int): Usage {
    if rs == [] then Usage(0, 0)
    else
      var before := ConsumedBy(rs[..|rs| - 1], invocation);
      var last := rs[|rs| - 1];
      if last.invocation == invocation then Usage(before.rows + last.charged, before.attempts + 1) else before
  }

  lemma ConsumedSnoc(rs: seq<Reservation>, r: Reservation)
    ensures Consumed(rs + [r]) == Usage(Consumed(rs).rows + r.charged, Consumed(rs).attempts + 1)
  {
    assert (rs + [r])[..|rs|] == rs;
  }

  lemma ConsumedBySnoc(rs: seq<Reservation>, r: Reservation, k: int)
    ensures ConsumedBy(rs + [r], k) ==
            if r.invocation == k then Usage(ConsumedBy(rs, k).rows + r.charged, ConsumedBy(rs, k).attempts + 1)
            else ConsumedBy(rs, k)
  {
    assert (rs + [r])[..|rs|] == rs;
  }

  lemma {:induction false} AttemptsCounted(rs: seq<Reservation>)
    ensures Consumed(rs).attempts == |rs|
  {
    if rs != [] { AttemptsCounted(rs[..|rs| - 1]); }
  }

  lemma {:induction false} NothingConsumedBy(rs: seq<Reservation>, k: int)
    requires forall r :: r in rs ==> r.invocation != k
    ensures ConsumedBy(rs, k) == Usage(0, 0)
  {
    if rs != [] { NothingConsumedBy(rs[..|rs| - 1], k); }
  }

  /** The rows or attempts still available, under both the campaign ceiling and the last grant. */
  function Remaining(m: Manifest): Usage
    requires m.invocations != []
  {
    var total := Consumed(m.reservations);
    var invocation := m.invocations[|m.invocations| - 1];
    var used := ConsumedBy(m.reservations, invocation.id);
    Usage(Min(m.ceilings.rows - total.rows, invocation.grant.rows - used.rows),
          Min(m.ceilings.attempts - total.attempts, invocation.grant.attempts - used.attempts))
  }

  function Min(a: int, b: int): int { if a < b then a else b }

  datatype Verdict = Allowed | Exceeded(reason: Reason, terminal: bool)

  /** Whether `rows` more rows and one more attempt fit; the first exhausted bound is named. */
  function Requirement(m: Manifest, rows: int): Verdict
    requires m.invocations != []
  {
    var total := Consumed(m.reservations);
    if rows > m.ceilings.rows - total.rows then Exceeded(CampaignRowsExhausted, true)
    else if rows > Remaining(m).rows then Exceeded(InvocationRowsExhausted, false)
    else if 1 > m.ceilings.attempts - total.attempts then Exceeded(CampaignAttemptsExhausted, true)
    else if 1 > Remaining(m).attempts then Exceeded(InvocationAttemptsExhausted, false)
    else Allowed
  }

  // ---- Derived evidence -------------------------------------------------------------------

  function Earliest(pages: seq<Page>): int
    requires pages != []
  {
    var last := pages[|pages| - 1].fetchedAt;
    if |pages| == 1 then last else Min(Earliest(pages[..|pages| - 1]), last)
  }

  function Latest(pages: seq<Page>): int
    requires pages != []
  {
    var last := pages[|pages| - 1].fetchedAt;
    if |pages| == 1 then last
    else if Latest(pages[..|pages| - 1]) < last then last else Latest(pages[..|pages| - 1])
  }

  lemma {:induction false} ObservedInOrder(pages: seq<Page>)
    requires pages != []
    ensures Earliest(pages) <= pages[|pages| - 1].fetchedAt <= Latest(pages)
  {
    if |pages| > 1 { ObservedInOrder(pages[..|pages| - 1]); }
  }

  function Snapshot(m: Manifest, state: State): Acquisition {
    Acquisition(m.planId, m.scope, m.baseline, state, m.ceilings, Consumed(m.reservations),
                m.scan.complete, m.members.complete, m.members.missing,
                if m.pages == [] then None else Some((Earliest(m.pages), Latest(m.pages))),
                state == Truncated)
  }

  function LanesComplete(m: Manifest): bool { m.scan.complete && m.members.complete }

  function RecordInvocation(m: Manifest, state: State): Manifest {
    if m.invocations == [] then m
    else
      var n := |m.invocations| - 1;
      var last := m.invocations[n];
      m.(invocations := m.invocations[n := last.(consumed := ConsumedBy(m.reservations, last.id),
                                                 state := state, reason := m.reason)])
  }

  function UpdateAcquisition(m: Manifest, state: State): Manifest {
    m.(acquisition := Snapshot(m, state))
  }

  /** What `persist` writes: completeness flags, the last invocation and the snapshot, recomputed. */
  function Refreshed(m: Manifest, state: State): Manifest {
    var m1 := m.(complete := LanesComplete(m), rangeComplete := LanesComplete(m));
    UpdateAcquisition(RecordInvocation(m1, state), state)
  }

  // ---- Ledger steps -----------------------------------------------------------------------

  function Granted(m: Manifest, grant: Usage, key: Option<string>): Manifest {
    var n := |m.invocations|;
    var closed :=
      if n > 0 && m.invocations[n - 1].state == Extracting
      then m.invocations[n - 1 := m.invocations[n - 1].(state := Interrupted, reason := Some(UnconfirmedInterruption))]
      else m.invocations;
    m.(invocations := closed + [Invocation(n + 1, grant, Usage(0, 0), Extracting, None, key)])
  }

  function Reserved(m: Manifest, lane: Lane, query: Option<Query>, capacity: int): Manifest
    requires m.invocations != []
  {
    var r := Reservation(|m.reservations| + 1, m.invocations[|m.invocations| - 1].id, lane, capacity, capacity,
                         Uncertain, query, None);
    m.(reservations := m.reservations + [r])
  }

  /** A response arrived for the last reservation: the unused part of its charge is released. */
  function Responded(m: Manifest, rows: int, page: Option<int>): Manifest
    requires m.reservations != []
  {
    var n := |m.reservations| - 1;
    m.(reservations := m.reservations[..n] + [m.reservations[n].(state := Response, charged := rows, page := page)])
  }

  /** The manifest `_start` stores before the first grant. */
  function Started(plan: Plan): Manifest {
    var blank := Manifest(
      plan, plan, plan.scope, plan.baseline, plan.ceilings, [], ScanProgress(false, None),
      MemberProgress(plan.Ids() == [], 0, [], {}), 0, 0, [], [], false, None, false, false, None,
      Acquisition(plan, plan.scope, plan.baseline, Planned, plan.ceilings, Usage(0, 0), false, plan.Ids() == [],
                  {}, None, false),
      None, Staging, false);
    UpdateAcquisition(blank, Planned)
  }
}

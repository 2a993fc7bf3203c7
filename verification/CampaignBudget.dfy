/** Which budget stops a campaign: what a refused request asked for against what ceilings and grant leave. */
module CampaignBudget {
  import opened Wrappers
  import opened Text
  import opened Campaign
  import opened CampaignVerifier
  import opened CampaignWriter
  import opened CampaignSteps

  function RowsLeft(m: Manifest): int { m.ceilings.rows - Consumed(m.reservations).rows }

  function AttemptsLeft(m: Manifest): int { m.ceilings.attempts - Consumed(m.reservations).attempts }

  function GrantRowsLeft(m: Manifest): int
    requires m.invocations != []
  {
    var last := m.invocations[|m.invocations| - 1];
    last.grant.rows - ConsumedBy(m.reservations, last.id).rows
  }

  function GrantAttemptsLeft(m: Manifest): int
    requires m.invocations != []
  {
    var last := m.invocations[|m.invocations| - 1];
    last.grant.attempts - ConsumedBy(m.reservations, last.id).attempts
  }

  /** The last attempt asked for `rows` scan rows and was not answered, so its retry asks for as many. */
  predicate Retried(m: Manifest, rows: int) {
    && m.reservations != []
    && var last := m.reservations[|m.reservations| - 1];
       last.lane == ScanLane && last.state == Uncertain && last.maxRows == rows && last.invocation == |m.invocations|
  }

  /**
   * The rows that the next request of a campaign must be able to charge: none for the metadata, one
   * for a scan page or the whole page if it is being retried, the whole batch for a membership page.
   */
  predicate Wanted(m: Manifest, rows: int) {
    if !m.metadataVerified then rows == 0
    else if !m.scan.complete then rows == 1 || Retried(m, rows)
    else
      && !m.members.complete && 0 <= m.members.offset <= |m.parameters.Ids()|
      && rows == |Batch(m.parameters.Ids(), m.members.offset, m.parameters.pageSize)|
  }

  /** The request for `rows` fits the ceilings in rows but not what the last invocation was granted. */
  predicate GrantShort(m: Manifest, rows: int)
    requires m.invocations != []
  {
    GrantRowsLeft(m) < rows <= RowsLeft(m)
  }

  predicate RowsFit(m: Manifest, rows: int)
    requires m.invocations != []
  {
    rows <= RowsLeft(m) && rows <= GrantRowsLeft(m)
  }

  /** `reason` is true of the manifest, and it ends the campaign exactly if a ceiling is what stops it. */
  ghost predicate StopExplained(m: Manifest, reason: Reason, terminal: bool) {
    match reason
    case CeilingExhausted => terminal && (RowsLeft(m) < 1 || AttemptsLeft(m) < 1)
    case CampaignRowsExhausted => terminal && exists rows :: Wanted(m, rows) && RowsLeft(m) < rows
    case InvocationRowsExhausted =>
      !terminal && m.invocations != [] && exists rows :: Wanted(m, rows) && GrantShort(m, rows)
    case CampaignAttemptsExhausted =>
      terminal && AttemptsLeft(m) < 1 && m.invocations != [] && exists rows :: Wanted(m, rows) && RowsFit(m, rows)
    case InvocationAttemptsExhausted =>
      && !terminal && m.invocations != [] && GrantAttemptsLeft(m) < 1 <= AttemptsLeft(m)
      && exists rows :: Wanted(m, rows) && RowsFit(m, rows)
    case _ => false
  }

  /** A campaign that a ceiling has ended, by its own record. */
  ghost predicate EndedByCeiling(m: Manifest) { m.truncated && m.reason.Some? && StopExplained(m, m.reason.value, true) }

  /** A campaign that waits for another grant, by its own record. */
  ghost predicate AwaitsGrant(m: Manifest) {
    && m.status == PausedRun && m.truncated && m.acquisition.state == PausedBudget
    && m.reason.Some? && StopExplained(m, m.reason.value, false)
  }

  /** A refused request is explained by what it asked for. */
  lemma RefusalExplained(m: Manifest, rows: int)
    requires m.invocations != [] && Wanted(m, rows)
    ensures match Requirement(m, rows)
            case Allowed => true
            case Exceeded(reason, terminal) => StopExplained(m, reason, terminal)
  {
    hide Wanted;
  }

  /** A scan page is refused only when it is retried: a first attempt asks for no more than is left. */
  lemma ScanRefused(m: Manifest, rows: int, size: Positive)
    requires m.invocations != [] && Requirement(m, 1) == Allowed && rows == Min(size, Remaining(m).rows)
    ensures 0 < rows && Requirement(m, rows) == Allowed
  {
  }

  /** The fields that decide a stop. */
  predicate SameBudget(a: Manifest, b: Manifest) {
    && a.ceilings == b.ceilings && a.reservations == b.reservations && a.parameters == b.parameters
    && a.scan == b.scan && a.members == b.members && a.metadataVerified == b.metadataVerified
    && |a.invocations| == |b.invocations|
    && forall i :: 0 <= i < |a.invocations| ==> a.invocations[i].id == b.invocations[i].id && a.invocations[i].grant == b.invocations[i].grant
  }

  lemma SameStop(a: Manifest, b: Manifest, reason: Reason, terminal: bool)
    requires StopExplained(a, reason, terminal) && SameBudget(a, b)
    ensures StopExplained(b, reason, terminal)
  {
    hide Wanted;
    forall rows | Wanted(a, rows) ensures Wanted(b, rows) { SameWanted(a, b, rows); }
  }

  lemma SameWanted(a: Manifest, b: Manifest, rows: int)
    requires Wanted(a, rows) && SameBudget(a, b)
    ensures Wanted(b, rows)
  {
  }

  lemma SameBudgetTransitive(a: Manifest, b: Manifest, c: Manifest)
    requires SameBudget(a, b) && SameBudget(b, c)
    ensures SameBudget(a, c)
  {
  }

  lemma RefreshedBudget(m: Manifest, state: State)
    ensures var r := Refreshed(m, state);
            SameBudget(m, r) && r.reason == m.reason && r.truncated == m.truncated && r.status == m.status
  {
  }
}

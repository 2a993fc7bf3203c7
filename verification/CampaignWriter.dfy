/**
 * The writer's side of a campaign: what its in-memory manifest keeps at every step, what each
 * saved manifest adds, and why the replay accepts exactly what the writer leaves behind.
 */
module CampaignWriter {
  import opened Wrappers
  import opened Text
  import opened Campaign
  import opened CampaignVerifier
  import opened CampaignSoundness

  // ---- What the manifest in memory keeps --------------------------------------------------

  /** The lanes and counts agree with the pages, which follow the plan. */
  predicate PagesKept(m: Manifest) {
    && (forall i :: 0 <= i < |m.pages| ==> PageBounded(m.pages[i], m.parameters.pageSize))
    && Replay(m.parameters, m.pages).Some?
    && LanesReplayed(m, Replay(m.parameters, m.pages).value)
  }

  /** Each response names its page, and each page has its response. */
  predicate ReceiptsKept(pages: seq<Page>, rs: seq<Reservation>, metadataVerified: bool) {
    && (forall i :: 0 <= i < |pages| ==> ReceiptMatches(rs, pages[i], i + 1))
    && multiset(PageReceipts(rs)) == multiset(Range(|pages|))
    && MetadataResponses(rs) == if metadataVerified then 1 else 0
  }

  predicate ReservationsKept(rs: seq<Reservation>, invocations: seq<Invocation>) {
    forall i :: 0 <= i < |rs| ==> ReservationOk(rs, invocations, i)
  }

  /** An invocation record; only the last one may lag behind its charges until the next save. */
  predicate InvocationKept(named: bool, rs: seq<Reservation>, invocations: seq<Invocation>, i: nat)
    requires i < |invocations|
  {
    var v := invocations[i];
    && KeyOk(named, invocations, i)
    && v.id == i + 1 && InvocationState(v.state) && WithinGrant(ConsumedBy(rs, i + 1), v.grant)
    && (i + 1 < |invocations| ==> v.consumed == ConsumedBy(rs, i + 1))
  }

  predicate GrantsKept(plan: Plan, rs: seq<Reservation>, invocations: seq<Invocation>) {
    && (forall i :: 0 <= i < |invocations| ==> InvocationKept(plan.named, rs, invocations, i))
    && Consumed(rs).rows <= plan.ceilings.rows && Consumed(rs).attempts <= plan.ceilings.attempts
  }

  predicate Books(m: Manifest) {
    && IdentityOk(m) && PlanOk(m.parameters) && m.checkpoint == None
    && PagesKept(m)
    && ReceiptsKept(m.pages, m.reservations, m.metadataVerified)
    && ReservationsKept(m.reservations, m.invocations)
    && GrantsKept(m.parameters, m.reservations, m.invocations)
  }

  /** The files that the manifest refers to are on disk. */
  predicate Stored(m: Manifest, files: map<Path, seq<Row>>, metadata: Option<Metadata>) {
    && (forall i :: 0 <= i < |m.pages| ==> PageStored(m.pages[i], files))
    && (m.metadataVerified ==> metadata.Some? && metadata == m.metadataDigest && metadata.value.valid)
  }

  /** The fields that `persist` recomputes are up to date. */
  predicate Settled(m: Manifest) {
    && m.complete == LanesComplete(m) && m.rangeComplete == LanesComplete(m)
    && (m.invocations != [] ==>
          m.invocations[|m.invocations| - 1].consumed == ConsumedBy(m.reservations, |m.invocations|))
    && m.acquisition == Snapshot(m, m.acquisition.state)
    && m.acquisition.state != Interrupted
    && (m.acquisition.state == Acquired ==> LanesComplete(m))
  }

  predicate Durable(m: Manifest, files: map<Path, seq<Row>>, metadata: Option<Metadata>) {
    Books(m) && Settled(m) && Stored(m, files, metadata)
  }

  /** Every baseline identity asked for so far is text the acquisition checks accept. */
  predicate AskedUsable(m: Manifest) {
    && 0 <= m.members.offset <= |m.parameters.Ids()|
    && forall i :: 0 <= i < m.members.offset ==> Usable(m.parameters.Ids()[i])
  }

  // ---- Writer and verifier agree ----------------------------------------------------------

  lemma MissingUsable(m: Manifest)
    requires PagesKept(m)
    ensures (forall id :: id in m.members.missing ==> Usable(id)) <==> AskedUsable(m)
  {
    ReplayMeaning(m.parameters, m.pages);
    var ids := m.parameters.Ids();
    var asked := ids[..m.members.offset];
    forall i | 0 <= i < m.members.offset
      ensures (forall id :: id in m.members.missing ==> Usable(id)) ==> Usable(ids[i])
    {
      assert asked[i] in Elements(asked);
    }
  }

  lemma PagesHaveReceipts(m: Manifest)
    requires Books(m) && m.pages != []
    ensures Consumed(m.reservations).attempts > 0
  {
    AttemptsCounted(m.reservations);
    assert ReceiptMatches(m.reservations, m.pages[0], 1);
  }

  lemma CompleteHasPages(m: Manifest)
    requires PagesKept(m) && m.scan.complete
    ensures m.pages != []
  {
  }

  lemma {:induction false} ConsumedNonNegative(rs: seq<Reservation>)
    requires forall i :: 0 <= i < |rs| ==> 0 <= rs[i].charged
    ensures Consumed(rs).rows >= 0 && Consumed(rs).attempts >= 0
  {
    if rs != [] { ConsumedNonNegative(rs[..|rs| - 1]); }
  }

  lemma SettledAcquisition(m: Manifest)
    requires Books(m) && Settled(m)
    ensures ValidAcquisition(m.acquisition) <==> AskedUsable(m)
  {
    hide Replay, Advance, ReceiptsKept, GrantsKept;
    MissingUsable(m);
    assert Consumed(m.reservations).rows >= 0 && Consumed(m.reservations).attempts >= 0 by {
      forall i | 0 <= i < |m.reservations| ensures 0 <= m.reservations[i].charged {
        assert ReservationOk(m.reservations, m.invocations, i);
      }
      ConsumedNonNegative(m.reservations);
    }
    assert Consumed(m.reservations).rows <= m.ceilings.rows && Consumed(m.reservations).attempts <= m.ceilings.attempts by {
      CeilingsKept(m);
    }
    if m.pages != [] {
      ObservedInOrder(m.pages);
      PagesHaveReceipts(m);
    }
    if m.scan.complete { CompleteHasPages(m); }
    assert m.baseline.None? ==> m.members.missing == {} by { NoBaselineNothingMissing(m); }
  }

  lemma CeilingsKept(m: Manifest)
    requires Books(m)
    ensures Consumed(m.reservations).rows <= m.ceilings.rows && Consumed(m.reservations).attempts <= m.ceilings.attempts
  {
  }

  lemma NoBaselineNothingMissing(m: Manifest)
    requires Books(m)
    ensures m.baseline.None? ==> m.members.missing == {}
  {
  }

  /**
   * Writer and verifier agree: the replay accepts a manifest the writer saved exactly when every
   * baseline identity asked for so far is usable text.
   */
  lemma AgreementExact(m: Manifest, files: map<Path, seq<Row>>, metadata: Option<Metadata>)
    requires Durable(m, files, metadata)
    ensures Accepts(m, files, metadata) <==> AskedUsable(m)
  {
    hide Replay, Advance, ReceiptMatches, ValidAcquisition, AskedUsable;
    SettledAcquisition(m);
    forall i | 0 <= i < |m.invocations| ensures InvocationOk(m, i) {
      assert InvocationKept(m.parameters.named, m.reservations, m.invocations, i);
    }
    assert EvidenceOk(m, metadata);
  }

  // ---- Saving -----------------------------------------------------------------------------

  predicate Savable(m: Manifest, state: State) {
    state != Planned && state != Interrupted && (state == Acquired ==> LanesComplete(m))
  }

  lemma RefreshedSettles(m: Manifest, state: State)
    requires Books(m) && Savable(m, state)
    ensures Books(Refreshed(m, state)) && Settled(Refreshed(m, state))
  {
    hide Replay, Advance, ReceiptMatches, ReceiptsKept, PageBounded;
    var r := Refreshed(m, state);
    assert PagesKept(r);
    if m.invocations != [] {
      var n := |m.invocations| - 1;
      assert InvocationKept(m.parameters.named, m.reservations, m.invocations, n);
      KeysOnly(m.parameters.named, m.reservations, m.invocations, r.invocations);
      assert ReservationsKept(r.reservations, r.invocations) by { IdsOnly(m.reservations, m.invocations, r.invocations); }
    }
  }

  /** Reservations look only at the ids of the invocations. */
  lemma IdsOnly(rs: seq<Reservation>, a: seq<Invocation>, b: seq<Invocation>)
    requires ReservationsKept(rs, a) && |a| <= |b| && forall i :: 0 <= i < |a| ==> a[i].id == b[i].id
    ensures ReservationsKept(rs, b)
  {
    forall i | 0 <= i < |rs| ensures ReservationOk(rs, b, i) {
      assert ReservationOk(rs, a, i);
    }
  }

  /** Replacing the outcome of the last invocation keeps every invocation record. */
  lemma KeysOnly(named: bool, rs: seq<Reservation>, a: seq<Invocation>, b: seq<Invocation>)
    requires forall i :: 0 <= i < |a| ==> InvocationKept(named, rs, a, i)
    requires |a| == |b| > 0 && a[..|a| - 1] == b[..|a| - 1]
    requires var v, w := a[|a| - 1], b[|a| - 1];
             v.id == w.id && v.grant == w.grant && v.key == w.key && InvocationState(w.state)
    ensures forall i :: 0 <= i < |b| ==> InvocationKept(named, rs, b, i)
  {
    forall i | 0 <= i < |b| ensures InvocationKept(named, rs, b, i) {
      assert InvocationKept(named, rs, a, i);
      assert i < |a| - 1 ==> a[..|a| - 1][i] == a[i] && b[..|a| - 1][i] == b[i];
      forall j | 0 <= j < i ensures a[j].key == b[j].key {
        assert a[..|a| - 1][j] == a[j] && b[..|a| - 1][j] == b[j];
      }
    }
  }

  lemma StartedDurable(plan: Plan, files: map<Path, seq<Row>>, metadata: Option<Metadata>)
    requires PlanOk(plan)
    ensures Durable(Started(plan), files, metadata)
  {
    var m := Started(plan);
    assert Range(0) == [];
    assert Replay(plan, m.pages) == Some(START);
    assert plan.Ids()[..0] == [];
  }

  // ---- What the books account for ---------------------------------------------------------

  /**
   * Charge conservation at every state of the writer, saved or in memory, accepted or not: charged
   * rows are the rows written plus the full capacity of every unanswered attempt, within both
   * ceilings.
   */
  lemma BooksConserveCharges(m: Manifest)
    requires Books(m)
    ensures Consumed(m.reservations).rows == m.written + Unanswered(m.reservations) <= m.ceilings.rows
    ensures Consumed(m.reservations).attempts == |m.reservations| <= m.ceilings.attempts
  {
    hide Advance, PageBounded, ReceiptMatches, ReservationOk, InvocationKept;
    CeilingsKept(m);
    BooksSettled(m);
    ReplayMeaning(m.parameters, m.pages);
    hide Books, Replay, ReceiptsSettled;
    SettledCharges(m);
  }

  lemma BooksSettled(m: Manifest)
    requires Books(m)
    ensures ReceiptsSettled(m) && m.written == Replay(m.parameters, m.pages).value.received
    ensures GrantsRespected(m)
  {
    hide Advance, Replay, PageBounded, ReceiptMatches, ReservationOk, WithinGrant, KeyOk;
    forall i | 0 <= i < |m.invocations| ensures WithinGrant(ConsumedBy(m.reservations, i + 1), m.invocations[i].grant) {
      assert InvocationKept(m.parameters.named, m.reservations, m.invocations, i);
    }
  }

  /** At every state of the writer the invocations partition the charges, each within its own grant. */
  lemma BooksPartitionCharges(m: Manifest)
    requires Books(m)
    ensures GrantsRespected(m) && UsageTotal(m.reservations, |m.invocations|) == Consumed(m.reservations)
    ensures Consumed(m.reservations).rows <= GrantTotal(m.invocations).rows
    ensures Consumed(m.reservations).attempts <= GrantTotal(m.invocations).attempts
  {
    BooksSettled(m);
    hide Books, ReceiptsSettled, GrantsRespected;
    SettledGrants(m);
  }
}

/**
 * Publishing Bronze runs across crashes: prepare, commit to the database, mark as committed, and the
 * recovery that finishes what a crash left between those steps.
 */
module BronzeRecovery {
  import opened Wrappers
  import opened Durability
  import opened BronzeIndex
  import opened PageNames
  import Text
  import Bronze
  import BronzeLanes

  datatype Status = Prepared | Committed

  /**
   * A published manifest with the rows of its page files. `counts` is what the commit reported; it
   * starts at zero and is written into the manifest by the mark that follows the commit.
   */
  datatype Manifest = Manifest(pages: seq<StoredPage>, incremental: bool, complete: bool, candidate: Option<string>,
                               status: Status, counts: Counts)
  {
    /** What a commit of this run applies. */
    function Content(): Batch { Batch(ObservationsOf(pages), incremental, complete, candidate) }
  }

  const UNCOUNTED := Counts(0, 0, 0)

  /** What the next durable step does; a step beyond the script dies without effect. */
  type Script = seq<Write>

  datatype Signal = Done | Failed | Killed

  function SignalOf(write: Write): (s: Signal)
    ensures s == Done <==> write == Written
    ensures s == Failed <==> write == RaisedBefore || write == RaisedAfter
    ensures s == Killed <==> write == KilledBefore || write == KilledAfter
  {
    if write.Written? then Done else if write.Kills() then Killed else Failed
  }

  // ---- The manifest of a finished extraction ----------------------------------------------

  function LaneName(lane: Bronze.Lane): string { if lane == Bronze.Primary then "primary" else "null_watermark" }

  function RowKey(row: Bronze.Row): (string, string) { (row.identity, row.payload) }

  function PageFile(page: Bronze.Page): StoredPage {
    StoredPage(PagePath(LaneName(page.lane), page.sequence),
               seq(|page.rows|, i requires 0 <= i < |page.rows| => RowKey(page.rows[i])))
  }

  function PageFiles(pages: seq<Bronze.Page>): seq<StoredPage> {
    seq(|pages|, i requires 0 <= i < |pages| => PageFile(pages[i]))
  }

  /** What `_finish` prepares: the pages, the range flag and the checkpoint candidate. */
  function FinishedManifest(plan: Bronze.Plan, run: Bronze.Run, before: Option<string>): Manifest {
    Manifest(PageFiles(run.pages), true, run.RangeComplete(),
             CandidateOf(plan.window.requestedTo, before, run.RangeComplete()), Prepared, UNCOUNTED)
  }

  predicate HoldsRow(pages: seq<StoredPage>, k: (string, string)) {
    exists p, i :: 0 <= p < |pages| && 0 <= i < |pages[p].rows| && pages[p].rows[i] == k
  }

  /** The observations that a commit applies are the rows of the pages. */
  lemma KeysAreRows(pages: seq<StoredPage>, k: (string, string))
    ensures k in Keys(ObservationsOf(pages)) <==> HoldsRow(pages, k)
  {
    if k in Keys(ObservationsOf(pages)) {
      var o :| o in ObservationsOf(pages) && o.Key() == k;
      ObservationsAreRows(pages, o);
    }
    if HoldsRow(pages, k) {
      var p, i :| 0 <= p < |pages| && 0 <= i < |pages[p].rows| && pages[p].rows[i] == k;
      var o := Observation(k.0, k.1, pages[p].path, i);
      assert RowAt(pages, o, p);
      ObservationsAreRows(pages, o);
    }
  }

  predicate LaneHolds(rows: seq<Bronze.Row>, k: (string, string)) {
    exists i :: 0 <= i < |rows| && RowKey(rows[i]) == k
  }

  /** The source holds `k` in a row that belongs in the window. */
  predicate WindowHolds(t: Bronze.Truth, window: Bronze.Window, k: (string, string)) {
    || (exists i :: 0 <= i < |t.primary| && BronzeLanes.Updated(t.primary[i], window) && RowKey(t.primary[i]) == k)
    || (exists i :: 0 <= i < |t.rest| && BronzeLanes.Signed(t.rest[i], window) && RowKey(t.rest[i]) == k)
  }

  lemma WindowLanes(t: Bronze.Truth, window: Bronze.Window, k: (string, string))
    ensures WindowHolds(t, window, k) <==>
            || LaneHolds(Bronze.LaneWindow(t, window, Bronze.Primary), k)
            || LaneHolds(Bronze.LaneWindow(t, window, Bronze.NullWatermark), k)
  {
    hide Bronze.LaneWindow, BronzeLanes.Updated, BronzeLanes.Signed;
    var primary, rest := Bronze.LaneWindow(t, window, Bronze.Primary), Bronze.LaneWindow(t, window, Bronze.NullWatermark);
    forall row ensures row in primary <==> row in t.primary && BronzeLanes.Updated(row, window) {
      BronzeLanes.WindowRows(t, window, row);
    }
    forall row ensures row in rest <==> row in t.rest && BronzeLanes.Signed(row, window) {
      BronzeLanes.WindowRows(t, window, row);
    }
    LaneHoldsRow(primary, k);
    LaneHoldsRow(rest, k);
    if WindowHolds(t, window, k) {
      if i :| 0 <= i < |t.primary| && BronzeLanes.Updated(t.primary[i], window) && RowKey(t.primary[i]) == k {
        assert t.primary[i] in primary;
      }
      if i :| 0 <= i < |t.rest| && BronzeLanes.Signed(t.rest[i], window) && RowKey(t.rest[i]) == k {
        assert t.rest[i] in rest;
      }
    }
    if row :| row in primary && RowKey(row) == k {
      var i :| 0 <= i < |t.primary| && t.primary[i] == row;
    }
    if row :| row in rest && RowKey(row) == k {
      var i :| 0 <= i < |t.rest| && t.rest[i] == row;
    }
  }

  lemma LaneHoldsRow(rows: seq<Bronze.Row>, k: (string, string))
    ensures LaneHolds(rows, k) <==> exists row :: row in rows && RowKey(row) == k
  {
    if row :| row in rows && RowKey(row) == k {
      var i :| 0 <= i < |rows| && rows[i] == row;
    }
  }

  lemma LaneHoldsConcat(a: seq<Bronze.Row>, b: seq<Bronze.Row>, k: (string, string))
    ensures LaneHolds(a + b, k) <==> LaneHolds(a, k) || LaneHolds(b, k)
  {
    if i :| 0 <= i < |a| && RowKey(a[i]) == k { assert RowKey((a + b)[i]) == k; }
    if i :| 0 <= i < |b| && RowKey(b[i]) == k { assert RowKey((a + b)[|a| + i]) == k; }
  }

  lemma HoldsRowSnoc(pages: seq<StoredPage>, page: StoredPage, k: (string, string))
    ensures HoldsRow(pages + [page], k) <==> HoldsRow(pages, k) || k in page.rows
  {
    var all := pages + [page];
    if p, i :| 0 <= p < |pages| && 0 <= i < |pages[p].rows| && pages[p].rows[i] == k { assert all[p].rows[i] == k; }
    if i :| 0 <= i < |page.rows| && page.rows[i] == k { assert all[|pages|].rows[i] == k; }
  }

  lemma FileHoldsRows(page: Bronze.Page, k: (string, string))
    ensures k in PageFile(page).rows <==> LaneHolds(page.rows, k)
  {
    if i :| 0 <= i < |page.rows| && RowKey(page.rows[i]) == k { assert PageFile(page).rows[i] == k; }
  }

  lemma PageFilesSnoc(pages: seq<Bronze.Page>, page: Bronze.Page)
    ensures PageFiles(pages + [page]) == PageFiles(pages) + [PageFile(page)]
  {
  }

  lemma LaneHoldsSnoc(pages: seq<Bronze.Page>, page: Bronze.Page, lane: Bronze.Lane, k: (string, string))
    ensures LaneHolds(Bronze.LaneRows(pages + [page], lane), k) <==>
            LaneHolds(Bronze.LaneRows(pages, lane), k) || (page.lane == lane && LaneHolds(page.rows, k))
  {
    BronzeLanes.LaneRowsSnoc(pages, page, lane);
    LaneHoldsConcat(Bronze.LaneRows(pages, lane), if page.lane == lane then page.rows else [], k);
  }

  /** The files of a run hold the rows of its two lanes. */
  lemma {:induction false} FilesHoldLanes(pages: seq<Bronze.Page>, k: (string, string))
    ensures HoldsRow(PageFiles(pages), k) <==>
            || LaneHolds(Bronze.LaneRows(pages, Bronze.Primary), k)
            || LaneHolds(Bronze.LaneRows(pages, Bronze.NullWatermark), k)
  {
    if pages != [] {
      hide *;
      var before, page := pages[..|pages| - 1], pages[|pages| - 1];
      FilesHoldLanes(before, k);
      assert pages == before + [page];
      PageFilesSnoc(before, page);
      HoldsRowSnoc(PageFiles(before), PageFile(page), k);
      FileHoldsRows(page, k);
      LaneHoldsSnoc(before, page, Bronze.Primary, k);
      LaneHoldsSnoc(before, page, Bronze.NullWatermark, k);
    }
  }

  /**
   * What a complete extraction publishes, against an unchanging source, is exactly what the source
   * holds in both lanes of the window; it proposes the window's end or a later starting checkpoint.
   */
  lemma FinishedWindow(plan: Bronze.Plan, run: Bronze.Run, before: Option<string>, t: Bronze.Truth, k: (string, string))
    requires BronzeLanes.Kept(plan, run) && BronzeLanes.Served(plan, run, t) && Bronze.TruthOk(t) && run.RangeComplete()
    ensures var m := FinishedManifest(plan, run, before);
            && (HoldsRow(m.pages, k) <==> WindowHolds(t, plan.window, k))
            && m.candidate.Some? && !Text.Less(m.candidate.value, plan.window.requestedTo)
            && (Advances(m.Content()) <==> m.candidate.value != "")
  {
    hide BronzeLanes.Kept, BronzeLanes.Served, Bronze.TruthOk, HoldsRow, LaneHolds, Bronze.LaneWindow, WindowHolds;
    BronzeLanes.RangeCompleteExact(plan, run, t);
    FilesHoldLanes(run.pages, k);
    WindowLanes(t, plan.window, k);
  }

  // ---- Manifests and database -------------------------------------------------------------

  /** The prepared runs of a directory of published manifests. */
  function PreparedRuns(published: map<RunId, Manifest>): set<RunId> {
    set r | r in published && published[r].status == Prepared
  }

  /** What commit `i` counted when it was applied. */
  function CountsAt(commits: seq<Commit>, i: nat): Counts
    requires i < |commits|
  {
    CountsOf(IndexOf(commits[..i]), commits[i].run, commits[i].batch.observations)
  }

  /** The manifest of commit `i` holds what was committed, and either what it counted or nothing counted. */
  predicate FiledAt(published: map<RunId, Manifest>, commits: seq<Commit>, i: nat)
    requires i < |commits|
  {
    && commits[i].run in published && published[commits[i].run].Content() == commits[i].batch
    && (published[commits[i].run].counts == CountsAt(commits, i) || published[commits[i].run].counts == UNCOUNTED)
  }

  /** Manifests and database agree: committed manifests are in the database, and nothing else claims to be. */
  predicate Filed(published: map<RunId, Manifest>, commits: seq<Commit>) {
    && (forall i :: 0 <= i < |commits| ==> FiledAt(published, commits, i))
    && (forall r :: r in published && published[r].status == Committed ==> r in RunsOf(commits))
    && (forall r :: r in published && published[r].status == Prepared ==> published[r].counts == UNCOUNTED)
  }

  lemma CommitFiled(published: map<RunId, Manifest>, commits: seq<Commit>, run: RunId)
    requires Filed(published, commits) && run in published && published[run].status == Prepared
    ensures Filed(published, commits + [Commit(run, published[run].Content())])
  {
    hide CountsAt, ObservationsOf;
    var c := Commit(run, published[run].Content());
    var after := commits + [c];
    RunsSnoc(commits, c);
    forall i | 0 <= i < |after| ensures FiledAt(published, after, i) {
      if i < |commits| {
        assert FiledAt(published, commits, i) && after[i] == commits[i];
        CountsKept(commits, c, i);
      }
    }
  }

  lemma CountsKept(commits: seq<Commit>, c: Commit, i: nat)
    requires i < |commits|
    ensures CountsAt(commits + [c], i) == CountsAt(commits, i)
  {
    assert (commits + [c])[..i] == commits[..i];
  }

  /** A mark may carry the counts of the run's commit, or none. */
  predicate MayRecord(commits: seq<Commit>, run: RunId, counts: Counts) {
    forall i :: 0 <= i < |commits| && commits[i].run == run ==> counts == CountsAt(commits, i) || counts == UNCOUNTED
  }

  lemma MarkFiled(published: map<RunId, Manifest>, commits: seq<Commit>, run: RunId, counts: Counts)
    requires Filed(published, commits) && run in published && run in RunsOf(commits) && MayRecord(commits, run, counts)
    ensures Filed(published[run := published[run].(status := Committed, counts := counts)], commits)
  {
    hide CountsAt, RunsOf, ObservationsOf;
    var after := published[run := published[run].(status := Committed, counts := counts)];
    forall i | 0 <= i < |commits| ensures FiledAt(after, commits, i) {
      assert FiledAt(published, commits, i);
    }
  }

  lemma PrepareFiled(published: map<RunId, Manifest>, commits: seq<Commit>, run: RunId, m: Manifest)
    requires Filed(published, commits) && run !in published && m.status == Prepared && m.counts == UNCOUNTED
    ensures Filed(published[run := m], commits)
  {
    hide CountsAt, RunsOf, ObservationsOf;
    var after := published[run := m];
    forall i | 0 <= i < |commits| ensures FiledAt(after, commits, i) {
      assert FiledAt(published, commits, i);
    }
  }

  /** When no run is left prepared, the database holds exactly the published runs. */
  lemma AllSettled(published: map<RunId, Manifest>, commits: seq<Commit>)
    requires Filed(published, commits) && PreparedRuns(published) == {}
    ensures RunsOf(commits) == published.Keys
  {
    forall r | r in published.Keys ensures r in RunsOf(commits) {
      assert r !in PreparedRuns(published);
    }
    forall r | r in RunsOf(commits) ensures r in published.Keys {
      var i :| 0 <= i < |commits| && commits[i].run == r;
      assert FiledAt(published, commits, i);
    }
  }

  /** When no run is left prepared, the index holds exactly the rows of the published pages. */
  lemma IndexHoldsPublished(published: map<RunId, Manifest>, commits: seq<Commit>, k: (string, string))
    requires Filed(published, commits) && PreparedRuns(published) == {}
    ensures k in IndexOf(commits) <==> exists r :: r in published && HoldsRow(published[r].pages, k)
  {
    hide CountsAt, HoldsRow, ObservationsOf, Keys, IndexOf;
    AllSettled(published, commits);
    NotIndexed(commits, k);
    forall i | 0 <= i < |commits|
      ensures FiledAt(published, commits, i) && (Saw(commits[i], k) <==> HoldsRow(published[commits[i].run].pages, k))
    {
      assert FiledAt(published, commits, i);
      KeysAreRows(published[commits[i].run].pages, k);
    }
    if r :| r in published && HoldsRow(published[r].pages, k) {
      assert r in RunsOf(commits);
      var i :| 0 <= i < |commits| && commits[i].run == r;
      assert Saw(commits[i], k);
    }
  }

  /** The counts of the last commit are the ones its manifest may record. */
  lemma LastCounts(commits: seq<Commit>, c: Commit, counts: Counts)
    requires OnceEach(commits + [c]) && counts == CountsOf(IndexOf(commits), c.run, c.batch.observations)
    ensures forall i :: 0 <= i < |commits + [c]| && (commits + [c])[i].run == c.run ==> counts == CountsAt(commits + [c], i)
  {
    var after := commits + [c];
    assert after[..|commits|] == commits && after[|commits|] == c;
  }

  /** The manifest of a run records what its commit counted. */
  predicate Recorded(m: Manifest, commits: seq<Commit>, run: RunId) {
    forall i :: 0 <= i < |commits| && commits[i].run == run ==> m.counts == CountsAt(commits, i)
  }

  /** The commit of a run counted nothing: no row, neither added nor repeated. */
  predicate CountedNothing(commits: seq<Commit>, run: RunId) {
    forall i :: 0 <= i < |commits| && commits[i].run == run ==> CountsAt(commits, i) == UNCOUNTED
  }

  /** The manifest shows the counts of its commit exactly if that was made since `before`, or counted nothing. */
  predicate CountsShown(m: Manifest, before: seq<Commit>, commits: seq<Commit>, run: RunId) {
    Recorded(m, commits, run) <==> run !in RunsOf(before) || CountedNothing(commits, run)
  }

  lemma ShownWhenNew(m: Manifest, before: seq<Commit>, commits: seq<Commit>, run: RunId)
    requires CountsShown(m, before, commits, run) && run !in RunsOf(before)
    ensures Recorded(m, commits, run)
  {
  }

  lemma CountsShownKept(m: Manifest, before: seq<Commit>, commits: seq<Commit>, c: Commit, run: RunId)
    requires c.run != run && CountsShown(m, before, commits, run)
    ensures CountsShown(m, before, commits + [c], run)
  {
    hide CountsAt;
    var after := commits + [c];
    assert after[|commits|] == c;
    forall i | 0 <= i < |commits| ensures after[i] == commits[i] && CountsAt(after, i) == CountsAt(commits, i) {
      CountsKept(commits, c, i);
    }
  }

  class BronzeStorage {
    const state: IngestionState
    const script: Script
    var next: nat
    var published: map<RunId, Manifest>

    ghost predicate Valid()
      reads this, state
    {
      state.Valid() && Filed(published, state.commits)
    }

    constructor (script: Script)
      ensures Valid() && fresh(state) && published == map[] && state.commits == [] && next == 0 && this.script == script
    {
      this.script, next, published := script, 0, map[];
      state := new IngestionState();
    }

    function At(i: nat): Write { if i < |script| then script[i] else KilledBefore }

    /** No write went wrong between two points. */
    predicate AllWritten(from: nat, to: nat) { forall i :: from <= i < to ==> At(i).Written? }

    method Draw() returns (w: Write)
      modifies `next
      ensures next == old(next) + 1 && w == At(old(next))
    {
      w := At(next);
      next := next + 1;
    }

    /** Moves a finished staging directory into place under its run identifier. */
    method Prepare(run: RunId, m: Manifest) returns (s: Signal)
      requires Valid() && m.status == Prepared && m.counts == UNCOUNTED
      modifies `next, `published
      ensures Valid()
      ensures run in old(published) ==> s == Failed && published == old(published) && next == old(next)
      ensures run !in old(published) ==>
        && s == SignalOf(At(old(next))) && next == old(next) + 1
        && published == if At(old(next)).Lands() then old(published)[run := m] else old(published)
    {
      hide Filed;
      if run in published { return Failed; }
      var w := Draw();
      if w.Lands() {
        PrepareFiled(published, state.commits, run, m);
        published := published[run := m];
      }
      s := SignalOf(w);
    }

    method MarkCommitted(run: RunId, counts: Counts) returns (s: Signal)
      requires Valid() && run in published && run in RunsOf(state.commits) && MayRecord(state.commits, run, counts)
      modifies `next, `published
      ensures Valid() && s == SignalOf(At(old(next))) && next == old(next) + 1
      ensures var marked := old(published)[run].(status := Committed, counts := counts);
        published == if At(old(next)).Lands() then old(published)[run := marked] else old(published)
    {
      hide Filed, MayRecord, RunsOf;
      var w := Draw();
      if w.Lands() {
        MarkFiled(published, state.commits, run, counts);
        published := published[run := published[run].(status := Committed, counts := counts)];
      }
      s := SignalOf(w);
    }

    /**
     * Commits a prepared run, unless the database already has it, and marks it. Only a commit of its
     * own hands the counts to the mark: a run that was already in the database is marked with the
     * zeros its manifest started with, which are its counts only if its commit counted nothing.
     */
    method Settle(run: RunId) returns (s: Signal)
      requires Valid() && run in published && published[run].status == Prepared
      modifies `next, `published, state
      ensures Valid() && published.Keys == old(published).Keys
      ensures published[run] == old(published)[run].(status := published[run].status, counts := published[run].counts)
      ensures forall r :: r in published && r != run ==> published[r] == old(published)[r]
      ensures var known, first := run in RunsOf(old(state.commits)), At(old(next));
        var made, mark := known || first.Written?, At(old(next) + if known then 0 else 1);
        && next == old(next) + (if known || !first.Written? then 1 else 2)
        && state.commits == (if !known && first.Lands()
                             then old(state.commits) + [Commit(run, published[run].Content())] else old(state.commits))
        && (if made && mark.Lands() then published[run].status == Committed else published == old(published))
        && (known ==> published[run].counts == old(published)[run].counts)
        && s == if made then SignalOf(mark) else SignalOf(first)
      ensures s == Done ==>
        && published[run].status == Committed && run in RunsOf(state.commits)
        && CountsShown(published[run], old(state.commits), state.commits, run)
    {
      hide Filed, CountsAt, RunsOf, IndexOf, CheckpointOf, CountsOf, ObservationsOf;
      UncountedYet(published, state.commits, run);
      if run in state.runs {
        SomeCommit(state.commits, run);
        s := MarkCommitted(run, published[run].counts);
        return;
      }
      ghost var before := state.commits;
      var observations := ObservationsFromPages(published[run].pages);
      var batch := Batch(observations, published[run].incremental, published[run].complete, published[run].candidate);
      ghost var c := Commit(run, batch);
      CommitFiled(published, before, run);
      RunsSnoc(before, c);
      var w := Draw();
      var counts := state.CommitRun(run, batch, w.Lands());
      s := SignalOf(w);
      if s != Done { return; }
      assert state.commits == before + [c];
      LastCounts(before, c, counts);
      s := MarkCommitted(run, counts);
    }

    /** Publishes one finished extraction under a new identifier: prepare, commit, mark. */
    method Finish(run: RunId, plan: Bronze.Plan, extracted: Bronze.Run, before: Option<string>) returns (s: Signal)
      requires Valid()
      modifies `next, `published, state
      ensures Valid() && old(state.commits) <= state.commits
      ensures forall r :: r in old(published) ==> r in published && published[r] == old(published)[r]
      ensures published.Keys <= old(published).Keys + {run}
      ensures old(next) <= next && (run !in old(published) && AllWritten(old(next), next) ==> s == Done)
      ensures s == Done ==>
        && run !in old(published) && run in published && published[run].status == Committed
        && state.commits == old(state.commits) + [Commit(run, published[run].Content())]
        && published[run].pages == PageFiles(extracted.pages)
        && published[run].Content() == FinishedManifest(plan, extracted, before).Content()
        && Recorded(published[run], state.commits, run)
    {
      hide Filed, CountsAt, RunsOf, ObservationsOf, Recorded, CountedNothing, PageFiles, CountsShown, CandidateOf;
      if run !in published { NotFiled(published, state.commits, run); }
      s := Prepare(run, FinishedManifest(plan, extracted, before));
      if s != Done { return; }
      ghost var commits := state.commits;
      s := Settle(run);
      if s == Done { ShownWhenNew(published[run], commits, state.commits, run); }
    }

    /**
     * Recovery: settles every prepared run. When it gets through, none is left, the index holds
     * exactly the rows of the published pages, and a recovered run shows its counts exactly if its
     * commit was made here or counted nothing.
     */
    method ReconcilePrepared() returns (s: Signal)
      requires Valid()
      modifies `next, `published, state
      ensures Valid() && old(state.commits) <= state.commits
      ensures SameRuns(old(published), published)
      ensures old(next) <= next && (AllWritten(old(next), next) ==> s == Done)
      ensures s == Done ==> PreparedRuns(published) == {} && RunsOf(state.commits) == published.Keys
      ensures s == Done ==> IndexHolds(state.index, published)
      ensures s == Done ==> forall r :: r in PreparedRuns(old(published)) ==>
                CountsShown(published[r], old(state.commits), state.commits, r)
    {
      hide Filed, RunsOf, ObservationsOf, CountsShown, HoldsRow, IndexOf, CheckpointOf;
      s := Done;
      ghost var done: set<RunId> := {};
      var left := PreparedRuns(published);
      while left != {}
        invariant Valid() && old(state.commits) <= state.commits && s == Done && old(next) <= next
        invariant SameRuns(old(published), published)
        invariant left == PreparedRuns(published) && done + left == PreparedRuns(old(published)) && done !! left
        invariant forall r :: r in left && r in RunsOf(state.commits) ==> r in RunsOf(old(state.commits))
        invariant forall r :: r in left && r in RunsOf(old(state.commits)) ==> r in RunsOf(state.commits)
        invariant forall r :: r in done ==> CountsShown(published[r], old(state.commits), state.commits, r)
        decreases left
      {
        var run :| run in left;
        ghost var before, commits := published, state.commits;
        s := Settle(run);
        SameButOne(old(published), before, published, run);
        if s != Done { return; }
        OneLess(before, published, run);
        CountsSince(published[run], old(state.commits), commits, state.commits, run);
        ghost var c := Commit(run, published[run].Content());
        forall r | r in done ensures CountsShown(published[r], old(state.commits), state.commits, r) {
          if state.commits != commits { CountsShownKept(published[r], old(state.commits), commits, c, r); }
        }
        if state.commits != commits { RunsSnoc(commits, c); }
        left := left - {run};
        done := done + {run};
      }
      AllSettled(published, state.commits);
      IndexHoldsAll(published, state.commits);
    }
  }

  /** The index holds exactly the rows of the published pages. */
  ghost predicate IndexHolds(index: Index, published: map<RunId, Manifest>) {
    forall k :: k in index <==> exists r :: r in published && HoldsRow(published[r].pages, k)
  }

  /** The same runs with the same contents; only marks and counts of prepared ones may differ. */
  predicate SameRuns(a: map<RunId, Manifest>, b: map<RunId, Manifest>) {
    && b.Keys == a.Keys
    && (forall r :: r in a ==> b[r] == a[r].(status := b[r].status, counts := b[r].counts))
    && (forall r :: r in a && a[r].status == Committed ==> b[r] == a[r])
  }

  lemma IndexHoldsAll(published: map<RunId, Manifest>, commits: seq<Commit>)
    requires Filed(published, commits) && PreparedRuns(published) == {}
    ensures IndexHolds(IndexOf(commits), published)
  {
    hide Filed, IndexOf, HoldsRow;
    forall k ensures k in IndexOf(commits) <==> exists r :: r in published && HoldsRow(published[r].pages, k) {
      IndexHoldsPublished(published, commits, k);
    }
  }

  lemma SameButOne(a: map<RunId, Manifest>, b: map<RunId, Manifest>, c: map<RunId, Manifest>, run: RunId)
    requires SameRuns(a, b) && run in b && b[run].status == Prepared && c.Keys == b.Keys
    requires c[run] == b[run].(status := c[run].status, counts := c[run].counts)
    requires forall r :: r in c && r != run ==> c[r] == b[r]
    ensures SameRuns(a, c)
  {
  }

  lemma OneLess(b: map<RunId, Manifest>, c: map<RunId, Manifest>, run: RunId)
    requires c.Keys == b.Keys && run in b && c[run].status == Committed
    requires forall r :: r in c && r != run ==> c[r] == b[r]
    ensures PreparedRuns(c) == PreparedRuns(b) - {run}
  {
  }

  lemma CountsSince(m: Manifest, start: seq<Commit>, before: seq<Commit>, commits: seq<Commit>, run: RunId)
    requires CountsShown(m, before, commits, run) && (run in RunsOf(before) <==> run in RunsOf(start))
    ensures CountsShown(m, start, commits, run)
  {
  }

  lemma UncountedYet(published: map<RunId, Manifest>, commits: seq<Commit>, run: RunId)
    requires Filed(published, commits) && run in published && published[run].status == Prepared
    ensures published[run].counts == UNCOUNTED
  {
  }

  lemma NotFiled(published: map<RunId, Manifest>, commits: seq<Commit>, run: RunId)
    requires Filed(published, commits) && run !in published
    ensures run !in RunsOf(commits)
  {
    forall i | 0 <= i < |commits| ensures commits[i].run != run {
      assert FiledAt(published, commits, i);
    }
  }

  lemma SomeCommit(commits: seq<Commit>, run: RunId)
    requires run in RunsOf(commits)
    ensures exists i :: 0 <= i < |commits| && commits[i].run == run
  {
  }

  /**
   * The counts of a run are lost: killed between the commit of its rows and the mark, any run that
   * has a row is recovered as a committed run that counted none.
   */
  method LoseCounts(run: RunId, m: Manifest) returns (storage: BronzeStorage)
    requires m.status == Prepared && m.counts == UNCOUNTED && ObservationsOf(m.pages) != []
    ensures storage.Valid() && storage.state.commits == [Commit(run, m.Content())]
    ensures storage.published == map[run := m.(status := Committed)]
    ensures CountsAt(storage.state.commits, 0) != storage.published[run].counts
  {
    hide Filed, CountsAt, CountsShown, ObservationsOf, RunsOf;
    storage := new BronzeStorage([Written, Written, KilledBefore, Written]);
    var s := storage.Prepare(run, m);
    assert RunsOf(storage.state.commits) == {} by { NoRuns(); }
    s := storage.Settle(run);
    assert storage.state.commits == [Commit(run, m.Content())] && storage.published == map[run := m];
    RunsSnoc([], Commit(run, m.Content()));
    assert run in RunsOf(storage.state.commits) by { assert [] + [Commit(run, m.Content())] == storage.state.commits; }
    s := storage.Settle(run);
    RowsCount(run, m);
  }

  lemma NoRuns()
    ensures RunsOf([]) == {}
  {
  }

  lemma RowsCount(run: RunId, m: Manifest)
    ensures var c := CountsAt([Commit(run, m.Content())], 0);
            c.added + c.repeated == |ObservationsOf(m.pages)|
  {
    CountsConserved(IndexOf([]), run, ObservationsOf(m.pages));
    assert [Commit(run, m.Content())][..0] == [];
  }
}

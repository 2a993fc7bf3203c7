/** One call of the incremental ingestion: recovery, extraction and publication in a single run. */
module BronzeIngestion {
  import opened Wrappers
  import opened BronzeIndex
  import opened BronzeRecovery
  import Bronze
  import Text
  import BronzeLanes
  import Runner = BronzeRunner

  /** An extraction in its staging directory, with the checkpoint that its manifest recorded when it began. */
  class Ingestion {
    const storage: BronzeStorage
    const extraction: Runner.BronzeExtraction
    const run: RunId
    const before: Option<string>

    constructor (storage: BronzeStorage, extraction: Runner.BronzeExtraction, run: RunId, before: Option<string>)
      ensures this.storage == storage && this.extraction == extraction && this.run == run && this.before == before
    {
      this.storage, this.extraction, this.run, this.before := storage, extraction, run, before;
    }

    ghost predicate Valid()
      reads storage, storage.state, extraction
    {
      storage.Valid() && extraction.Valid()
    }

    /**
     * Whatever fails or is killed, nothing published is lost and no page state either. A call that
     * gets through leaves no run prepared and an index that holds exactly the rows of all published
     * pages, this run's own counts recorded; and when the source did not change and the cap was not
     * met, its pages hold exactly what the source holds in the window, and the checkpoint is its
     * candidate, which is not before the window's end. Where nothing goes wrong and the source is well
     * formed, a new run gets through.
     */
    method Ingest() returns (s: Signal)
      requires Valid()
      modifies storage`next, storage`published, storage.state
      modifies extraction`next, extraction`files, extraction`run, extraction`saved
      ensures Valid() && old(storage.state.commits) <= storage.state.commits
      ensures old(extraction.saved).pages <= extraction.saved.pages
      ensures ContentsKept(old(storage.published), storage.published)
      ensures old(storage.next) <= storage.next && old(extraction.next) <= extraction.next
      ensures run !in old(storage.published) && extraction.Steady()
              && storage.AllWritten(old(storage.next), storage.next) && extraction.Smooth(old(extraction.next), extraction.next) ==>
                s == Done
      ensures s == Done ==>
        && PreparedRuns(storage.published) == {} && RunsOf(storage.state.commits) == storage.published.Keys
        && IndexHolds(storage.state.index, storage.published)
        && run !in old(storage.published) && run in storage.published
        && Recorded(storage.published[run], storage.state.commits, run)
      ensures s == Done && !extraction.run.truncated && extraction.truth.Some? ==>
        && HoldsWindow(storage.published[run], extraction.plan.window, extraction.truth.value)
        && (Advances(storage.published[run].Content()) ==>
              storage.state.checkpoint == Some((storage.published[run].candidate.value, run)))
    {
      hide Filed, PreparedRuns, RunsOf, Recorded, CountsShown, IndexHolds, HoldsRow, IndexOf, CheckpointOf, SameRuns,
          ContentsKept, HoldsWindow, PageFiles, ObservationsOf, Advances, Runner.Sound;
      SameKept(storage.published, storage.published);
      s := storage.ReconcilePrepared();
      SameKept(old(storage.published), storage.published);
      SameNames(old(storage.published), storage.published);
      if s != Done { return; }
      var extracted, complete := extraction.Attempt();
      if extracted != Runner.Done { return if extracted == Runner.Killed then Killed else Failed; }
      ghost var settled := storage.published;
      s := Publish();
      KeptTwice(old(storage.published), settled, storage.published);
      if s == Failed && run !in storage.published {
        var again := extraction.SaveState();
        s := if again == Runner.Killed then Killed else Failed;
      }
      if s == Done && complete && extraction.truth.Some? {
        ExtractedWindow(extraction.plan, extraction.run, before, extraction.files, extraction.truth.value,
            storage.published[run]);
      }
    }

    /** Publishes the finished extraction when nothing else is left to settle. */
    method Publish() returns (s: Signal)
      requires storage.Valid() && PreparedRuns(storage.published) == {}
      modifies storage`next, storage`published, storage.state
      ensures storage.Valid() && old(storage.state.commits) <= storage.state.commits
      ensures ContentsKept(old(storage.published), storage.published)
      ensures old(storage.next) <= storage.next
      ensures run !in old(storage.published) && storage.AllWritten(old(storage.next), storage.next) ==> s == Done
      ensures s == Done ==>
        && PreparedRuns(storage.published) == {} && RunsOf(storage.state.commits) == storage.published.Keys
        && IndexHolds(storage.state.index, storage.published)
        && run !in old(storage.published) && run in storage.published
        && storage.published[run].pages == PageFiles(extraction.run.pages)
        && storage.published[run].Content() == FinishedManifest(extraction.plan, extraction.run, before).Content()
        && Recorded(storage.published[run], storage.state.commits, run)
        && (Advances(storage.published[run].Content()) ==>
              storage.state.checkpoint == Some((storage.published[run].candidate.value, run)))
    {
      hide Filed, PreparedRuns, RunsOf, Recorded, CountsShown, IndexHolds, HoldsRow, IndexOf, CheckpointOf,
          ContentsKept, PageFiles, ObservationsOf, Advances;
      ghost var commits := storage.state.commits;
      s := storage.Finish(run, extraction.plan, extraction.run, before);
      OneMoreKept(old(storage.published), storage.published);
      if s != Done { return; }
      OneMoreSettled(old(storage.published), storage.published, run);
      IndexHoldsAll(storage.published, storage.state.commits);
      AllSettled(storage.published, storage.state.commits);
      LastAdvances(commits, Commit(run, storage.published[run].Content()));
    }
  }

  predicate ContentsKept(a: map<RunId, Manifest>, b: map<RunId, Manifest>) {
    forall r :: r in a ==> r in b && b[r].pages == a[r].pages && b[r].Content() == a[r].Content()
  }

  lemma SameKept(a: map<RunId, Manifest>, b: map<RunId, Manifest>)
    requires SameRuns(a, b) || a == b
    ensures ContentsKept(a, b)
  {
  }

  lemma SameNames(a: map<RunId, Manifest>, b: map<RunId, Manifest>)
    requires SameRuns(a, b)
    ensures b.Keys == a.Keys
  {
  }

  lemma OneMoreKept(a: map<RunId, Manifest>, b: map<RunId, Manifest>)
    requires forall r :: r in a ==> r in b && b[r] == a[r]
    ensures ContentsKept(a, b)
  {
  }

  lemma KeptTwice(a: map<RunId, Manifest>, b: map<RunId, Manifest>, c: map<RunId, Manifest>)
    requires ContentsKept(a, b) && ContentsKept(b, c)
    ensures ContentsKept(a, c)
  {
  }

  lemma OneMoreSettled(a: map<RunId, Manifest>, b: map<RunId, Manifest>, run: RunId)
    requires PreparedRuns(a) == {} && b.Keys <= a.Keys + {run} && run in b && b[run].status == Committed
    requires forall r :: r in a ==> r in b && b[r] == a[r]
    ensures PreparedRuns(b) == {}
  {
    forall r | r in b ensures b[r].status == Committed {
      if r in a { assert r !in PreparedRuns(a); }
    }
  }

  lemma LastAdvances(commits: seq<Commit>, c: Commit)
    ensures Advances(c.batch) ==> CheckpointOf(commits + [c]) == Some((c.batch.candidate.value, c.run))
  {
  }

  /** The pages of a run hold exactly what the source holds in the window, in both lanes. */
  ghost predicate HoldsWindow(m: Manifest, window: Bronze.Window, t: Bronze.Truth) {
    && (forall k :: HoldsRow(m.pages, k) <==> WindowHolds(t, window, k))
    && m.candidate.Some? && !Text.Less(m.candidate.value, window.requestedTo)
    && (Advances(m.Content()) <==> m.candidate.value != "")
  }

  lemma ExtractedWindow(plan: Bronze.Plan, extracted: Bronze.Run, before: Option<string>,
                        files: map<Runner.Path, seq<Bronze.Row>>, t: Bronze.Truth, m: Manifest)
    requires Runner.Sound(plan, extracted, files, Some(t))
    requires extracted.primaryDone && extracted.nullDone && !extracted.truncated
    requires m.pages == PageFiles(extracted.pages) && m.Content() == FinishedManifest(plan, extracted, before).Content()
    ensures HoldsWindow(m, plan.window, t)
  {
    hide BronzeLanes.Kept, BronzeLanes.Served, Bronze.TruthOk, HoldsRow, WindowHolds, PageFiles,
        ObservationsOf, CandidateOf, Advances;
    FinishedWindow(plan, extracted, before, t, ("", ""));
    forall k ensures HoldsRow(m.pages, k) <==> WindowHolds(t, plan.window, k) {
      FinishedWindow(plan, extracted, before, t, k);
    }
  }
}

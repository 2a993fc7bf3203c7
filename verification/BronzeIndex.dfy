/**
 * The logical observation index of committed Bronze runs, and the commit that applies a run to it
 * exactly once.
 *
 * A payload hash is modelled by the payload. The index belongs to one dataset.
 */
module BronzeIndex {
  import opened Wrappers
  import opened Text

  type RunId = string

  datatype Observation = Observation(identity: string, payload: string, page: string, position: nat)
  {
    function Key(): (string, string) { (identity, payload) }
  }

  datatype Entry = Entry(first: RunId, last: RunId, page: string, position: nat)

  type Index = map<(string, string), Entry>

  datatype Counts = Counts(added: nat, repeated: nat, versions: nat)

  /** The part of a published manifest that a commit reads. `candidate` is the checkpoint candidate. */
  datatype Batch = Batch(observations: seq<Observation>, incremental: bool, complete: bool, candidate: Option<string>)

  predicate Advances(b: Batch) { b.incremental && b.complete && b.candidate.Some? && b.candidate.value != "" }

  // ---- What a run brings ------------------------------------------------------------------

  /** A stored page: its path, and the identity and payload of each row. */
  datatype StoredPage = StoredPage(path: string, rows: seq<(string, string)>)

  function PageObservations(page: StoredPage): seq<Observation> {
    seq(|page.rows|, i requires 0 <= i < |page.rows| => Observation(page.rows[i].0, page.rows[i].1, page.path, i))
  }

  function ObservationsOf(pages: seq<StoredPage>): seq<Observation> {
    if pages == [] then [] else ObservationsOf(pages[..|pages| - 1]) + PageObservations(pages[|pages| - 1])
  }

  function RowTotal(pages: seq<StoredPage>): nat {
    if pages == [] then 0 else RowTotal(pages[..|pages| - 1]) + |pages[|pages| - 1].rows|
  }

  predicate RowAt(pages: seq<StoredPage>, o: Observation, p: nat) {
    p < |pages| && pages[p].path == o.page && o.position < |pages[p].rows| && pages[p].rows[o.position] == o.Key()
  }

  /** The observations of a run are exactly the rows of its pages, each with the place it came from. */
  lemma {:induction false} ObservationsAreRows(pages: seq<StoredPage>, o: Observation)
    ensures o in ObservationsOf(pages) <==> exists p :: 0 <= p < |pages| && RowAt(pages, o, p)
    ensures |ObservationsOf(pages)| == RowTotal(pages)
  {
    if pages != [] {
      var n := |pages| - 1;
      var before := pages[..n];
      ObservationsAreRows(before, o);
      if p :| 0 <= p < |pages| && RowAt(pages, o, p) {
        if p < n { assert RowAt(before, o, p); } else { assert PageObservations(pages[n])[o.position] == o; }
      }
      if p :| 0 <= p < n && RowAt(before, o, p) { assert RowAt(pages, o, p); }
      if o in PageObservations(pages[n]) { assert RowAt(pages, o, n); }
    }
  }

  method ObservationsFromPages(pages: seq<StoredPage>) returns (result: seq<Observation>)
    ensures result == ObservationsOf(pages)
  {
    result := [];
    for p := 0 to |pages|
      invariant result == ObservationsOf(pages[..p])
    {
      assert pages[..p + 1][..p] == pages[..p];
      var page := pages[p];
      for position := 0 to |page.rows|
        invariant result == ObservationsOf(pages[..p]) + PageObservations(page)[..position]
      {
        result := result + [Observation(page.rows[position].0, page.rows[position].1, page.path, position)];
      }
    }
    assert pages[..|pages|] == pages;
  }

  /**
   * What a run proposes as checkpoint: nothing unless its range is complete, and never less than
   * its own window's end or the checkpoint it started from.
   */
  function CandidateOf(requestedTo: string, before: Option<string>, complete: bool): (c: Option<string>)
    ensures c.Some? <==> complete
    ensures c.Some? ==> !Less(c.value, requestedTo) && (before.Some? && before.value != "" ==> !Less(c.value, before.value))
    ensures c.Some? ==> c.value == requestedTo || c == before
  {
    if !complete then None
    else if before.Some? && before.value != "" && Less(requestedTo, before.value) then
      LessAsymmetric(requestedTo, before.value);
      LessIrreflexive(before.value);
      before
    else
      LessIrreflexive(requestedTo);
      Some(requestedTo)
  }

  // ---- One run ----------------------------------------------------------------------------

  function Identities(index: Index): set<string> { set k | k in index :: k.0 }

  function Keys(observations: seq<Observation>): set<(string, string)> { set o | o in observations :: o.Key() }

  function ApplyOne(index: Index, run: RunId, o: Observation): Index {
    if o.Key() in index then index[o.Key() := index[o.Key()].(last := run)]
    else index[o.Key() := Entry(run, run, o.page, o.position)]
  }

  function Apply(index: Index, run: RunId, observations: seq<Observation>): Index {
    if observations == [] then index
    else
      var n := |observations| - 1;
      ApplyOne(Apply(index, run, observations[..n]), run, observations[n])
  }

  function CountsOf(index: Index, run: RunId, observations: seq<Observation>): Counts {
    if observations == [] then Counts(0, 0, 0)
    else
      var n := |observations| - 1;
      var before, c, o := Apply(index, run, observations[..n]), CountsOf(index, run, observations[..n]), observations[n];
      if o.Key() in before then c.(repeated := c.repeated + 1)
      else c.(added := c.added + 1, versions := c.versions + if o.identity in Identities(before) then 1 else 0)
  }

  /** `t` is the index with the observations `keys` of one run added and marked as last seen by it. */
  predicate AppliedIs(index: Index, run: RunId, keys: set<(string, string)>, t: Index) {
    && t.Keys == index.Keys + keys
    && (forall k :: k in t ==> t[k].first == if k in index then index[k].first else run)
    && (forall k :: k in t ==> t[k].last == if k in keys then run else index[k].last)
  }

  lemma ApplyOneIs(index: Index, run: RunId, keys: set<(string, string)>, t: Index, o: Observation)
    requires AppliedIs(index, run, keys, t)
    ensures AppliedIs(index, run, keys + {o.Key()}, ApplyOne(t, run, o))
  {
  }

  /** Applying a run adds its observations, keeps who saw each one first, and marks the run as the last to see its own. */
  lemma {:induction false} ApplyMeaning(index: Index, run: RunId, observations: seq<Observation>)
    ensures AppliedIs(index, run, Keys(observations), Apply(index, run, observations))
  {
    if observations != [] {
      hide ApplyOne, AppliedIs, Keys;
      var n := |observations| - 1;
      ApplyMeaning(index, run, observations[..n]);
      ApplyOneIs(index, run, Keys(observations[..n]), Apply(index, run, observations[..n]), observations[n]);
      KeysSnoc(observations[..n], observations[n]);
      assert observations == observations[..n] + [observations[n]];
    }
  }

  /** The first observation of `k`, if there is one, is observation `h`. */
  predicate FirstSeen(observations: seq<Observation>, k: (string, string), h: int) {
    0 <= h < |observations| && observations[h].Key() == k && forall i :: 0 <= i < h ==> observations[i].Key() != k
  }

  /** An indexed observation keeps the place of its first sighting, in this run or before it. */
  lemma {:induction false} FirstPlace(index: Index, run: RunId, observations: seq<Observation>, k: (string, string))
    requires k in Apply(index, run, observations)
    ensures var e := Apply(index, run, observations)[k];
            if k in index then e.page == index[k].page && e.position == index[k].position
            else exists h :: FirstSeen(observations, k, h) && e.page == observations[h].page && e.position == observations[h].position
  {
    if observations != [] {
      var n := |observations| - 1;
      var before := observations[..n];
      ApplyMeaning(index, run, before);
      if k in Apply(index, run, before) {
        FirstPlace(index, run, before, k);
        var e := Apply(index, run, before)[k];
        if k !in index {
          var h :| FirstSeen(before, k, h) && e.page == before[h].page && e.position == before[h].position;
          assert FirstSeen(observations, k, h);
        }
      } else {
        forall i | 0 <= i < n ensures observations[i].Key() != k {
          assert before[i] in before && before[i].Key() in Keys(before);
        }
        assert FirstSeen(observations, k, n);
      }
    }
  }

  lemma KeysSnoc(observations: seq<Observation>, o: Observation)
    ensures Keys(observations + [o]) == Keys(observations) + {o.Key()}
  {
    var all := observations + [o];
    assert all[|observations|] == o;
    assert forall x :: x in all <==> x in observations || x == o;
  }

  /** The counts account for every observation: the added ones are those the index grows by. */
  lemma {:induction false} CountsConserved(index: Index, run: RunId, observations: seq<Observation>)
    ensures var c := CountsOf(index, run, observations);
            && c.added + c.repeated == |observations| && c.versions <= c.added
            && |Apply(index, run, observations)| == |index| + c.added
  {
    if observations != [] {
      CountsConserved(index, run, observations[..|observations| - 1]);
    }
  }

  lemma IdentitiesSnoc(index: Index, run: RunId, o: Observation)
    ensures Identities(ApplyOne(index, run, o)) == Identities(index) + {o.identity}
  {
    var t := ApplyOne(index, run, o);
    assert t.Keys == index.Keys + {o.Key()};
    forall s | s in Identities(t) ensures s in Identities(index) + {o.identity} {
      var k :| k in t && k.0 == s;
    }
    forall s | s in Identities(index) + {o.identity} ensures s in Identities(t) {
      if s == o.identity { assert o.Key() in t; } else { var k :| k in index && k.0 == s; assert k in t; }
    }
  }

  /** An added observation is a new version of a known contract, or a contract seen for the first time. */
  lemma {:induction false} VersionsExact(index: Index, run: RunId, observations: seq<Observation>)
    ensures var c := CountsOf(index, run, observations);
            c.added - c.versions == |Identities(Apply(index, run, observations))| - |Identities(index)|
  {
    if observations != [] {
      var n := |observations| - 1;
      var before := Apply(index, run, observations[..n]);
      VersionsExact(index, run, observations[..n]);
      IdentitiesSnoc(before, run, observations[n]);
      if observations[n].Key() in before { assert observations[n].identity in Identities(before); }
      if observations[n].identity in Identities(before) {
        assert Identities(before) + {observations[n].identity} == Identities(before);
      }
    }
  }

  // ---- Many runs --------------------------------------------------------------------------

  datatype Commit = Commit(run: RunId, batch: Batch)

  /** The index after the commits, in order. */
  function IndexOf(commits: seq<Commit>): Index {
    if commits == [] then map[]
    else
      var n := |commits| - 1;
      Apply(IndexOf(commits[..n]), commits[n].run, commits[n].batch.observations)
  }

  predicate Saw(c: Commit, k: (string, string)) { k in Keys(c.batch.observations) }

  /** Commit `i` is the first, and commit `j` the last, that observed `k`. */
  predicate FirstAndLast(commits: seq<Commit>, k: (string, string), i: nat, j: nat) {
    && i <= j < |commits| && Saw(commits[i], k) && Saw(commits[j], k)
    && (forall h :: 0 <= h < i ==> !Saw(commits[h], k)) && (forall h :: j < h < |commits| ==> !Saw(commits[h], k))
  }

  /** An indexed observation names the first and the last run, in commit order, that observed it. */
  lemma {:induction false} FirstAndLastRuns(commits: seq<Commit>, k: (string, string)) returns (i: nat, j: nat)
    requires k in IndexOf(commits)
    ensures FirstAndLast(commits, k, i, j)
    ensures IndexOf(commits)[k].first == commits[i].run && IndexOf(commits)[k].last == commits[j].run
  {
    var n := |commits| - 1;
    var before := commits[..n];
    assert forall h :: 0 <= h < n ==> before[h] == commits[h];
    ApplyMeaning(IndexOf(before), commits[n].run, commits[n].batch.observations);
    if k in IndexOf(before) {
      i, j := FirstAndLastRuns(before, k);
      if Saw(commits[n], k) { j := n; }
    } else {
      NotIndexed(before, k);
      i, j := n, n;
    }
  }

  /** The index keeps, over any commits, the page and position of the very first sighting. */
  lemma {:induction false} FirstSighting(commits: seq<Commit>, k: (string, string)) returns (i: nat, h: nat)
    requires k in IndexOf(commits)
    ensures i < |commits| && FirstSeen(commits[i].batch.observations, k, h) && forall j :: 0 <= j < i ==> !Saw(commits[j], k)
    ensures var o := commits[i].batch.observations[h];
            IndexOf(commits)[k].page == o.page && IndexOf(commits)[k].position == o.position
            && IndexOf(commits)[k].first == commits[i].run
  {
    var n := |commits| - 1;
    var before := commits[..n];
    assert forall j :: 0 <= j < n ==> before[j] == commits[j];
    FirstPlace(IndexOf(before), commits[n].run, commits[n].batch.observations, k);
    ApplyMeaning(IndexOf(before), commits[n].run, commits[n].batch.observations);
    hide Apply, Keys;
    if k in IndexOf(before) {
      i, h := FirstSighting(before, k);
    } else {
      NotIndexed(before, k);
      var e := IndexOf(commits)[k];
      var seen := commits[n].batch.observations;
      i := n;
      h :| FirstSeen(seen, k, h) && e.page == seen[h].page && e.position == seen[h].position;
    }
  }

  lemma {:induction false} NotIndexed(commits: seq<Commit>, k: (string, string))
    ensures k !in IndexOf(commits) <==> forall h :: 0 <= h < |commits| ==> !Saw(commits[h], k)
  {
    if commits != [] {
      var n := |commits| - 1;
      var before := commits[..n];
      assert forall h :: 0 <= h < n ==> before[h] == commits[h];
      NotIndexed(before, k);
      ApplyMeaning(IndexOf(before), commits[n].run, commits[n].batch.observations);
      if k !in IndexOf(commits) {
        assert !Saw(commits[n], k);
      } else if k in IndexOf(before) {
        var h :| 0 <= h < n && Saw(before[h], k);
        assert Saw(commits[h], k);
      } else {
        assert Saw(commits[n], k);
      }
    }
  }

  /** The checkpoint: what the last complete incremental run in commit order proposed. */
  function CheckpointOf(commits: seq<Commit>): Option<(string, RunId)> {
    if commits == [] then None
    else
      var n := |commits| - 1;
      if Advances(commits[n].batch) then Some((commits[n].batch.candidate.value, commits[n].run)) else CheckpointOf(commits[..n])
  }

  predicate OnceEach(commits: seq<Commit>) {
    forall i, j :: 0 <= i < j < |commits| ==> commits[i].run != commits[j].run
  }

  function RunsOf(commits: seq<Commit>): set<RunId> { set i | 0 <= i < |commits| :: commits[i].run }

  lemma RunsSnoc(commits: seq<Commit>, c: Commit)
    ensures RunsOf(commits + [c]) == RunsOf(commits) + {c.run}
  {
    var all := commits + [c];
    assert all[|commits|] == c && forall i :: 0 <= i < |commits| ==> all[i] == commits[i];
    forall r | r in RunsOf(commits) ensures r in RunsOf(all) {
      var i :| 0 <= i < |commits| && commits[i].run == r;
      assert all[i].run == r;
    }
  }

  // ---- The database -----------------------------------------------------------------------

  /** The SQLite tables: one index, the runs applied to it and the checkpoint of the primary lane. */
  class IngestionState {
    var index: Index
    var runs: set<RunId>
    var checkpoint: Option<(string, RunId)>
    ghost var commits: seq<Commit>

    ghost predicate Valid()
      reads this
    {
      && index == IndexOf(commits) && checkpoint == CheckpointOf(commits)
      && runs == RunsOf(commits)
      && OnceEach(commits)
    }

    constructor ()
      ensures Valid() && commits == []
    {
      index, runs, checkpoint, commits := map[], {}, None, [];
    }

    /**
     * Applies a run in one transaction. A run that is already there changes nothing; if the
     * transaction does not survive, nothing happened.
     */
    method CommitRun(run: RunId, batch: Batch, survives: bool) returns (counts: Counts)
      requires Valid()
      modifies this
      ensures Valid()
      ensures commits == if survives && run !in old(runs) then old(commits) + [Commit(run, batch)] else old(commits)
      ensures survives && run !in old(runs) ==> counts == CountsOf(old(index), run, batch.observations)
      ensures run in old(runs) ==> counts == Counts(0, |batch.observations|, 0)
    {
      if run in runs { return Counts(0, |batch.observations|, 0); }
      var working;
      working, counts := ApplyAll(index, run, batch.observations);
      if !survives { return; }
      ghost var before := commits;
      index, runs := working, runs + {run};
      if Advances(batch) { checkpoint := Some((batch.candidate.value, run)); }
      commits := commits + [Commit(run, batch)];
      assert commits[..|before|] == before;
      RunsSnoc(before, Commit(run, batch));
      NotCommitted(before, run);
    }
  }

  lemma NotCommitted(commits: seq<Commit>, run: RunId)
    requires run !in RunsOf(commits)
    ensures forall i :: 0 <= i < |commits| ==> commits[i].run != run
  {
  }

  /** The observations of a run, inserted or marked as seen again, one by one. */
  method ApplyAll(index: Index, run: RunId, observations: seq<Observation>) returns (working: Index, counts: Counts)
    ensures working == Apply(index, run, observations) && counts == CountsOf(index, run, observations)
  {
    working := index;
    var added, repeated, versions := 0, 0, 0;
    for i := 0 to |observations|
      invariant working == Apply(index, run, observations[..i])
      invariant Counts(added, repeated, versions) == CountsOf(index, run, observations[..i])
    {
      assert observations[..i + 1][..i] == observations[..i];
      var o := observations[i];
      if o.Key() in working {
        repeated := repeated + 1;
        working := working[o.Key() := working[o.Key()].(last := run)];
      } else {
        added := added + 1;
        if o.identity in Identities(working) { versions := versions + 1; }
        working := working[o.Key() := Entry(run, run, o.page, o.position)];
      }
    }
    assert observations[..|observations|] == observations;
    counts := Counts(added, repeated, versions);
  }
}

/**
 * Reading committed Bronze runs for a Silver build: every row of every page becomes one observation
 * with the place it came from, and no two observations share a place.
 */
module SilverReading {
  import opened Wrappers
  import opened Text
  import opened PageNames
  import opened SilverConditions
  import opened SilverEvidence
  import Bronze
  import BronzeLanes
  import BronzeRecovery
  import BronzeRunner
  import Campaign
  import CampaignSoundness
  import CampaignVerifier

  /** A row as received, with the rejection codes that the row-wise checks give it. */
  datatype Received = Received(raw: Option<string>, payload: string, codes: seq<string>)

  datatype PageFile = PageFile(path: string, digest: string, at: int, rows: seq<Received>)

  datatype VerifiedRun = VerifiedRun(id: string, profile: string, projection: string, pages: seq<PageFile>)

  // ---- The reading ------------------------------------------------------------------------

  function ObservationAt(run: VerifiedRun, page: PageFile, ordinal: nat): Observation
    requires ordinal < |page.rows|
  {
    var row := page.rows[ordinal];
    Observation(row.raw, row.payload, run.id, page.path, ordinal, page.at, run.profile, run.projection, row.codes)
  }

  function PageRecords(run: VerifiedRun, page: PageFile): seq<Observation> {
    seq(|page.rows|, i requires 0 <= i < |page.rows| => ObservationAt(run, page, i))
  }

  function RunRecords(run: VerifiedRun, pages: seq<PageFile>): seq<Observation> {
    if pages == [] then [] else RunRecords(run, pages[..|pages| - 1]) + PageRecords(run, pages[|pages| - 1])
  }

  function Records(runs: seq<VerifiedRun>): seq<Observation> {
    if runs == [] then [] else Records(runs[..|runs| - 1]) + RunRecords(runs[|runs| - 1], runs[|runs| - 1].pages)
  }

  /** The rows of the runs, page by page, each page numbered from zero. */
  method ReadBronze(runs: seq<VerifiedRun>) returns (records: seq<Observation>)
    ensures records == Records(runs)
  {
    records := [];
    for r := 0 to |runs|
      invariant records == Records(runs[..r])
    {
      var run := runs[r];
      assert runs[..r + 1][..r] == runs[..r];
      for p := 0 to |run.pages|
        invariant records == Records(runs[..r]) + RunRecords(run, run.pages[..p])
      {
        var page := run.pages[p];
        assert run.pages[..p + 1][..p] == run.pages[..p];
        for ordinal := 0 to |page.rows|
          invariant records == Records(runs[..r]) + RunRecords(run, run.pages[..p]) + PageRecords(run, page)[..ordinal]
        {
          records := records + [ObservationAt(run, page, ordinal)];
        }
      }
      assert run.pages[..|run.pages|] == run.pages;
    }
    assert runs[..|runs|] == runs;
  }

  /** `o` is row `i` of page `p` of run `r`. */
  predicate RecordedAt(runs: seq<VerifiedRun>, o: Observation, r: nat, p: nat) {
    && r < |runs| && p < |runs[r].pages| && 0 <= o.ordinal < |runs[r].pages[p].rows|
    && o == ObservationAt(runs[r], runs[r].pages[p], o.ordinal)
  }

  lemma {:induction false} RunRecordsFrom(run: VerifiedRun, pages: seq<PageFile>, o: Observation) returns (p: nat)
    requires o in RunRecords(run, pages)
    ensures p < |pages| && 0 <= o.ordinal < |pages[p].rows| && o == ObservationAt(run, pages[p], o.ordinal)
  {
    var n := |pages| - 1;
    if o in RunRecords(run, pages[..n]) {
      p := RunRecordsFrom(run, pages[..n], o);
    } else {
      p := n;
    }
  }

  lemma {:induction false} RecordsFrom(runs: seq<VerifiedRun>, o: Observation) returns (r: nat, p: nat)
    requires o in Records(runs)
    ensures RecordedAt(runs, o, r, p)
  {
    var n := |runs| - 1;
    if o in Records(runs[..n]) {
      r, p := RecordsFrom(runs[..n], o);
    } else {
      r := n;
      p := RunRecordsFrom(runs[n], runs[n].pages, o);
    }
  }

  // ---- One observation per place ----------------------------------------------------------

  lemma UniqueConcat(a: seq<Observation>, b: seq<Observation>)
    requires UniquePlaces(a) && UniquePlaces(b)
    requires forall x, y :: x in a && y in b ==> Place(x) != Place(y)
    ensures UniquePlaces(a + b)
  {
    forall i, j | 0 <= i < j < |a + b| ensures Place((a + b)[i]) != Place((a + b)[j]) {
      if i < |a| <= j { assert (a + b)[i] in a && (a + b)[j] in b; }
    }
  }

  predicate DistinctPaths(pages: seq<PageFile>) {
    forall i, j :: 0 <= i < j < |pages| ==> pages[i].path != pages[j].path
  }

  predicate DistinctRuns(runs: seq<VerifiedRun>) {
    forall i, j :: 0 <= i < j < |runs| ==> runs[i].id != runs[j].id
  }

  lemma {:induction false} RunUnique(run: VerifiedRun, pages: seq<PageFile>)
    requires DistinctPaths(pages)
    ensures UniquePlaces(RunRecords(run, pages))
  {
    if pages != [] {
      var n := |pages| - 1;
      var before := pages[..n];
      RunUnique(run, before);
      forall x, y | x in RunRecords(run, before) && y in PageRecords(run, pages[n]) ensures Place(x) != Place(y) {
        var p := RunRecordsFrom(run, before, x);
      }
      UniqueConcat(RunRecords(run, before), PageRecords(run, pages[n]));
    }
  }

  lemma {:induction false} RecordsUnique(runs: seq<VerifiedRun>)
    requires DistinctRuns(runs) && forall i :: 0 <= i < |runs| ==> DistinctPaths(runs[i].pages)
    ensures UniquePlaces(Records(runs))
  {
    if runs != [] {
      hide UniquePlaces, DistinctPaths;
      var n := |runs| - 1;
      var before, last := runs[..n], runs[n];
      RecordsUnique(before);
      RunUnique(last, last.pages);
      forall x, y | x in Records(before) && y in RunRecords(last, last.pages) ensures Place(x) != Place(y) {
        var r, p := RecordsFrom(before, x);
        var q := RunRecordsFrom(last, last.pages, y);
        assert before[r].id != last.id;
      }
      UniqueConcat(Records(before), RunRecords(last, last.pages));
    }
  }

  // ---- The runs that the pipeline writes --------------------------------------------------

  /** How a committed run came to be: an incremental extraction, or a campaign that its replay accepts. */
  datatype Origin =
    | Incremental(plan: Bronze.Plan, extracted: Bronze.Run)
    | Reconciliation(m: Campaign.Manifest, files: map<Campaign.Path, seq<Campaign.Row>>, metadata: Option<Campaign.Metadata>)

  function CampaignLane(lane: Campaign.Lane): string {
    match lane
    case MetadataLane => "metadata"
    case ScanLane => "scope_scan"
    case MemberLane => "baseline_check"
  }

  /** The run's pages are the files that its writer named. */
  predicate WrittenBy(run: VerifiedRun, origin: Origin) {
    match origin
    case Incremental(plan, extracted) =>
      && BronzeLanes.Kept(plan, extracted) && |run.pages| == |extracted.pages|
      && forall i :: 0 <= i < |run.pages| ==>
           run.pages[i].path == PagePath(BronzeRecovery.LaneName(extracted.pages[i].lane), extracted.pages[i].sequence)
    case Reconciliation(m, files, metadata) =>
      && CampaignVerifier.Accepts(m, files, metadata) && |run.pages| == |m.pages|
      && forall i :: 0 <= i < |run.pages| ==>
           m.pages[i].sequence >= 0 && run.pages[i].path == PagePath(CampaignLane(m.pages[i].lane), m.pages[i].sequence)
  }

  /** The pages of one lane of an extraction are numbered apart. */
  lemma {:induction false} SequencesApart(plan: Bronze.Plan, pages: seq<Bronze.Page>, i: nat, j: nat)
    requires BronzeLanes.PagesOk(plan, pages) && i < j < |pages| && pages[i].lane == pages[j].lane
    ensures pages[i].sequence < pages[j].sequence
  {
    hide Bronze.ValidPage, Bronze.NextQuery, Bronze.LastCursor, Bronze.LaneCount, Bronze.Acceptable;
    var before := pages[..|pages| - 1];
    BronzeLanes.PrefixOk(plan, pages);
    if j < |before| {
      SequencesApart(plan, before, i, j);
    } else {
      BronzeRunner.SequencesBounded(plan, before, i);
      assert Bronze.PageOk(plan, before, pages[j]);
    }
  }

  lemma ExtractedPaths(run: VerifiedRun, plan: Bronze.Plan, extracted: Bronze.Run, i: nat, j: nat)
    requires WrittenBy(run, Incremental(plan, extracted)) && i < j < |run.pages|
    ensures run.pages[i].path != run.pages[j].path
  {
    hide PagePath, Bronze.PageOk;
    var a, b := extracted.pages[i], extracted.pages[j];
    PagePathInjective(BronzeRecovery.LaneName(a.lane), a.sequence, BronzeRecovery.LaneName(b.lane), b.sequence);
    if a.lane == b.lane { SequencesApart(plan, extracted.pages, i, j); }
  }

  lemma ReconciledPaths(run: VerifiedRun, m: Campaign.Manifest, files: map<Campaign.Path, seq<Campaign.Row>>,
                        metadata: Option<Campaign.Metadata>, i: nat, j: nat)
    requires WrittenBy(run, Reconciliation(m, files, metadata)) && i < j < |run.pages|
    ensures run.pages[i].path != run.pages[j].path
  {
    hide PagePath, CampaignVerifier.Accepts;
    AcceptedSequence(m, files, metadata, i);
    AcceptedSequence(m, files, metadata, j);
    PagePathInjective(CampaignLane(m.pages[i].lane), m.pages[i].sequence, CampaignLane(m.pages[j].lane), m.pages[j].sequence);
  }

  lemma WrittenPaths(run: VerifiedRun, origin: Origin)
    requires WrittenBy(run, origin)
    ensures DistinctPaths(run.pages)
  {
    hide WrittenBy;
    forall i, j | 0 <= i < j < |run.pages| ensures run.pages[i].path != run.pages[j].path {
      match origin {
        case Incremental(plan, extracted) => ExtractedPaths(run, plan, extracted, i, j);
        case Reconciliation(m, files, metadata) => ReconciledPaths(run, m, files, metadata, i, j);
      }
    }
  }

  lemma AcceptedSequence(m: Campaign.Manifest, files: map<Campaign.Path, seq<Campaign.Row>>,
                         metadata: Option<Campaign.Metadata>, i: nat)
    requires CampaignVerifier.Accepts(m, files, metadata) && i < |m.pages|
    ensures m.pages[i].sequence == i + 1
  {
    AcceptedReplays(m, files, metadata);
    hide CampaignVerifier.Accepts, CampaignSoundness.ScanMeaning, CampaignSoundness.MemberMeaning, CampaignVerifier.Replay;
    CampaignSoundness.ReplayMeaning(m.parameters, m.pages);
  }

  lemma AcceptedReplays(m: Campaign.Manifest, files: map<Campaign.Path, seq<Campaign.Row>>,
                        metadata: Option<Campaign.Metadata>)
    requires CampaignVerifier.Accepts(m, files, metadata)
    ensures CampaignVerifier.Replay(m.parameters, m.pages).Some?
  {
    hide CampaignVerifier.Replay;
  }

  predicate PipelineRuns(runs: seq<VerifiedRun>, origins: seq<Origin>) {
    && DistinctRuns(runs) && |runs| == |origins| && forall i :: 0 <= i < |runs| ==> WrittenBy(runs[i], origins[i])
  }

  /** What a Silver build reads from runs that the pipeline wrote has one observation per place. */
  lemma PipelinePlaces(runs: seq<VerifiedRun>, origins: seq<Origin>)
    requires PipelineRuns(runs, origins)
    ensures UniquePlaces(Records(runs))
  {
    hide WrittenBy, DistinctRuns, DistinctPaths, UniquePlaces;
    forall i | 0 <= i < |runs| ensures DistinctPaths(runs[i].pages) { WrittenPaths(runs[i], origins[i]); }
    RecordsUnique(runs);
  }

  // ---- The evidence of a pipeline build ---------------------------------------------------

  lemma {:induction false} WholeSegment(a: string)
    requires '/' !in a
    ensures Segments(a) == [a]
  {
    if a != "" {
      WholeSegment(a[1..]);
      assert [a[0]] + a[1..] == a;
    }
  }

  lemma {:induction false} SegmentsJoin(a: string, b: string)
    requires '/' !in a
    ensures Segments(a + "/" + b) == [a] + Segments(b)
  {
    if a == "" {
      assert ("/" + b)[1..] == b && a + "/" + b == "/" + b;
    } else {
      SegmentsJoin(a[1..], b);
      assert (a + "/" + b)[1..] == a[1..] + "/" + b;
      assert [a[0]] + a[1..] == a && a[0] != '/';
      assert ([a[1..]] + Segments(b))[1..] == Segments(b);
    }
  }

  /** A lane name that cannot leave the page directory. */
  predicate PlainName(lane: string) {
    '/' !in lane && '\\' !in lane && forall i :: 0 <= i < |lane| ==> lane[i] as int != 0
  }

  lemma PagePathClean(lane: string, sequence: nat)
    requires PlainName(lane)
    ensures CleanPath(PagePath(lane, sequence))
  {
    var digits := Padded(Decimal(sequence));
    DecimalDigits(sequence);
    PaddedDigits(Decimal(sequence));
    var name := lane + "-" + digits + ".json";
    var path := PagePath(lane, sequence);
    assert path == "pages" + "/" + name;
    SegmentsJoin("pages", name);
    assert '/' !in name;
    WholeSegment(name);
    assert path[0] == 'p';
    assert forall i :: 0 <= i < |name| ==> name[i] as int != 0 && name[i] != '\\';
    assert forall i :: 0 <= i < |path| ==> path[i] as int != 0 && path[i] != '\\';
  }

  /** Names and codes that are text, as run identifiers, projections and rejection codes are. */
  predicate PlainRun(run: VerifiedRun) {
    && Usable(run.id) && Usable(run.projection)
    && forall p, i, x :: 0 <= p < |run.pages| && 0 <= i < |run.pages[p].rows| && x in run.pages[p].rows[i].codes ==> Usable(x)
  }

  lemma PlainLanes()
    ensures forall lane :: PlainName(BronzeRecovery.LaneName(lane))
    ensures forall lane :: PlainName(CampaignLane(lane))
  {
  }

  lemma WrittenClean(run: VerifiedRun, origin: Origin, p: nat)
    requires WrittenBy(run, origin) && p < |run.pages|
    ensures CleanPath(run.pages[p].path)
  {
    hide PagePath, CleanPath, CampaignVerifier.Accepts, BronzeLanes.Kept, PlainName;
    PlainLanes();
    match origin {
      case Incremental(plan, extracted) =>
        PagePathClean(BronzeRecovery.LaneName(extracted.pages[p].lane), extracted.pages[p].sequence);
      case Reconciliation(m, files, metadata) =>
        PagePathClean(CampaignLane(m.pages[p].lane), m.pages[p].sequence);
    }
  }

  /** The pages whose digests the producer is given: those of every run it reads. */
  function KnownPages(runs: seq<VerifiedRun>): set<(string, string)> {
    set r, p | 0 <= r < |runs| && 0 <= p < |runs[r].pages| :: (runs[r].id, runs[r].pages[p].path)
  }

  lemma RecordClean(c: Context, runs: seq<VerifiedRun>, origins: seq<Origin>, o: Observation)
    requires PipelineRuns(runs, origins) && (forall i :: 0 <= i < |runs| ==> PlainRun(runs[i]))
    requires c.pages.Keys == KnownPages(runs) && o in Records(runs)
    ensures Clean(o) && Located(c, o)
  {
    hide WrittenBy, DistinctRuns, Usable, CleanPath;
    var r, p := RecordsFrom(runs, o);
    WrittenClean(runs[r], origins[r], p);
    assert PlainRun(runs[r]);
    assert (runs[r].id, runs[r].pages[p].path) in KnownPages(runs);
  }

  /**
   * Over runs that the pipeline wrote, and winners chosen among their rows, nothing is left to
   * assume: every page is known, the evidence passes its validator, and links and unattributable
   * rejects add up to the rejected rows.
   */
  lemma PipelineReconciles(c: Context, runs: seq<VerifiedRun>, origins: seq<Origin>, winners: seq<Winner>)
    requires PipelineRuns(runs, origins) && (forall i :: 0 <= i < |runs| ==> PlainRun(runs[i]))
    requires c.pages.Keys == KnownPages(runs) && Usable(c.version) && Usable(c.validation)
    requires Keyed(c, winners) && forall i :: 0 <= i < |winners| ==> winners[i].row in Records(runs)
    ensures var all := Records(runs);
            && Inputs(c, all, winners)
            && ValidSet(AllSummaries(c, all, winners), StoredAll(AllLinks(c, all, winners)), c.scope, c.version,
                        set i | 0 <= i < |winners| :: winners[i].key)
            && |AllLinks(c, all, winners)| == CitedCount(c, all, winners, all)
            && |AllLinks(c, all, winners)| + Unattributable(all, AllLinks(c, all, winners)) == RejectedCount(all)
            && 0 <= Unattributable(all, AllLinks(c, all, winners))
  {
    hide PipelineRuns, PlainRun, Records, Usable, Clean, RejectsOf, UniquePlaces, ValidSet, AllSummaries, CitedCount,
        RejectedCount, Unattributable;
    var all := Records(runs);
    forall o | o in all ensures Clean(o) && Located(c, o) { RecordClean(c, runs, origins, o); }
    forall i | 0 <= i < |winners| ensures AllLocated(c, all, winners[i]) {
      forall o | o in RejectsOf(c, all, all, winners[i].row.raw.value) ensures o in all {
        RejectsMeaning(c, all, all, winners[i].row.raw.value, o);
      }
    }
    PipelinePlaces(runs, origins);
    EvidenceReconciles(c, all, winners);
  }
}

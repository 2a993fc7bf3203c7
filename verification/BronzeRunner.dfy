/**
 * The extraction loop of a Bronze run over its staging directory. The script says what the source
 * and the disk do next; a script that ends kills the process, and a killed process keeps only what
 * was saved. All statements hold for every script.
 */
module BronzeRunner {
  import opened Wrappers
  import opened Durability
  import opened Bronze
  import opened BronzeLanes

  /** A source that answers from its rows at that moment, or any payload at all. */
  datatype Source = Honest(truth: Truth) | Literal(payload: seq<Row>)

  datatype Wire = Answered(source: Source) | Raised | Cut

  datatype Event = Event(write: Write, wire: Wire)

  datatype Signal = Done | Failed | Killed

  function SourceRows(source: Source, query: Query): seq<Row> {
    match source
    case Honest(t) => Answer(t, query)
    case Literal(payload) => payload
  }

  const END := Event(KilledBefore, Cut)

  function SignalOf(write: Write): (s: Signal)
    ensures s == Done <==> write == Written
    ensures s == Failed <==> write == RaisedBefore || write == RaisedAfter
    ensures s == Killed <==> write == KilledBefore || write == KilledAfter
  {
    if write.Written? then Done else if write.Kills() then Killed else Failed
  }

  datatype Path = Path(lane: Lane, sequence: int)

  /** Every page that a manifest names is on disk with the rows it vouches for. */
  predicate Stored(pages: seq<Page>, files: map<Path, seq<Row>>) {
    forall i :: 0 <= i < |pages| ==>
      Path(pages[i].lane, pages[i].sequence) in files && files[Path(pages[i].lane, pages[i].sequence)] == pages[i].rows
  }

  lemma {:induction false} SequencesBounded(plan: Plan, pages: seq<Page>, i: nat)
    requires PagesOk(plan, pages) && i < |pages|
    ensures pages[i].sequence <= LaneCount(pages, pages[i].lane)
  {
    PrefixOk(plan, pages);
    if i < |pages| - 1 { SequencesBounded(plan, pages[..|pages| - 1], i); }
  }

  lemma {:induction false} CountGrows(pages: seq<Page>, n: nat, lane: Lane)
    requires n <= |pages|
    ensures LaneCount(pages[..n], lane) <= LaneCount(pages, lane)
    decreases |pages|
  {
    if n < |pages| {
      CountGrows(pages[..|pages| - 1], n, lane);
      assert pages[..|pages| - 1][..n] == pages[..n];
    } else {
      assert pages[..n] == pages;
    }
  }

  /** Writing the file of the next page of a lane touches no page that a manifest names. */
  lemma NextFileFree(plan: Plan, pages: seq<Page>, all: seq<Page>, files: map<Path, seq<Row>>, lane: Lane, rows: seq<Row>)
    requires PagesOk(plan, pages) && Stored(pages, files) && pages <= all
    ensures Stored(pages, files[Path(lane, LaneCount(all, lane) + 1) := rows])
  {
    forall i | 0 <= i < |pages| ensures Path(pages[i].lane, pages[i].sequence) != Path(lane, LaneCount(all, lane) + 1) {
      SequencesBounded(plan, pages, i);
      assert all[..|pages|] == pages;
      CountGrows(all, |pages|, pages[i].lane);
    }
  }

  predicate Sound(plan: Plan, run: Run, files: map<Path, seq<Row>>, truth: Option<Truth>) {
    Kept(plan, run) && Stored(run.pages, files) && (truth.Some? ==> TruthOk(truth.value) && Served(plan, run, truth.value))
  }

  lemma TakenSound(plan: Plan, run: Run, files: map<Path, seq<Row>>, truth: Option<Truth>, lane: Lane, rows: seq<Row>)
    requires Sound(plan, run, files, truth) && run.received < plan.maxRows && !run.Done(lane) && (lane == NullWatermark ==> run.primaryDone)
    requires 0 < |rows| <= NextQuery(plan, run.pages, lane).limit && ValidPage(rows, lane, LastCursor(run.pages, lane))
    requires truth.Some? ==> rows == Answer(truth.value, NextQuery(plan, run.pages, lane))
    requires Path(lane, LaneCount(run.pages, lane) + 1) in files && files[Path(lane, LaneCount(run.pages, lane) + 1)] == rows
    ensures Sound(plan, Taken(plan, run, lane, rows), files, truth)
  {
    hide Kept, Served, TruthOk, ValidPage, NextQuery, Answer;
    TakenKept(plan, run, lane, rows);
    if truth.Some? { TakenServed(plan, run, lane, rows, truth.value); }
  }

  /** A lane whose last answer was short, `rows` of them, is finished once those rows are taken. */
  lemma FinishedSound(plan: Plan, before: Run, files: map<Path, seq<Row>>, truth: Option<Truth>, lane: Lane,
                 rows: seq<Row>, run: Run)
    requires Sound(plan, before, files, truth) && Sound(plan, run, files, truth) && before.received < plan.maxRows
    requires (lane == NullWatermark ==> run.primaryDone) && |rows| < NextQuery(plan, before.pages, lane).limit
    requires truth.Some? ==> rows == Answer(truth.value, NextQuery(plan, before.pages, lane))
    requires run == if rows == [] then before else Taken(plan, before, lane, rows)
    ensures Sound(plan, run.Finished(lane), files, truth)
  {
    hide Answer, LaneWindow, TruthOk, PagesOk, ValidPage;
    if rows != [] { LaneRowsSnoc(before.pages, NewPage(plan, before.pages, lane, rows), lane); }
    if truth.Some? { ShortAnswerFinishes(plan, before, lane, rows, truth.value); }
  }

  lemma TruncatedSound(plan: Plan, run: Run, files: map<Path, seq<Row>>, truth: Option<Truth>, lane: Lane)
    requires Sound(plan, run, files, truth) && run.received >= plan.maxRows && !run.Done(lane)
    ensures Sound(plan, run.(truncated := true), files, truth)
  {
    hide PagesOk, LaneWindow, Answer;
  }

  class BronzeExtraction {
    const plan: Plan
    const script: seq<Event>
    /** Some(t) when every answer in the script comes from one unchanging source. */
    ghost const truth: Option<Truth>
    var next: nat
    var files: map<Path, seq<Row>>
    var run: Run     // the manifest in memory
    var saved: Run   // the page state on disk

    ghost predicate Truthful() {
      truth.Some? ==>
        TruthOk(truth.value) && forall i :: 0 <= i < |script| && script[i].wire.Answered? ==>
            script[i].wire.source == Honest(truth.value)
    }

    ghost predicate Valid()
      reads this
    {
      && Truthful() && Sound(plan, run, files, truth) && Sound(plan, saved, files, truth)
      && saved.pages <= run.pages
    }

    constructor (plan: Plan, script: seq<Event>, ghost truth: Option<Truth>)
      requires truth.Some? ==>
        TruthOk(truth.value) && forall i :: 0 <= i < |script| && script[i].wire.Answered? ==>
            script[i].wire.source == Honest(truth.value)
      ensures Valid() && run == saved == BLANK && this.plan == plan && this.truth == truth
    {
      this.plan, this.script, this.truth := plan, script, truth;
      next, files, run, saved := 0, map[], BLANK, BLANK;
      new;
      if truth.Some? { BlankKept(plan, truth.value); }
    }

    function At(i: nat): Event { if i < |script| then script[i] else END }

    /** Nothing went wrong between two points: every write landed and every request was answered. */
    predicate Smooth(from: nat, to: nat) {
      forall i :: from <= i < to ==> At(i).write.Written? && At(i).wire.Answered?
    }

    /** The source does not change and every row of it conforms. */
    ghost predicate Steady() { truth.Some? && Wellformed(truth.value) }

    method Draw() returns (e: Event)
      modifies `next
      ensures next == old(next) + 1 && e == At(old(next))
      ensures Truthful() && truth.Some? && e.wire.Answered? ==> e.wire.source == Honest(truth.value)
    {
      e := At(next);
      next := next + 1;
    }

    /** `write_page_state`. */
    method SaveState() returns (s: Signal)
      requires Valid()
      modifies `next, `saved
      ensures Valid() && next == old(next) + 1 && s == SignalOf(At(old(next)).write)
      ensures saved == if At(old(next)).write.Lands() then run else old(saved)
    {
      hide Sound;
      var e := Draw();
      if e.write.Lands() { saved := run; }
      s := SignalOf(e.write);
    }

    method WritePage(lane: Lane, sequence: int, rows: seq<Row>) returns (s: Signal)
      requires Valid() && sequence == LaneCount(run.pages, lane) + 1
      modifies `next, `files
      ensures Valid() && (s == Done ==> Path(lane, sequence) in files && files[Path(lane, sequence)] == rows)
      ensures next == old(next) + 1 && s == SignalOf(At(old(next)).write)
    {
      hide PagesOk, Served, Stored;
      var e := Draw();
      if e.write.Lands() {
        NextFileFree(plan, run.pages, run.pages, files, lane, rows);
        NextFileFree(plan, saved.pages, run.pages, files, lane, rows);
        files := files[Path(lane, sequence) := rows];
      }
      s := SignalOf(e.write);
    }

    /** One request: rows within the limit, or a failure. */
    method Fetch(query: Query) returns (s: Signal, rows: seq<Row>)
      requires Truthful()
      modifies `next
      ensures s == Done ==> |rows| <= query.limit && (truth.Some? ==> rows == Answer(truth.value, query))
      ensures next == old(next) + 1
      ensures match At(old(next)).wire
              case Raised => s == Failed
              case Cut => s == Killed
              case Answered(source) =>
                rows == SourceRows(source, query) && s == if |rows| <= query.limit then Done else Failed
      ensures truth.Some? && 0 <= query.limit && At(old(next)).wire.Answered? ==> s == Done
    {
      rows := [];
      var e := Draw();
      match e.wire {
        case Raised => s := Failed;
        case Cut => s := Killed;
        case Answered(source) =>
          rows := SourceRows(source, query);
          s := if |rows| > query.limit then Failed else Done;
      }
    }

    /** Stores the rows of a page and records it. */
    method TakePage(lane: Lane, sequence: int, rows: seq<Row>) returns (s: Signal)
      requires Valid() && sequence == LaneCount(run.pages, lane) + 1
      requires run.received < plan.maxRows && !run.Done(lane) && (lane == NullWatermark ==> run.primaryDone)
      requires 0 < |rows| <= NextQuery(plan, run.pages, lane).limit && ValidPage(rows, lane, LastCursor(run.pages, lane))
      requires truth.Some? ==> rows == Answer(truth.value, NextQuery(plan, run.pages, lane))
      modifies `next, `files, `run, `saved
      ensures Valid() && old(saved).pages <= saved.pages && old(run).pages <= run.pages
      ensures run.primaryDone == old(run).primaryDone && run.nullDone == old(run).nullDone && run.truncated == old(run).truncated
      ensures s == Done ==>
        && run == Taken(plan, old(run), lane, rows) && Sound(plan, old(run), files, truth)
        && LastCursor(run.pages, lane) == Some(CursorOf(rows[|rows| - 1], lane))
        && LaneCount(run.pages, lane) == sequence && run.received == old(run).received + |rows|
      ensures old(next) <= next && (Smooth(old(next), next) ==> s == Done)
      ensures s == Killed || s == Failed || s == Done
    {
      hide Sound, Taken, NextQuery, Answer, ValidPage;
      s := WritePage(lane, sequence, rows);
      if s != Done { return; }
      TakenSound(plan, run, files, truth, lane, rows);
      TakenFields(plan, run, lane, rows);
      run := Taken(plan, run, lane, rows);
      s := SaveState();
    }

    /** One page of a lane: a short one, with or without rows, ends it. */
    method ReadPage(lane: Lane, cursor: Option<Cursor>, sequence: int)
      returns (s: Signal, ended: bool, after: Option<Cursor>, following: int)
      requires Valid() && run.received < plan.maxRows && !run.Done(lane) && (lane == NullWatermark ==> run.primaryDone)
      requires cursor == LastCursor(run.pages, lane) && sequence == LaneCount(run.pages, lane) + 1
      modifies `next, `files, `run, `saved
      ensures Valid() && old(saved).pages <= saved.pages && old(run).pages <= run.pages
      ensures lane != Primary ==> run.primaryDone == old(run).primaryDone
      ensures lane != NullWatermark ==> run.nullDone == old(run).nullDone
      ensures run.truncated == old(run).truncated
      ensures s == Done ==> run.Done(lane) == ended
      ensures s == Done && !ended ==>
        && run.received > old(run).received
        && after == LastCursor(run.pages, lane) && following == LaneCount(run.pages, lane) + 1
      ensures old(next) <= next && (Smooth(old(next), next) && Steady() ==> s == Done)
    {
      hide Sound, Truthful, Taken, NextQuery, Answer, ValidPage, LastCursor, LaneCount, Total, CursorOf, Wellformed, SourceRows,
          SignalOf, LaneRows;
      ended, after, following := false, cursor, sequence;
      ReceivedCounts(plan, run, files, truth);
      var limit := if plan.pageSize < plan.maxRows - run.received then plan.pageSize else plan.maxRows - run.received;
      var query := Query(lane, plan.window, limit, cursor);
      NextQueryIs(plan, run.pages, lane);
      var rows;
      s, rows := Fetch(query);
      if s != Done { return; }
      if Steady() { SteadyAccepted(plan, run, files, truth, lane); }
      if !ValidPage(rows, lane, cursor) { return Failed, ended, after, following; }
      ghost var before := run;
      if rows != [] {
        s := TakePage(lane, sequence, rows);
        if s != Done { return; }
        following, after := sequence + 1, Some(CursorOf(rows[|rows| - 1], lane));
      }
      if |rows| < limit {
        FinishedSound(plan, before, files, truth, lane, rows, run);
        run, ended := run.Finished(lane), true;
        s := SaveState();
      }
    }

    /** Reads one lane until a short page, the row cap or an interruption. */
    method ReadLane(lane: Lane) returns (s: Signal)
      requires Valid() && (lane == NullWatermark ==> run.primaryDone)
      modifies `next, `files, `run, `saved
      ensures Valid() && old(saved).pages <= saved.pages && old(run).pages <= run.pages
      ensures s == Done ==> run.Done(lane) || run.truncated
      ensures forall other :: other != lane ==> run.Done(other) == old(run).Done(other)
      ensures old(run).truncated ==> run.truncated
      ensures old(next) <= next && (Smooth(old(next), next) && Steady() ==> s == Done)
    {
      hide Sound, Truthful, Taken, NextQuery, Answer, ValidPage, LastCursor, LaneCount, Total, CursorOf, Wellformed;
      if run.Done(lane) { return Done; }
      var cursor := LastCursor(run.pages, lane);
      var sequence := LaneCount(run.pages, lane) + 1;
      while run.received < plan.maxRows
        invariant Valid() && old(saved).pages <= saved.pages && old(run).pages <= run.pages
        invariant !run.Done(lane) && (lane == NullWatermark ==> run.primaryDone)
        invariant cursor == LastCursor(run.pages, lane) && sequence == LaneCount(run.pages, lane) + 1
        invariant run.primaryDone == old(run).primaryDone && run.nullDone == old(run).nullDone && run.truncated == old(run).truncated
        invariant old(next) <= next
      {
        var ended;
        s, ended, cursor, sequence := ReadPage(lane, cursor, sequence);
        if s != Done || ended { return; }
      }
      TruncatedSound(plan, run, files, truth, lane);
      run := run.(truncated := true);
      s := Done;
    }

    /** `_extract`: the lanes in order, stopping at the row cap. */
    method Extract() returns (s: Signal)
      requires Valid()
      modifies `next, `files, `run, `saved
      ensures Valid() && old(saved).pages <= saved.pages
      ensures s == Done ==> (run.truncated || (run.primaryDone && run.nullDone))
      ensures old(next) <= next && (Smooth(old(next), next) && Steady() ==> s == Done)
    {
      hide Sound;
      s := ReadLane(Primary);
      if s != Done { return; }
      if !run.primaryDone { return; }
      s := ReadLane(NullWatermark);
    }

    /**
     * A run or a resumption: starts from the saved page state, and saves once more after an error.
     * Only a run that got through reports whether its range is complete, and then, of a source that
     * does not change, it holds every row updated in the window and every one never updated that was
     * signed in what was asked for, and no other.
     */
    method Attempt() returns (s: Signal, complete: bool)
      requires Valid()
      modifies `next, `files, `run, `saved
      ensures Valid() && old(saved).pages <= saved.pages
      ensures run.received <= plan.maxRows && saved.received <= plan.maxRows
      ensures complete ==> s == Done
      ensures old(next) <= next && (Smooth(old(next), next) && Steady() ==> s == Done)
      ensures s == Failed ==> old(next) < next && (At(next - 1).write.Lands() ==> saved == run)
      ensures s == Done ==> (complete <==> !run.truncated) && (complete <==> run.primaryDone && run.nullDone)
      ensures complete && truth.Some? ==>
                && LaneRows(run.pages, Primary) == LaneWindow(truth.value, plan.window, Primary)
                && LaneRows(run.pages, NullWatermark) == LaneWindow(truth.value, plan.window, NullWatermark)
                && CoversWindow(run.pages, plan.window, truth.value)
    {
      hide CoversWindow, PagesOk, Served, Stored, LaneWindow;
      complete := false;
      run := saved;
      s := Extract();
      if s == Failed {
        var again := SaveState();
        s := if again == Killed then Killed else Failed;
      }
      WithinCap(plan, run.pages);
      WithinCap(plan, saved.pages);
      if s == Done {
        complete := run.primaryDone && run.nullDone && !run.truncated;
        if truth.Some? {
          RangeCompleteExact(plan, run, truth.value);
          if complete { WindowsCovered(run.pages, plan.window, truth.value); }
        }
        if run.truncated { TruncatedOpen(plan, run); }
      }
    }
  }

  lemma SteadyAccepted(plan: Plan, run: Run, files: map<Path, seq<Row>>, truth: Option<Truth>, lane: Lane)
    requires Sound(plan, run, files, truth) && truth.Some? && Wellformed(truth.value) && run.received < plan.maxRows
    ensures ValidPage(Answer(truth.value, NextQuery(plan, run.pages, lane)), lane, LastCursor(run.pages, lane))
  {
    HonestAccepted(plan, run, truth.value, lane);
  }

  lemma TruncatedOpen(plan: Plan, run: Run)
    requires Kept(plan, run) && run.truncated
    ensures !(run.primaryDone && run.nullDone)
  {
  }

  lemma ReceivedCounts(plan: Plan, run: Run, files: map<Path, seq<Row>>, truth: Option<Truth>)
    requires Sound(plan, run, files, truth)
    ensures run.received == Total(run.pages)
  {
  }

  lemma NextQueryIs(plan: Plan, pages: seq<Page>, lane: Lane)
    ensures var left := plan.maxRows - Total(pages);
            NextQuery(plan, pages, lane) ==
            Query(lane, plan.window, if plan.pageSize < left then plan.pageSize else left, LastCursor(pages, lane))
  {
  }

  lemma TakenFields(plan: Plan, run: Run, lane: Lane, rows: seq<Row>)
    requires rows != []
    ensures var t := Taken(plan, run, lane, rows);
            && t.received == run.received + |rows| && run.pages <= t.pages
            && LastCursor(t.pages, lane) == Some(CursorOf(rows[|rows| - 1], lane))
            && LaneCount(t.pages, lane) == LaneCount(run.pages, lane) + 1
            && t.primaryDone == run.primaryDone && t.nullDone == run.nullDone && t.truncated == run.truncated
  {
    LaneRowsSnoc(run.pages, NewPage(plan, run.pages, lane, rows), lane);
  }
}

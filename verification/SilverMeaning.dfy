/** What the rejection evidence says about a selected row, in the fields of the observations. */
module SilverMeaning {
  import opened Wrappers
  import opened Text
  import opened SilverConditions
  import opened SilverEvidence

  /**
   * `r` is evidence about the selected row: it was rejected, it spells the same identity, the
   * identity is not blank once normalised, and nothing else is spelled like it.
   */
  predicate About(c: Context, all: seq<Observation>, w: Winner, r: Observation) {
    && r in all && r.codes != [] && r.raw.Some? && r.raw == w.row.raw && c.normalize(r.raw.value) != ""
    && forall o :: o in all && o.raw.Some? && c.normalize(o.raw.value) == c.normalize(r.raw.value) ==> o.raw == r.raw
  }

  lemma AboutCited(c: Context, all: seq<Observation>, w: Winner, r: Observation)
    ensures CitedBy(c, all, w, r) <==> About(c, all, w, r)
  {
    if r in all && r.raw.Some? {
      OneSpelling(c, all, r);
    }
  }

  lemma OneSpelling(c: Context, all: seq<Observation>, r: Observation)
    requires r in all && r.raw.Some?
    ensures |Spellings(c, all, c.normalize(r.raw.value))| == 1 <==>
            forall o :: o in all && o.raw.Some? && c.normalize(o.raw.value) == c.normalize(r.raw.value) ==> o.raw == r.raw
  {
    var k := c.normalize(r.raw.value);
    var spellings := Spellings(c, all, k);
    assert forall o :: o in all && o.raw.Some? && c.normalize(o.raw.value) == k ==> o.raw.value in spellings by {
      forall o | o in all && o.raw.Some? && c.normalize(o.raw.value) == k ensures o.raw.value in spellings {
        var i :| 0 <= i < |all| && all[i] == o;
      }
    }
    if |spellings| == 1 {
      forall x | x in spellings ensures x == r.raw.value { Singleton(spellings, x, r.raw.value); }
    }
    if forall o :: o in all && o.raw.Some? && c.normalize(o.raw.value) == k ==> o.raw == r.raw {
      forall x | x in spellings ensures x == r.raw.value {
        var i :| 0 <= i < |all| && all[i].raw.Some? && c.normalize(all[i].raw.value) == k && all[i].raw.value == x;
        assert all[i] in all;
      }
      assert spellings == {r.raw.value};
    }
  }

  lemma Singleton<T>(s: set<T>, x: T, y: T)
    requires |s| == 1 && x in s && y in s
    ensures x == y
  {
    assert |s - {x}| == 0;
    assert s - {x} == {};
  }

  // ---- Links by time ----------------------------------------------------------------------

  /** The rejects acquired before, with or after the selected row, as `order` says. */
  predicate At(relation: Relation, rejected: int, selected: int) {
    match relation
    case LaterThan => selected < rejected
    case EqualTo => selected == rejected
    case EarlierThan => rejected < selected
  }

  lemma {:induction false} CountPositive(links: seq<Link>, relation: Relation)
    ensures CountOf(links, relation) > 0 <==> exists l :: l in links && l.relation == relation
  {
    if links != [] {
      var n := |links| - 1;
      CountPositive(links[..n], relation);
      assert links == links[..n] + [links[n]];
    }
  }

  /** There is a link of some relation exactly when there is such a reject. */
  lemma LinkTimes(c: Context, all: seq<Observation>, w: Winner, relation: Relation)
    requires AllLocated(c, all, w)
    ensures CountOf(LinksFor(c, all, w), relation) > 0 <==>
            exists r :: About(c, all, w, r) && At(relation, r.at, w.row.at)
  {
    hide LinksFor, About, CitedBy, RejectsOf;
    CountPositive(LinksFor(c, all, w), relation);
    if l :| l in LinksFor(c, all, w) && l.relation == relation {
      LinksForMeaning(c, all, w, l);
      var r :| r in all && LinkFrom(c, all, w, r, l);
      AboutCited(c, all, w, r);
    }
    if r :| About(c, all, w, r) && At(relation, r.at, w.row.at) {
      AboutCited(c, all, w, r);
      CitedInAll(c, all, w, r);
      LinksForMeaning(c, all, w, LinkOf(c, w, r));
      assert LinkFrom(c, all, w, r, LinkOf(c, w, r));
    }
  }

  lemma CitedInAll(c: Context, all: seq<Observation>, w: Winner, r: Observation)
    requires AllLocated(c, all, w) && CitedBy(c, all, w, r)
    ensures r in all && Located(c, w.row) && Located(c, r)
  {
    hide Reliable;
    RejectsMeaning(c, all, all, w.row.raw.value, r);
    var i :| 0 <= i < |RejectsOf(c, all, all, w.row.raw.value)| && RejectsOf(c, all, all, w.row.raw.value)[i] == r;
  }

  // ---- The summary ------------------------------------------------------------------------

  /**
   * The state of every summary: a later reject makes it later-invalid; without one, a reject of the
   * very same instant leaves the order open; otherwise nothing later is invalid.
   */
  lemma SummaryMeaning(c: Context, all: seq<Observation>, winners: seq<Winner>, i: nat)
    requires Complete(c, all, winners) && i < |winners|
    ensures |AllSummaries(c, all, winners)| == |winners|
    ensures var s, w := AllSummaries(c, all, winners)[i], winners[i];
            && s.key == w.key && s.scope == c.scope && s.version == c.version && s.validation == c.validation
            && s.winner.run == w.row.run && s.winner.page == w.row.page && s.winner.ordinal == w.row.ordinal
            && s.winner.at == w.row.at && s.winner.payload == w.row.payload
            && (s.state == LaterInvalid <==> exists r :: About(c, all, w, r) && r.at > w.row.at)
            && (s.state == Indeterminate <==>
                  (forall r :: About(c, all, w, r) ==> r.at <= w.row.at) && exists r :: About(c, all, w, r) && r.at == w.row.at)
            && (s.state == NoLaterInvalid <==> forall r :: About(c, all, w, r) ==> r.at < w.row.at)
            && (s.later > 0 <==> exists r :: About(c, all, w, r) && r.at > w.row.at)
            && (s.equal > 0 <==> exists r :: About(c, all, w, r) && r.at == w.row.at)
  {
    hide About, LinksFor, CountOf, AllLocated;
    SummariesMeaning(c, all, winners);
    LinkTimes(c, all, winners[i], LaterThan);
    LinkTimes(c, all, winners[i], EqualTo);
    assert Located(c, winners[i].row) by { LocatedWinner(c, all, winners[i]); }
  }

  lemma LocatedWinner(c: Context, all: seq<Observation>, w: Winner)
    requires AllLocated(c, all, w)
    ensures Located(c, w.row) && w.row.raw.Some?
  {
  }

  // ---- Counts -----------------------------------------------------------------------------

  /** The rejects among `rows` that are evidence about the selected row, of one relation to it. */
  ghost function Evidence(c: Context, all: seq<Observation>, w: Winner, rows: seq<Observation>, relation: Relation): set<Observation> {
    set r | r in rows && About(c, all, w, r) && At(relation, r.at, w.row.at)
  }

  lemma {:induction false} RejectsEvidence(c: Context, all: seq<Observation>, w: Winner, rows: seq<Observation>, relation: Relation)
    requires w.row.raw.Some? && Located(c, w.row) && AllLocated(c, all, w)
    requires UniquePlaces(rows) && forall r :: r in rows ==> r in all
    ensures var rejects := RejectsOf(c, all, rows, w.row.raw.value);
            && (forall j :: 0 <= j < |rejects| ==> Located(c, rejects[j]))
            && CountOf(OwnLinks(c, w, rejects), relation) == |Evidence(c, all, w, rows, relation)|
  {
    if rows != [] {
      hide *;
      var n := |rows| - 1;
      var before, last := rows[..n], rows[n];
      assert rows == before + [last] && last in rows;
      Fewer(before, last);
      RejectsEvidence(c, all, w, before, relation);
      EvidenceSnoc(c, all, w, before, last, relation);
      AboutCited(c, all, w, last);
      if CitedBy(c, all, w, last) {
        CitedInAll(c, all, w, last);
        OneMoreLink(c, all, w, before, last, relation);
      } else {
        NotCited(c, all, w, before, last);
      }
    }
  }

  lemma Fewer(rows: seq<Observation>, last: Observation)
    requires UniquePlaces(rows + [last])
    ensures UniquePlaces(rows) && last !in rows
  {
    var all := rows + [last];
    assert forall i :: 0 <= i < |rows| ==> all[i] == rows[i];
    forall i | 0 <= i < |rows| ensures rows[i] != last { assert Place(all[i]) != Place(all[|rows|]); }
  }

  lemma EvidenceSnoc(c: Context, all: seq<Observation>, w: Winner, rows: seq<Observation>, last: Observation, relation: Relation)
    requires last !in rows
    ensures |Evidence(c, all, w, rows + [last], relation)| ==
            |Evidence(c, all, w, rows, relation)| + if About(c, all, w, last) && At(relation, last.at, w.row.at) then 1 else 0
  {
    hide About, At;
    var before := Evidence(c, all, w, rows, relation);
    var counted := About(c, all, w, last) && At(relation, last.at, w.row.at);
    assert Evidence(c, all, w, rows + [last], relation) == before + if counted then {last} else {};
  }

  lemma NotCited(c: Context, all: seq<Observation>, w: Winner, rows: seq<Observation>, last: Observation)
    requires w.row.raw.Some? && last in all && !CitedBy(c, all, w, last)
    ensures RejectsOf(c, all, rows + [last], w.row.raw.value) == RejectsOf(c, all, rows, w.row.raw.value)
  {
    hide Reliable;
    assert (rows + [last])[..|rows|] == rows;
  }

  /** A reject at a place of its own is one more link. */
  lemma OneMoreLink(c: Context, all: seq<Observation>, w: Winner, rows: seq<Observation>, last: Observation, relation: Relation)
    requires w.row.raw.Some? && Located(c, w.row) && Located(c, last) && CitedBy(c, all, w, last)
    requires UniquePlaces(rows + [last])
    requires forall j :: 0 <= j < |RejectsOf(c, all, rows, w.row.raw.value)| ==> Located(c, RejectsOf(c, all, rows, w.row.raw.value)[j])
    ensures var rejects := RejectsOf(c, all, rows, w.row.raw.value);
            && RejectsOf(c, all, rows + [last], w.row.raw.value) == rejects + [last]
            && (forall j :: 0 <= j < |rejects + [last]| ==> Located(c, (rejects + [last])[j]))
            && CountOf(OwnLinks(c, w, rejects + [last]), relation) ==
               CountOf(OwnLinks(c, w, rejects), relation) + if At(relation, last.at, w.row.at) then 1 else 0
  {
    hide Reliable;
    var raw, rejects := w.row.raw.value, RejectsOf(c, all, rows, w.row.raw.value);
    assert (rows + [last])[..|rows|] == rows;
    assert (rejects + [last])[..|rejects|] == rejects;
    OwnLinksMeaning(c, w, rejects);
    forall j | 0 <= j < |rejects| ensures LinkOf(c, w, rejects[j]) != LinkOf(c, w, last) {
      RejectsMeaning(c, all, rows, raw, rejects[j]);
      var k :| 0 <= k < |rows| && rows[k] == rejects[j];
      assert Place((rows + [last])[k]) != Place((rows + [last])[|rows|]);
    }
    var before, link := OwnLinks(c, w, rejects), LinkOf(c, w, last);
    assert (before + [link])[..|before|] == before;
  }

  /** With one observation per place, a summary counts exactly the later and the simultaneous rejects. */
  lemma SummaryCounts(c: Context, all: seq<Observation>, winners: seq<Winner>, i: nat)
    requires Complete(c, all, winners) && i < |winners| && UniquePlaces(all)
    ensures |AllSummaries(c, all, winners)| == |winners|
    ensures var s, w := AllSummaries(c, all, winners)[i], winners[i];
            && s.later == |set r | r in all && About(c, all, w, r) && r.at > w.row.at|
            && s.equal == |set r | r in all && About(c, all, w, r) && r.at == w.row.at|
  {
    hide About, AllLocated, CountOf, OwnLinks, UniquePlaces;
    var w := winners[i];
    SummariesMeaning(c, all, winners);
    LocatedWinner(c, all, w);
    RejectsEvidence(c, all, w, all, LaterThan);
    RejectsEvidence(c, all, w, all, EqualTo);
    assert Evidence(c, all, w, all, LaterThan) == set r | r in all && About(c, all, w, r) && r.at > w.row.at;
    assert Evidence(c, all, w, all, EqualTo) == set r | r in all && About(c, all, w, r) && r.at == w.row.at;
  }

  // ---- The links --------------------------------------------------------------------------

  /** What a link says: which reject it names, how its time stands to the selected row's, and why it was rejected. */
  lemma LinkMeaning(c: Context, all: seq<Observation>, winners: seq<Winner>, l: Link)
    requires Complete(c, all, winners) && l in AllLinks(c, all, winners)
    ensures exists i, r :: 0 <= i < |winners| && About(c, all, winners[i], r) && Names(c, winners[i], r, l)
  {
    hide About, LinksFor, CitedBy, Names;
    AllLinksMeaning(c, all, winners, l);
    var i :| 0 <= i < |winners| && l in LinksFor(c, all, winners[i]);
    LinksForMeaning(c, all, winners[i], l);
    var r :| r in all && LinkFrom(c, all, winners[i], r, l);
    AboutCited(c, all, winners[i], r);
    LinkNames(c, all, winners[i], r, l);
  }

  lemma LinkNames(c: Context, all: seq<Observation>, w: Winner, r: Observation, l: Link)
    requires LinkFrom(c, all, w, r, l)
    ensures Names(c, w, r, l)
  {
  }

  ghost predicate Names(c: Context, w: Winner, r: Observation, l: Link) {
    && l.key == w.key && l.scope == c.scope && l.version == c.version && l.validation == c.validation
    && l.rejected.run == r.run && l.rejected.page == r.page && l.rejected.ordinal == r.ordinal
    && l.rejected.payload == r.payload && l.rejected.at == r.at && At(l.relation, r.at, w.row.at)
    && l.winner.run == w.row.run && l.winner.page == w.row.page && l.winner.ordinal == w.row.ordinal
    && (forall x :: x in l.codes <==> x in r.codes)
    && (r.run, r.page) in c.pages && l.rejected.pageDigest == c.pages[(r.run, r.page)]
  }

  // ---- What the validator demands ---------------------------------------------------------

  /** The links of a key whose reject stands in a relation to the selected row they name. */
  ghost function Standing(links: seq<StoredLink>, key: string, relation: Relation): set<int> {
    set j | 0 <= j < |links| && links[j].link.key == key && At(relation, links[j].link.rejected.at, links[j].link.winner.at)
  }

  lemma {:induction false} KeyCountIs(links: seq<StoredLink>, key: string, relation: Relation)
    requires forall j :: 0 <= j < |links| ==> TimesAgree(links[j].link)
    ensures KeyCount(links, key, relation) == |Standing(links, key, relation)|
  {
    if links != [] {
      var n := |links| - 1;
      var before := links[..n];
      assert forall j :: 0 <= j < n ==> before[j] == links[j];
      assert before + [links[n]] == links && TimesAgree(links[n].link);
      hide Standing;
      KeyCountIs(before, key, relation);
      StandingSnoc(before, links[n], key, relation);
    }
  }

  lemma StandingSnoc(links: seq<StoredLink>, last: StoredLink, key: string, relation: Relation)
    ensures |Standing(links + [last], key, relation)| == |Standing(links, key, relation)|
            + if last.link.key == key && At(relation, last.link.rejected.at, last.link.winner.at) then 1 else 0
  {
    hide At;
    var all := links + [last];
    var counted := last.link.key == key && At(relation, last.link.rejected.at, last.link.winner.at);
    var before, after := Standing(links, key, relation), Standing(all, key, relation);
    forall j ensures j in after <==> j in before || (counted && j == |links|) {
      if 0 <= j < |links| { assert all[j] == links[j]; }
      if j == |links| { assert all[j] == last; }
    }
    assert |links| !in before;
    assert after == before + if counted then {|links|} else {};
  }

  predicate TimesAgree(l: Link) { At(l.relation, l.rejected.at, l.winner.at) }

  predicate PlaceOk(l: Locator) { Usable(l.run) && Usable(l.projection) && CleanPath(l.page) && 0 <= l.ordinal }

  /** One link: sound places and codes, a relation that its times bear out, and its own identity. */
  predicate SoundLink(stored: StoredLink, scope: string, version: string) {
    var l := stored.link;
    && l.scope == scope && l.version == version && Usable(version) && Usable(l.validation)
    && PlaceOk(l.winner) && PlaceOk(l.rejected) && TimesAgree(l) && stored.id == l
    && l.codes != {} && forall x :: x in l.codes ==> Usable(x)
  }

  /** One summary: a sound place, true counts of the links of its key, and the state that they make. */
  ghost predicate SoundSummary(s: Summary, links: seq<StoredLink>, scope: string, version: string) {
    && s.scope == scope && s.version == version && Usable(version) && Usable(s.validation) && PlaceOk(s.winner)
    && s.later == |Standing(links, s.key, LaterThan)| && s.equal == |Standing(links, s.key, EqualTo)|
    && (s.state == LaterInvalid ==> s.later > 0)
    && (s.state == Indeterminate ==> s.later == 0 && s.equal > 0)
    && (s.state == NoLaterInvalid ==> s.later == 0 && s.equal == 0)
    && (s.state == LegacyUnassessed ==> forall j :: 0 <= j < |links| ==> links[j].link.key != s.key)
  }

  /** Which sets of evidence the validator accepts, in the fields of summaries and links. */
  lemma ValidSetExact(summaries: seq<Summary>, links: seq<StoredLink>, scope: string, version: string, keys: set<string>)
    ensures ValidSet(summaries, links, scope, version, keys) <==>
              && (forall i :: 0 <= i < |links| ==> SoundLink(links[i], scope, version))
              && (forall i :: 0 <= i < |summaries| ==> SoundSummary(summaries[i], links, scope, version))
              && (forall k :: k in keys <==> exists i :: 0 <= i < |summaries| && summaries[i].key == k)
              && (forall i, j :: 0 <= i < j < |summaries| ==> summaries[i].key != summaries[j].key)
              && (forall i, j :: 0 <= i < j < |links| ==> links[i].link.rejected.Place() != links[j].link.rejected.Place())
              && (forall i :: 0 <= i < |links| ==>
                    exists j :: 0 <= j < |summaries| && summaries[j].key == links[i].link.key && summaries[j].winner == links[i].link.winner)
  {
    hide *;
    forall i | 0 <= i < |links|
      ensures SoundLink(links[i], scope, version) <==> LinkOk(links[i]) && links[i].link.scope == scope && links[i].link.version == version
      ensures SoundLink(links[i], scope, version) ==> TimesAgree(links[i].link) && links[i].id == links[i].link
      ensures RefersTo(summaries, links[i].link) <==>
              exists j :: 0 <= j < |summaries| && summaries[j].key == links[i].link.key && summaries[j].winner == links[i].link.winner
    {
      LinkExact(links[i], scope, version);
      RefersExact(summaries, links[i].link);
    }
    KeysExact(summaries, keys);
    PlacesExact(links);
    ValidSetIs(summaries, links, scope, version, keys);
    if forall i :: 0 <= i < |links| ==> SoundLink(links[i], scope, version) {
      forall i | 0 <= i < |summaries|
        ensures SoundSummary(summaries[i], links, scope, version) <==>
                SummaryOk(summaries[i]) && summaries[i].scope == scope && summaries[i].version == version && Counted(links, summaries[i])
      {
        SummaryExact(summaries[i], links, scope, version);
      }
    }
  }

  /** The definition of a valid set, part by part. */
  lemma ValidSetIs(summaries: seq<Summary>, links: seq<StoredLink>, scope: string, version: string, keys: set<string>)
    ensures ValidSet(summaries, links, scope, version, keys) <==>
              && (forall i :: 0 <= i < |summaries| ==>
                    SummaryOk(summaries[i]) && summaries[i].scope == scope && summaries[i].version == version && Counted(links, summaries[i]))
              && (forall i :: 0 <= i < |links| ==> LinkOk(links[i]) && links[i].link.scope == scope && links[i].link.version == version)
              && Distinct(SummaryKeys(summaries)) && (set k | k in SummaryKeys(summaries)) == keys
              && Distinct(Ids(links)) && Distinct(Places(links))
              && (forall i :: 0 <= i < |links| ==> RefersTo(summaries, links[i].link))
  {
    hide SummaryOk, LinkOk, Counted, RefersTo, Distinct, Ids, Places, SummaryKeys;
  }

  lemma LinkExact(stored: StoredLink, scope: string, version: string)
    ensures SoundLink(stored, scope, version) <==> LinkOk(stored) && stored.link.scope == scope && stored.link.version == version
    ensures SoundLink(stored, scope, version) ==> TimesAgree(stored.link) && stored.id == stored.link
  {
    hide Usable, CleanPath;
  }

  lemma SummaryExact(s: Summary, links: seq<StoredLink>, scope: string, version: string)
    requires forall j :: 0 <= j < |links| ==> TimesAgree(links[j].link)
    ensures SoundSummary(s, links, scope, version) <==>
            SummaryOk(s) && s.scope == scope && s.version == version && Counted(links, s)
  {
    hide Usable, CleanPath;
    KeyCountIs(links, s.key, LaterThan);
    KeyCountIs(links, s.key, EqualTo);
    KeyCountIs(links, s.key, EarlierThan);
    NoneStanding(links, s.key);
    hide KeyCount, Standing, At, TimesAgree;
  }

  /** No link of a key stands in any relation exactly if there is no link of the key. */
  lemma NoneStanding(links: seq<StoredLink>, key: string)
    ensures (|Standing(links, key, LaterThan)| == 0 && |Standing(links, key, EqualTo)| == 0 && |Standing(links, key, EarlierThan)| == 0)
            <==> forall j :: 0 <= j < |links| ==> links[j].link.key != key
  {
    var later, equal, earlier := Standing(links, key, LaterThan), Standing(links, key, EqualTo), Standing(links, key, EarlierThan);
    if j :| 0 <= j < |links| && links[j].link.key == key {
      assert j in later || j in equal || j in earlier;
    } else {
      assert later == {} && equal == {} && earlier == {};
    }
  }

  lemma KeysExact(summaries: seq<Summary>, keys: set<string>)
    ensures Distinct(SummaryKeys(summaries)) <==>
            forall i, j :: 0 <= i < j < |summaries| ==> summaries[i].key != summaries[j].key
    ensures (set k | k in SummaryKeys(summaries)) == keys <==>
            forall k :: k in keys <==> exists i :: 0 <= i < |summaries| && summaries[i].key == k
  {
    var found := SummaryKeys(summaries);
    if forall i, j :: 0 <= i < j < |summaries| ==> summaries[i].key != summaries[j].key {
      assert forall i :: 0 <= i < |summaries| ==> found[i] == summaries[i].key;
    }
    if Distinct(found) {
      forall i, j | 0 <= i < j < |summaries| ensures summaries[i].key != summaries[j].key { assert found[i] != found[j]; }
    }
    forall k ensures k in found <==> exists i :: 0 <= i < |summaries| && summaries[i].key == k {
      if i :| 0 <= i < |summaries| && summaries[i].key == k { assert found[i] == k; }
    }
    assert forall k :: k in (set k | k in found) <==> k in found;
  }

  lemma PlacesExact(links: seq<StoredLink>)
    ensures Distinct(Places(links)) <==>
            forall i, j :: 0 <= i < j < |links| ==> links[i].link.rejected.Place() != links[j].link.rejected.Place()
    ensures Distinct(Ids(links)) <==> forall i, j :: 0 <= i < j < |links| ==> links[i].id != links[j].id
  {
    var places, ids := Places(links), Ids(links);
    assert forall i :: 0 <= i < |links| ==> places[i] == links[i].link.rejected.Place() && ids[i] == links[i].id;
    if Distinct(places) {
      forall i, j | 0 <= i < j < |links| ensures links[i].link.rejected.Place() != links[j].link.rejected.Place() {
        assert places[i] != places[j];
      }
    }
    if Distinct(ids) {
      forall i, j | 0 <= i < j < |links| ensures links[i].id != links[j].id { assert ids[i] != ids[j]; }
    }
  }

  lemma RefersExact(summaries: seq<Summary>, l: Link)
    ensures RefersTo(summaries, l) <==>
            exists j :: 0 <= j < |summaries| && summaries[j].key == l.key && summaries[j].winner == l.winner
  {
  }

  lemma SegmentsStep(c: char, p: string)
    ensures Segments([c] + p) == if c == '/' then [""] + Segments(p) else [[c] + Segments(p)[0]] + Segments(p)[1..]
  {
    assert ([c] + p)[1..] == p;
  }

  lemma Shifted(a: string, b: string)
    requires a != ""
    ensures a + "/" + b == [a[0]] + (a[1..] + "/" + b) && a == [a[0]] + a[1..]
  {
  }

  lemma FirstPrefixed(c: char, rest: seq<string>, more: seq<string>)
    requires rest != []
    ensures [[c] + (rest + more)[0]] + (rest + more)[1..] == ([[c] + rest[0]] + rest[1..]) + more
    ensures [""] + (rest + more) == ([""] + rest) + more
  {
  }

  lemma {:induction false} SegmentsConcat(a: string, b: string)
    ensures Segments(a + "/" + b) == Segments(a) + Segments(b)
  {
    if a == "" {
      assert a + "/" + b == ['/'] + b;
      SegmentsStep('/', b);
    } else {
      hide Segments;
      var c, tail := a[0], a[1..];
      Shifted(a, b);
      SegmentsConcat(tail, b);
      SegmentsStep(c, tail);
      SegmentsStep(c, tail + "/" + b);
      FirstPrefixed(c, Segments(tail), Segments(b));
    }
  }

  lemma {:induction false} SegmentWhole(a: string)
    requires '/' !in a
    ensures Segments(a) == [a]
  {
    if a != "" {
      SegmentWhole(a[1..]);
      assert [a[0]] + a[1..] == a;
    }
  }

  /** A path with an empty, "." or ".." component anywhere in it is refused, and only "." stands for the directory itself. */
  lemma EscapesRefused(a: string, b: string, dots: string)
    requires dots == "" || dots == "." || dots == ".."
    ensures !CleanPath(a + "/" + dots) && !CleanPath(dots + "/" + b) && !CleanPath(a + "/" + (dots + "/" + b))
    ensures CleanPath(".") && !CleanPath("..")
  {
    hide Usable;
    SegmentWhole(dots);
    SegmentWhole("..");
    SegmentsConcat(a, dots);
    SegmentsConcat(dots, b);
    SegmentsConcat(a, dots + "/" + b);
    assert dots in Segments(a) + Segments(dots) && dots in Segments(dots) + Segments(b);
    assert dots in Segments(a) + Segments(dots + "/" + b);
    DotUsable();
    assert ".." in Segments("..") && ".." != ".";
  }

  lemma DotUsable()
    ensures Usable(".")
  {
    assert !IsSpace("."[0]);
  }
}

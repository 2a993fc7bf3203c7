/** The rejection evidence that the producer writes, judged by the independent validator. */
module SilverEvidence {
  import opened Wrappers
  import opened Text
  import opened SilverConditions

  // ---- What the producer's inputs guarantee -----------------------------------------------

  /** Rows whose fields the validator accepts. */
  predicate Clean(row: Observation) {
    && Usable(row.run) && Usable(row.projection) && CleanPath(row.page) && row.ordinal >= 0
    && forall x :: x in row.codes ==> Usable(x)
  }

  /** Selected rows carry the key of their own identity, one row per key. */
  predicate Keyed(c: Context, winners: seq<Winner>) {
    && (forall i :: 0 <= i < |winners| ==> winners[i].row.raw.Some? && winners[i].key == c.normalize(winners[i].row.raw.value))
    && forall i, j :: 0 <= i < j < |winners| ==> winners[i].key != winners[j].key
  }

  predicate Inputs(c: Context, all: seq<Observation>, winners: seq<Winner>) {
    && Usable(c.version) && Usable(c.validation) && Keyed(c, winners)
    && (forall i :: 0 <= i < |all| ==> Clean(all[i])) && (forall i :: 0 <= i < |winners| ==> Clean(winners[i].row))
    && forall i :: 0 <= i < |winners| ==> AllLocated(c, all, winners[i])
  }

  /** A reliable reject of some selected row. */
  predicate CitedBy(c: Context, all: seq<Observation>, w: Winner, row: Observation) {
    row in all && Reliable(c, all, row) && row.raw == w.row.raw
  }

  function Place(row: Observation): (string, string, int) { (row.run, row.page, row.ordinal) }

  /** Two observations that give the same link. */
  predicate SameEvidence(a: Observation, b: Observation) {
    && a.raw == b.raw && a.payload == b.payload && a.at == b.at && a.profile == b.profile
    && a.projection == b.projection && CodeSet(a.codes) == CodeSet(b.codes)
  }

  /** Cited observations that claim the same place are the same evidence. */
  predicate PlacesAgree(c: Context, all: seq<Observation>, winners: seq<Winner>) {
    forall i, j, a, b ::
      (0 <= i < |winners| && 0 <= j < |winners| && a in all && b in all
       && CitedBy(c, all, winners[i], a) && CitedBy(c, all, winners[j], b) && Place(a) == Place(b))
      ==> SameEvidence(a, b)
  }

  // ---- What the links are -----------------------------------------------------------------

  lemma {:induction false} RejectsMeaning(c: Context, all: seq<Observation>, rows: seq<Observation>, raw: string,
                 r: Observation)
    ensures r in RejectsOf(c, all, rows, raw) <==> r in rows && Reliable(c, all, r) && r.raw == Some(raw)
  {
    hide Reliable;
    if rows != [] {
      var n := |rows| - 1;
      RejectsMeaning(c, all, rows[..n], raw, r);
      assert rows == rows[..n] + [rows[n]];
    }
  }

  lemma {:induction false} OwnLinksMeaning(c: Context, w: Winner, rejects: seq<Observation>)
    requires Located(c, w.row) && forall i :: 0 <= i < |rejects| ==> Located(c, rejects[i])
    ensures forall l :: l in OwnLinks(c, w, rejects) <==> exists i :: 0 <= i < |rejects| && LinkOf(c, w, rejects[i]) == l
    ensures Distinct(OwnLinks(c, w, rejects))
  {
    hide LinkOf;
    if rejects != [] {
      var n := |rejects| - 1;
      OwnLinksMeaning(c, w, rejects[..n]);
      forall l ensures l in OwnLinks(c, w, rejects) <==> exists i :: 0 <= i < |rejects| && LinkOf(c, w, rejects[i]) == l {
        assert forall i :: 0 <= i < n ==> rejects[..n][i] == rejects[i];
        if l in OwnLinks(c, w, rejects[..n]) {
          var i :| 0 <= i < n && LinkOf(c, w, rejects[..n][i]) == l;
          assert LinkOf(c, w, rejects[i]) == l;
        }
      }
    }
  }

  /** `l` is the link of some reject that the winner cites. */
  predicate LinkFrom(c: Context, all: seq<Observation>, w: Winner, r: Observation, l: Link) {
    CitedBy(c, all, w, r) && Located(c, w.row) && Located(c, r) && l == LinkOf(c, w, r)
  }

  lemma LinksForMeaning(c: Context, all: seq<Observation>, w: Winner, l: Link)
    requires AllLocated(c, all, w)
    ensures l in LinksFor(c, all, w) <==> exists r :: r in all && LinkFrom(c, all, w, r, l)
    ensures Distinct(LinksFor(c, all, w))
  {
    hide RejectsOf, OwnLinks, LinkOf, Reliable;
    var rejects := RejectsOf(c, all, all, w.row.raw.value);
    OwnLinksMeaning(c, w, rejects);
    if l in LinksFor(c, all, w) {
      var i :| 0 <= i < |rejects| && LinkOf(c, w, rejects[i]) == l;
      RejectsMeaning(c, all, all, w.row.raw.value, rejects[i]);
      assert LinkFrom(c, all, w, rejects[i], l);
    }
    if r :| r in all && LinkFrom(c, all, w, r, l) {
      RejectsMeaning(c, all, all, w.row.raw.value, r);
      var i :| 0 <= i < |rejects| && rejects[i] == r;
    }
  }

  lemma LinkKey(c: Context, all: seq<Observation>, w: Winner, l: Link)
    requires AllLocated(c, all, w) && l in LinksFor(c, all, w)
    ensures l.key == w.key
  {
    LinksForMeaning(c, all, w, l);
  }

  predicate Complete(c: Context, all: seq<Observation>, winners: seq<Winner>) {
    forall i :: 0 <= i < |winners| ==> AllLocated(c, all, winners[i])
  }

  predicate DistinctKeys(winners: seq<Winner>) {
    forall i, j :: 0 <= i < j < |winners| ==> winners[i].key != winners[j].key
  }

  lemma {:induction false} AllLinksMeaning(c: Context, all: seq<Observation>, winners: seq<Winner>, l: Link)
    requires Complete(c, all, winners)
    ensures l in AllLinks(c, all, winners) <==> exists i :: 0 <= i < |winners| && l in LinksFor(c, all, winners[i])
  {
    hide LinksFor;
    if winners != [] {
      var n := |winners| - 1;
      AllLinksMeaning(c, all, winners[..n], l);
      if l in AllLinks(c, all, winners[..n]) {
        var i :| 0 <= i < n && l in LinksFor(c, all, winners[..n][i]);
        assert winners[i] == winners[..n][i];
      }
      if i :| 0 <= i < n && l in LinksFor(c, all, winners[i]) {
        assert winners[..n][i] == winners[i];
      }
    }
  }

  lemma {:induction false} AllLinksDistinct(c: Context, all: seq<Observation>, winners: seq<Winner>)
    requires Complete(c, all, winners) && DistinctKeys(winners)
    ensures Distinct(AllLinks(c, all, winners))
  {
    hide LinksFor, AllLocated;
    if winners != [] {
      var n := |winners| - 1;
      var before, own := AllLinks(c, all, winners[..n]), LinksFor(c, all, winners[n]);
      AllLinksDistinct(c, all, winners[..n]);
      forall l | l in own ensures l !in before {
        LinkKey(c, all, winners[n], l);
        AllLinksMeaning(c, all, winners[..n], l);
        if i :| 0 <= i < n && l in LinksFor(c, all, winners[..n][i]) {
          LinkKey(c, all, winners[..n][i], l);
        }
      }
      if own != [] { LinksForMeaning(c, all, winners[n], own[0]); }
      DistinctConcat(before, own);
    }
  }

  lemma DistinctConcat<T>(a: seq<T>, b: seq<T>)
    requires Distinct(a) && Distinct(b) && forall x :: x in b ==> x !in a
    ensures Distinct(a + b)
  {
    forall i, j | 0 <= i < j < |a + b| ensures (a + b)[i] != (a + b)[j] {
      if i < |a| <= j { assert (a + b)[j] in b; }
    }
  }

  // ---- Counts -----------------------------------------------------------------------------

  lemma {:induction false} KeyCountConcat(a: seq<Link>, b: seq<Link>, key: string, relation: Relation)
    ensures KeyCount(StoredAll(a + b), key, relation) == KeyCount(StoredAll(a), key, relation) + KeyCount(StoredAll(b), key, relation)
  {
    if b == [] {
      assert a + b == a;
    } else {
      var n := |b| - 1;
      KeyCountConcat(a, b[..n], key, relation);
      assert StoredAll(a + b)[..|a| + n] == StoredAll(a + b[..n]);
      assert StoredAll(b)[..n] == StoredAll(b[..n]);
    }
  }

  lemma {:induction false} OwnKeyCount(links: seq<Link>, own: string, key: string, relation: Relation)
    requires forall l :: l in links ==> l.key == own
    ensures KeyCount(StoredAll(links), key, relation) == if key == own then CountOf(links, relation) else 0
  {
    if links != [] {
      var n := |links| - 1;
      OwnKeyCount(links[..n], own, key, relation);
      assert StoredAll(links)[..n] == StoredAll(links[..n]);
    }
  }

  /** The links of a key, by relation, are those of its winner. */
  lemma {:induction false} AllKeyCount(c: Context, all: seq<Observation>, winners: seq<Winner>, key: string,
                 relation: Relation)
    requires Complete(c, all, winners) && DistinctKeys(winners)
    ensures (forall i :: 0 <= i < |winners| ==> winners[i].key != key) ==>
        KeyCount(StoredAll(AllLinks(c, all, winners)), key, relation) == 0
    ensures forall i :: 0 <= i < |winners| && winners[i].key == key ==>
              KeyCount(StoredAll(AllLinks(c, all, winners)), key, relation) == CountOf(LinksFor(c, all, winners[i]), relation)
  {
    hide LinksFor, AllLocated, CountOf;
    if winners != [] {
      var n := |winners| - 1;
      var before, own := winners[..n], LinksFor(c, all, winners[n]);
      AllKeyCount(c, all, before, key, relation);
      forall l | l in own ensures l.key == winners[n].key { LinkKey(c, all, winners[n], l); }
      OwnKeyCount(own, winners[n].key, key, relation);
      KeyCountConcat(AllLinks(c, all, before), own, key, relation);
      assert forall i :: 0 <= i < n ==> before[i] == winners[i];
    }
  }

  lemma {:induction false} SummariesMeaning(c: Context, all: seq<Observation>, winners: seq<Winner>)
    requires Complete(c, all, winners)
    ensures |AllSummaries(c, all, winners)| == |winners|
    ensures forall i :: 0 <= i < |winners| ==> AllSummaries(c, all, winners)[i] == SummaryOf(c, winners[i], LinksFor(c, all, winners[i]))
  {
    hide LinksFor, SummaryOf, AllLocated;
    if winners != [] {
      var n := |winners| - 1;
      SummariesMeaning(c, all, winners[..n]);
      assert forall i :: 0 <= i < n ==> winners[..n][i] == winners[i];
    }
  }

  // ---- Rows -------------------------------------------------------------------------------

  lemma SummaryAccepted(c: Context, all: seq<Observation>, winners: seq<Winner>, i: nat)
    requires Inputs(c, all, winners) && i < |winners|
    ensures var s := SummaryOf(c, winners[i], LinksFor(c, all, winners[i]));
            SummaryOk(s) && s.scope == c.scope && s.version == c.version && s.key == winners[i].key
            && s.winner == LocatorOf(c, winners[i].row)
  {
    hide LinksFor, Usable, CleanPath, CountOf, Keyed;
  }

  lemma LinkAccepted(c: Context, all: seq<Observation>, winners: seq<Winner>, l: Link) returns (i: nat, r: Observation)
    requires Inputs(c, all, winners) && l in AllLinks(c, all, winners)
    ensures i < |winners| && r in all && LinkFrom(c, all, winners[i], r, l) && l in LinksFor(c, all, winners[i])
    ensures LinkOk(StoredLink(l, l)) && l.scope == c.scope && l.version == c.version && l.key == winners[i].key
    ensures l.winner == LocatorOf(c, winners[i].row) && l.rejected == LocatorOf(c, r)
  {
    hide LinksFor, AllLinks, Usable, CleanPath, Keyed, AllLocated;
    AllLinksMeaning(c, all, winners, l);
    i :| 0 <= i < |winners| && l in LinksFor(c, all, winners[i]);
    LinksForMeaning(c, all, winners[i], l);
    r :| r in all && LinkFrom(c, all, winners[i], r, l);
    assert Clean(r) && r.codes != [];
    assert r.codes[0] in CodeSet(r.codes);
  }

  // ---- Agreement --------------------------------------------------------------------------

  lemma LinkOfSame(c: Context, w: Winner, a: Observation, b: Observation)
    requires Located(c, w.row) && Located(c, a) && Located(c, b) && Place(a) == Place(b) && a.raw == b.raw
    ensures LinkOf(c, w, a) == LinkOf(c, w, b) <==> SameEvidence(a, b)
  {
  }

  lemma PlacesDistinct(c: Context, all: seq<Observation>, winners: seq<Winner>)
    requires Inputs(c, all, winners) && PlacesAgree(c, all, winners)
    ensures Distinct(Places(StoredAll(AllLinks(c, all, winners))))
  {
    hide LinksFor, Usable, CleanPath, AllLocated, LinkOf, LinkOk, AllLinks, Clean;
    var links := AllLinks(c, all, winners);
    assert DistinctKeys(winners);
    AllLinksDistinct(c, all, winners);
    forall x, y | 0 <= x < y < |links| ensures links[x].rejected.Place() != links[y].rejected.Place() {
      var i, a := LinkAccepted(c, all, winners, links[x]);
      var j, b := LinkAccepted(c, all, winners, links[y]);
      if Place(a) == Place(b) {
        assert SameEvidence(a, b);
        assert winners[i].key == winners[j].key;
        assert i == j;
        LinkOfSame(c, winners[i], a, b);
      }
    }
  }

  lemma PlacesClash(c: Context, all: seq<Observation>, winners: seq<Winner>)
    requires Inputs(c, all, winners) && Distinct(Places(StoredAll(AllLinks(c, all, winners))))
    ensures PlacesAgree(c, all, winners)
  {
    hide LinksFor, Usable, CleanPath, LinkOf, AllLinks, Clean, RejectsOf, Reliable;
    var links := AllLinks(c, all, winners);
    forall i, j, a, b | 0 <= i < |winners| && 0 <= j < |winners| && a in all && b in all
      && CitedBy(c, all, winners[i], a) && CitedBy(c, all, winners[j], b) && Place(a) == Place(b)
      ensures SameEvidence(a, b)
    {
      var x := CitedLinked(c, all, winners, i, a);
      var y := CitedLinked(c, all, winners, j, b);
      assert Places(StoredAll(links))[x] == Place(a) && Places(StoredAll(links))[y] == Place(b);
      assert x == y;
      SameLinkSameEvidence(c, winners[i], winners[j], a, b);
    }
  }

  lemma SameLinkSameEvidence(c: Context, w: Winner, v: Winner, a: Observation, b: Observation)
    requires Located(c, w.row) && Located(c, v.row) && Located(c, a) && Located(c, b) && LinkOf(c, w, a) == LinkOf(c, v, b)
    requires w.row.raw == a.raw && v.row.raw == b.raw && (w.key == v.key ==> w == v)
    ensures SameEvidence(a, b)
  {
  }

  lemma CitedLinked(c: Context, all: seq<Observation>, winners: seq<Winner>, i: nat, r: Observation) returns (x: nat)
    requires Inputs(c, all, winners) && i < |winners| && CitedBy(c, all, winners[i], r)
    ensures Located(c, winners[i].row) && Located(c, r)
    ensures x < |AllLinks(c, all, winners)| && AllLinks(c, all, winners)[x] == LinkOf(c, winners[i], r)
    ensures AllLinks(c, all, winners)[x].rejected.Place() == Place(r)
  {
    hide LinksFor, Usable, CleanPath, AllLinks, Clean, RejectsOf, Reliable;
    var w := winners[i];
    var rejects := RejectsOf(c, all, all, w.row.raw.value);
    RejectsMeaning(c, all, all, w.row.raw.value, r);
    var k :| 0 <= k < |rejects| && rejects[k] == r;
    assert Located(c, rejects[k]);
    var l := LinkOf(c, w, r);
    assert LinkFrom(c, all, w, r, l);
    LinksForMeaning(c, all, w, l);
    AllLinksMeaning(c, all, winners, l);
    x :| 0 <= x < |AllLinks(c, all, winners)| && AllLinks(c, all, winners)[x] == l;
  }

  /**
   * Producer and validator agree: what the producer writes for any observations and winners passes
   * the validator exactly when cited observations at the same place are the same evidence.
   */
  lemma ProducerAccepted(c: Context, all: seq<Observation>, winners: seq<Winner>)
    requires Inputs(c, all, winners)
    ensures ValidSet(AllSummaries(c, all, winners), StoredAll(AllLinks(c, all, winners)), c.scope, c.version,
                     set i | 0 <= i < |winners| :: winners[i].key)
            <==> PlacesAgree(c, all, winners)
  {
    hide SummaryOk, LinkOk, LinksFor, AllLinks, AllSummaries, SummaryOf, Counted, RefersTo, PlacesAgree, Clean, Usable,
        AllLocated, Places;
    var summaries, links := AllSummaries(c, all, winners), AllLinks(c, all, winners);
    SummariesMeaning(c, all, winners);
    SummaryRows(c, all, winners);
    LinkRows(c, all, winners);
    assert DistinctKeys(winners);
    AllLinksDistinct(c, all, winners);
    assert Ids(StoredAll(links)) == links;
    forall i | 0 <= i < |summaries| ensures Counted(StoredAll(links), summaries[i]) {
      SummaryCounted(c, all, winners, i);
    }
    if PlacesAgree(c, all, winners) { PlacesDistinct(c, all, winners); }
    if Distinct(Places(StoredAll(links))) { PlacesClash(c, all, winners); }
  }

  lemma SummaryRows(c: Context, all: seq<Observation>, winners: seq<Winner>)
    requires Inputs(c, all, winners)
    ensures var summaries := AllSummaries(c, all, winners);
            && (forall i :: 0 <= i < |summaries| ==> SummaryOk(summaries[i]) && summaries[i].scope == c.scope && summaries[i].version == c.version)
            && Distinct(SummaryKeys(summaries))
            && (set k | k in SummaryKeys(summaries)) == set i | 0 <= i < |winners| :: winners[i].key
  {
    hide SummaryOk, LinksFor, AllSummaries, SummaryOf, Clean, Usable, AllLocated;
    var summaries := AllSummaries(c, all, winners);
    SummariesMeaning(c, all, winners);
    forall i | 0 <= i < |winners|
      ensures SummaryOk(summaries[i]) && summaries[i].scope == c.scope && summaries[i].version == c.version && summaries[i].key == winners[i].key
    {
      SummaryAccepted(c, all, winners, i);
    }
    var keys := set i | 0 <= i < |winners| :: winners[i].key;
    forall k ensures k in SummaryKeys(summaries) <==> k in keys {
      if k in SummaryKeys(summaries) { var i :| 0 <= i < |summaries| && SummaryKeys(summaries)[i] == k; }
      if k in keys { var i :| 0 <= i < |winners| && winners[i].key == k; assert SummaryKeys(summaries)[i] == k; }
    }
  }

  lemma LinkRows(c: Context, all: seq<Observation>, winners: seq<Winner>)
    requires Inputs(c, all, winners)
    ensures var links := StoredAll(AllLinks(c, all, winners));
            && (forall i :: 0 <= i < |links| ==> LinkOk(links[i]) && links[i].link.scope == c.scope && links[i].link.version == c.version)
            && forall i :: 0 <= i < |links| ==> RefersTo(AllSummaries(c, all, winners), links[i].link)
  {
    hide SummaryOk, LinkOk, LinksFor, AllLinks, AllSummaries, SummaryOf, Clean, Usable, AllLocated;
    var all0 := AllLinks(c, all, winners);
    SummariesMeaning(c, all, winners);
    forall x | 0 <= x < |all0|
      ensures LinkOk(StoredLink(all0[x], all0[x])) && all0[x].scope == c.scope && all0[x].version == c.version
      ensures RefersTo(AllSummaries(c, all, winners), all0[x])
    {
      var i, r := LinkAccepted(c, all, winners, all0[x]);
      SummaryAccepted(c, all, winners, i);
      assert AllSummaries(c, all, winners)[i].key == all0[x].key;
    }
  }

  lemma SummaryCounted(c: Context, all: seq<Observation>, winners: seq<Winner>, i: nat)
    requires Inputs(c, all, winners) && i < |winners| == |AllSummaries(c, all, winners)|
    requires AllSummaries(c, all, winners)[i] == SummaryOf(c, winners[i], LinksFor(c, all, winners[i]))
    ensures Counted(StoredAll(AllLinks(c, all, winners)), AllSummaries(c, all, winners)[i])
  {
    hide LinksFor, AllLinks, AllSummaries, Clean, Usable, AllLocated, CountOf, KeyCount, StoredAll;
    assert DistinctKeys(winners);
    AllKeyCount(c, all, winners, winners[i].key, LaterThan);
    AllKeyCount(c, all, winners, winners[i].key, EqualTo);
  }

  // ---- Attribution ------------------------------------------------------------------------

  /** A source observation is at one place only. */
  predicate UniquePlaces(rows: seq<Observation>) {
    forall i, j :: 0 <= i < j < |rows| ==> Place(rows[i]) != Place(rows[j])
  }

  lemma UniquePlacesAgree(c: Context, all: seq<Observation>, winners: seq<Winner>)
    requires UniquePlaces(all)
    ensures PlacesAgree(c, all, winners)
  {
    hide CitedBy;
  }

  predicate Cited(c: Context, all: seq<Observation>, winners: seq<Winner>, row: Observation) {
    exists i :: 0 <= i < |winners| && CitedBy(c, all, winners[i], row)
  }

  function CitedCount(c: Context, all: seq<Observation>, winners: seq<Winner>, rows: seq<Observation>): nat {
    if rows == [] then 0
    else
      var n := |rows| - 1;
      CitedCount(c, all, winners, rows[..n]) + if Cited(c, all, winners, rows[n]) then 1 else 0
  }

  function RejectedCount(rows: seq<Observation>): nat {
    if rows == [] then 0 else RejectedCount(rows[..|rows| - 1]) + if rows[|rows| - 1].codes != [] then 1 else 0
  }

  lemma {:induction false} RejectsUnique(c: Context, all: seq<Observation>, rows: seq<Observation>, raw: string)
    requires UniquePlaces(rows)
    ensures UniquePlaces(RejectsOf(c, all, rows, raw))
  {
    hide Reliable;
    if rows != [] {
      var n := |rows| - 1;
      RejectsUnique(c, all, rows[..n], raw);
      forall r | r in RejectsOf(c, all, rows[..n], raw) ensures Place(r) != Place(rows[n]) {
        RejectsMeaning(c, all, rows[..n], raw, r);
        var i :| 0 <= i < n && rows[i] == r;
      }
    }
  }

  lemma {:induction false} NothingCoalesced(c: Context, w: Winner, rejects: seq<Observation>)
    requires Located(c, w.row) && forall i :: 0 <= i < |rejects| ==> Located(c, rejects[i])
    requires UniquePlaces(rejects)
    ensures |OwnLinks(c, w, rejects)| == |rejects|
  {
    if rejects != [] {
      var n := |rejects| - 1;
      NothingCoalesced(c, w, rejects[..n]);
      OwnLinksMeaning(c, w, rejects[..n]);
      forall i | 0 <= i < n ensures LinkOf(c, w, rejects[..n][i]) != LinkOf(c, w, rejects[n]) {
        assert Place(rejects[i]) != Place(rejects[n]);
      }
    }
  }

  /** One more winner cites exactly the reliable rejects of its own identity. */
  lemma {:induction false} CitedByOneMore(c: Context, all: seq<Observation>, winners: seq<Winner>, rows: seq<Observation>)
    requires winners != [] && Keyed(c, winners) && forall r :: r in rows ==> r in all
    ensures CitedCount(c, all, winners, rows) ==
            CitedCount(c, all, winners[..|winners| - 1], rows) + |RejectsOf(c, all, rows, winners[|winners| - 1].row.raw.value)|
  {
    hide Reliable;
    if rows != [] {
      var n, m := |rows| - 1, |winners| - 1;
      assert forall r :: r in rows[..n] ==> r in rows;
      CitedByOneMore(c, all, winners, rows[..n]);
      var before := winners[..m];
      assert forall i :: 0 <= i < m ==> before[i] == winners[i];
      assert rows[n] in rows;
      if CitedBy(c, all, winners[m], rows[n]) {
        forall i | 0 <= i < m ensures !CitedBy(c, all, before[i], rows[n]) {
          assert winners[i].key != winners[m].key;
        }
      } else if Cited(c, all, winners, rows[n]) {
        var i :| 0 <= i < |winners| && CitedBy(c, all, winners[i], rows[n]);
        assert CitedBy(c, all, before[i], rows[n]);
      }
    }
  }

  lemma {:induction false} LinksCount(c: Context, all: seq<Observation>, winners: seq<Winner>)
    requires Complete(c, all, winners) && Keyed(c, winners) && UniquePlaces(all)
    ensures |AllLinks(c, all, winners)| == CitedCount(c, all, winners, all)
  {
    if winners == [] {
      NoneCited(c, all, all);
    } else {
      var n := |winners| - 1;
      assert forall i :: 0 <= i < n ==> winners[..n][i] == winners[i];
      LinksCount(c, all, winners[..n]);
      CitedByOneMore(c, all, winners, all);
      RejectsUnique(c, all, all, winners[n].row.raw.value);
      NothingCoalesced(c, winners[n], RejectsOf(c, all, all, winners[n].row.raw.value));
    }
  }

  lemma {:induction false} NoneCited(c: Context, all: seq<Observation>, rows: seq<Observation>)
    ensures CitedCount(c, all, [], rows) == 0
  {
    if rows != [] { NoneCited(c, all, rows[..|rows| - 1]); }
  }

  lemma {:induction false} CitedAreRejected(c: Context, all: seq<Observation>, winners: seq<Winner>, rows: seq<Observation>)
    ensures CitedCount(c, all, winners, rows) <= RejectedCount(rows)
  {
    if rows != [] { CitedAreRejected(c, all, winners, rows[..|rows| - 1]); }
  }

  /** The places of the rejected rows that links name. */
  function Locations(links: seq<Link>): set<(string, string, int)> { set l | l in links :: l.rejected.Place() }

  /** The unattributable rejects as the producer counts them: rejected rows less the places that links name. */
  function Unattributable(all: seq<Observation>, links: seq<Link>): int { RejectedCount(all) - |Locations(links)| }

  /** There are as many places as links exactly when no two links name one place. */
  lemma {:induction false} LocationsCount(links: seq<Link>)
    ensures |Locations(links)| <= |links|
    ensures |Locations(links)| == |links| <==> Distinct(Places(StoredAll(links)))
  {
    if links != [] {
      var n := |links| - 1;
      var before, place := links[..n], links[n].rejected.Place();
      LocationsCount(before);
      assert links == before + [links[n]];
      assert Locations(links) == Locations(before) + {place};
      PlacesSnoc(before, links[n]);
    }
  }

  lemma PlacesSnoc(links: seq<Link>, l: Link)
    ensures Distinct(Places(StoredAll(links + [l]))) <==>
            Distinct(Places(StoredAll(links))) && l.rejected.Place() !in Locations(links)
  {
    var before, after := Places(StoredAll(links)), Places(StoredAll(links + [l]));
    assert after == before + [l.rejected.Place()];
    if Distinct(after) {
      forall i, j | 0 <= i < j < |before| ensures before[i] != before[j] {
        assert after[i] == before[i] && after[j] == before[j];
      }
      forall k | k in links ensures k.rejected.Place() != l.rejected.Place() {
        var i :| 0 <= i < |links| && links[i] == k;
        assert after[i] != after[|links|];
      }
    }
    if Distinct(before) && l.rejected.Place() !in Locations(links) {
      forall i, j | 0 <= i < j < |after| ensures after[i] != after[j] {
        if j < |links| {
          assert before[i] != before[j];
        } else {
          assert links[i] in links;
        }
      }
    }
  }

  /**
   * The unattributable rejects of the producer are those the bundle check expects, rejected rows less
   * links, exactly when its links are acceptable at all: when cited observations at one place are the
   * same evidence.
   */
  lemma UnattributableAgrees(c: Context, all: seq<Observation>, winners: seq<Winner>)
    requires Inputs(c, all, winners)
    ensures Unattributable(all, AllLinks(c, all, winners)) == RejectedCount(all) - |AllLinks(c, all, winners)|
            <==> PlacesAgree(c, all, winners)
  {
    hide PlacesAgree, Locations, AllLinks, RejectedCount, Places;
    LocationsCount(AllLinks(c, all, winners));
    if PlacesAgree(c, all, winners) { PlacesDistinct(c, all, winners); }
    if Distinct(Places(StoredAll(AllLinks(c, all, winners)))) { PlacesClash(c, all, winners); }
  }

  /**
   * With one observation per place, the evidence always passes, every reject of a selected identity
   * has exactly one link, and the links with the unattributable rejects are all rejected rows.
   */
  lemma EvidenceReconciles(c: Context, all: seq<Observation>, winners: seq<Winner>)
    requires Inputs(c, all, winners) && UniquePlaces(all)
    ensures ValidSet(AllSummaries(c, all, winners), StoredAll(AllLinks(c, all, winners)), c.scope, c.version,
                     set i | 0 <= i < |winners| :: winners[i].key)
    ensures |AllLinks(c, all, winners)| == CitedCount(c, all, winners, all)
    ensures |AllLinks(c, all, winners)| + Unattributable(all, AllLinks(c, all, winners)) == RejectedCount(all)
    ensures 0 <= Unattributable(all, AllLinks(c, all, winners))
  {
    hide ValidSet, PlacesAgree, Unattributable;
    UniquePlacesAgree(c, all, winners);
    ProducerAccepted(c, all, winners);
    UnattributableAgrees(c, all, winners);
    LinksCount(c, all, winners);
    CitedAreRejected(c, all, winners, all);
  }
}

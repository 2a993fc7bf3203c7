/**
 * Rejection evidence: the producer that links rejected observations to the selected rows, and the
 * independent validator of summaries and links.
 *
 * A link identity is the digest of the link's other fields and is modelled by those fields; a
 * contract key is the digest of a normalised identity and is modelled by that identity. Instants
 * are microseconds. `normalize` stands for the source's text normalisation; "" means nothing is left.
 */
module SilverConditions {
  import opened Wrappers
  import opened Text

  // ---- Records ----------------------------------------------------------------------------

  /** A Bronze observation with its identity as received and the codes of its rejection details. */
  datatype Observation = Observation(raw: Option<string>, payload: string, run: string, page: string, ordinal: int,
                                     at: int, profile: string, projection: string, codes: seq<string>)

  /** A selected row. */
  datatype Winner = Winner(key: string, row: Observation)

  datatype Locator = Locator(payload: string, run: string, page: string, pageDigest: string, ordinal: int, at: int,
                             profile: string, projection: string)
  {
    function Place(): (string, string, int) { (run, page, ordinal) }
  }

  datatype Relation = LaterThan | EqualTo | EarlierThan

  datatype Link = Link(scope: string, version: string, key: string, relation: Relation, winner: Locator,
                       rejected: Locator, validation: string, codes: set<string>)

  /** A stored link with the identity it claims. */
  datatype StoredLink = StoredLink(link: Link, id: Link)

  datatype State = LaterInvalid | Indeterminate | NoLaterInvalid | LegacyUnassessed

  datatype Summary = Summary(scope: string, version: string, key: string, state: State, winner: Locator,
                             validation: string, later: int, equal: int)

  /** What a publication passes to the producer; `pages` gives the hash of every page of every run. */
  datatype Context = Context(scope: string, version: string, validation: string, pages: map<(string, string), string>,
                             normalize: string -> string)

  // ---- The producer -----------------------------------------------------------------------

  /** The forms in which observations spell one normalised identity. */
  function Spellings(c: Context, all: seq<Observation>, normalized: string): set<string> {
    set i | 0 <= i < |all| && all[i].raw.Some? && c.normalize(all[i].raw.value) == normalized :: all[i].raw.value
  }

  /** A rejected observation whose identity can be relied on. */
  predicate Reliable(c: Context, all: seq<Observation>, row: Observation) {
    && row.raw.Some? && c.normalize(row.raw.value) != "" && row.codes != []
    && |Spellings(c, all, c.normalize(row.raw.value))| == 1
  }

  /** The reliable rejects among `rows` that carry an identity, in order. */
  function RejectsOf(c: Context, all: seq<Observation>, rows: seq<Observation>, raw: string): seq<Observation> {
    if rows == [] then []
    else
      var n := |rows| - 1;
      RejectsOf(c, all, rows[..n], raw)
      + if Reliable(c, all, rows[n]) && rows[n].raw == Some(raw) then [rows[n]] else []
  }

  predicate Located(c: Context, row: Observation) { (row.run, row.page) in c.pages }

  function LocatorOf(c: Context, row: Observation): Locator
    requires Located(c, row)
  {
    Locator(row.payload, row.run, row.page, c.pages[(row.run, row.page)], row.ordinal, row.at, row.profile, row.projection)
  }

  function RelationOf(rejected: int, winner: int): Relation {
    if rejected > winner then LaterThan else if rejected == winner then EqualTo else EarlierThan
  }

  function CodeSet(codes: seq<string>): set<string> { set x | x in codes }

  function LinkOf(c: Context, w: Winner, reject: Observation): Link
    requires Located(c, w.row) && Located(c, reject)
  {
    Link(c.scope, c.version, w.key, RelationOf(reject.at, w.row.at), LocatorOf(c, w.row), LocatorOf(c, reject),
         c.validation, CodeSet(reject.codes))
  }

  /** One link per distinct link identity. */
  function OwnLinks(c: Context, w: Winner, rejects: seq<Observation>): seq<Link>
    requires Located(c, w.row) && forall i :: 0 <= i < |rejects| ==> Located(c, rejects[i])
  {
    if rejects == [] then []
    else
      var n := |rejects| - 1;
      var before, link := OwnLinks(c, w, rejects[..n]), LinkOf(c, w, rejects[n]);
      if link in before then before else before + [link]
  }

  function CountOf(links: seq<Link>, relation: Relation): nat {
    if links == [] then 0
    else CountOf(links[..|links| - 1], relation) + if links[|links| - 1].relation == relation then 1 else 0
  }

  function StateOf(later: int, equal: int): State {
    if later != 0 then LaterInvalid else if equal != 0 then Indeterminate else NoLaterInvalid
  }

  function SummaryOf(c: Context, w: Winner, own: seq<Link>): Summary
    requires Located(c, w.row)
  {
    var later, equal := CountOf(own, LaterThan), CountOf(own, EqualTo);
    Summary(c.scope, c.version, w.key, StateOf(later, equal), LocatorOf(c, w.row), c.validation, later, equal)
  }

  function StoredAll(links: seq<Link>): seq<StoredLink> {
    seq(|links|, i requires 0 <= i < |links| => StoredLink(links[i], links[i]))
  }

  /** Every page that a winner or one of its links refers to is known. */
  predicate AllLocated(c: Context, all: seq<Observation>, w: Winner) {
    && Located(c, w.row) && w.row.raw.Some?
    && forall i :: 0 <= i < |RejectsOf(c, all, all, w.row.raw.value)| ==>
        Located(c, RejectsOf(c, all, all, w.row.raw.value)[i])
  }

  function LinksFor(c: Context, all: seq<Observation>, w: Winner): seq<Link>
    requires AllLocated(c, all, w)
  {
    OwnLinks(c, w, RejectsOf(c, all, all, w.row.raw.value))
  }

  function AllLinks(c: Context, all: seq<Observation>, winners: seq<Winner>): seq<Link>
    requires forall i :: 0 <= i < |winners| ==> AllLocated(c, all, winners[i])
  {
    if winners == [] then []
    else AllLinks(c, all, winners[..|winners| - 1]) + LinksFor(c, all, winners[|winners| - 1])
  }

  function AllSummaries(c: Context, all: seq<Observation>, winners: seq<Winner>): seq<Summary>
    requires forall i :: 0 <= i < |winners| ==> AllLocated(c, all, winners[i])
  {
    if winners == [] then []
    else AllSummaries(c, all, winners[..|winners| - 1])
         + [SummaryOf(c, winners[|winners| - 1], LinksFor(c, all, winners[|winners| - 1]))]
  }

  /** Collects the spellings of every identity. */
  method CollectSpellings(c: Context, all: seq<Observation>) returns (identities: map<string, set<string>>)
    ensures forall k :: k in identities ==> identities[k] == Spellings(c, all, k)
    ensures forall i :: 0 <= i < |all| && all[i].raw.Some? && c.normalize(all[i].raw.value) != "" ==>
        c.normalize(all[i].raw.value) in identities
  {
    identities := map[];
    for i := 0 to |all|
      invariant "" !in identities && forall k :: k in identities ==> identities[k] == Spellings(c, all[..i], k)
      invariant forall k :: k !in identities && k != "" ==> Spellings(c, all[..i], k) == {}
    {
      var row := all[i];
      assert all[..i + 1] == all[..i] + [row];
      forall k ensures Spellings(c, all[..i + 1], k) == Spellings(c, all[..i], k) +
                         if row.raw.Some? && c.normalize(row.raw.value) == k then {row.raw.value} else {}
      {
        SpellingsSnoc(c, all[..i], row, k);
      }
      if row.raw.Some? && c.normalize(row.raw.value) != "" {
        var k := c.normalize(row.raw.value);
        identities := identities[k := (if k in identities then identities[k] else {}) + {row.raw.value}];
      }
    }
    assert all[..|all|] == all;
    forall i | 0 <= i < |all| && all[i].raw.Some? && c.normalize(all[i].raw.value) != ""
      ensures c.normalize(all[i].raw.value) in identities
    {
      assert all[i].raw.value in Spellings(c, all, c.normalize(all[i].raw.value));
    }
  }

  lemma SpellingsSnoc(c: Context, rows: seq<Observation>, row: Observation, k: string)
    ensures Spellings(c, rows + [row], k) ==
            Spellings(c, rows, k) + if row.raw.Some? && c.normalize(row.raw.value) == k then {row.raw.value} else {}
  {
    var all := rows + [row];
    assert forall i :: 0 <= i < |rows| ==> all[i] == rows[i];
    assert all[|rows|] == row;
    forall x | x in Spellings(c, rows, k) ensures x in Spellings(c, all, k) {
      var i :| 0 <= i < |rows| && rows[i].raw.Some? && c.normalize(rows[i].raw.value) == k && rows[i].raw.value == x;
      assert all[i].raw.value == x;
    }
  }

  /** Groups the reliable rejects by identity as received. */
  method CollectRejects(c: Context, all: seq<Observation>) returns (rejected: map<string, seq<Observation>>)
    ensures forall raw :: RejectsOf(c, all, all, raw) == if raw in rejected then rejected[raw] else []
  {
    hide Spellings, Reliable;
    var identities := CollectSpellings(c, all);
    rejected := map[];
    for i := 0 to |all|
      invariant forall raw :: RejectsOf(c, all, all[..i], raw) == if raw in rejected then rejected[raw] else []
    {
      var row := all[i];
      var normalized := if row.raw.Some? then c.normalize(row.raw.value) else "";
      var reliable := normalized != "" && |identities[normalized]| == 1 && row.codes != [];
      ReliableIs(c, all, row);
      RejectsSnoc(c, all, i);
      if reliable {
        var raw := row.raw.value;
        rejected := rejected[raw := (if raw in rejected then rejected[raw] else []) + [row]];
      }
    }
    assert all[..|all|] == all;
  }

  lemma ReliableIs(c: Context, all: seq<Observation>, row: Observation)
    ensures Reliable(c, all, row) <==>
            && row.raw.Some? && c.normalize(row.raw.value) != ""
            && |Spellings(c, all, c.normalize(row.raw.value))| == 1 && row.codes != []
  {
  }

  lemma RejectsSnoc(c: Context, all: seq<Observation>, i: nat)
    requires i < |all|
    ensures forall raw :: RejectsOf(c, all, all[..i + 1], raw) ==
                          RejectsOf(c, all, all[..i], raw) + if Reliable(c, all, all[i]) && all[i].raw == Some(raw) then [all[i]] else []
  {
    assert all[..i + 1][..i] == all[..i];
  }

  method LinkWinner(c: Context, w: Winner, rejects: seq<Observation>) returns (own: seq<Link>)
    requires Located(c, w.row) && forall i :: 0 <= i < |rejects| ==> Located(c, rejects[i])
    ensures own == OwnLinks(c, w, rejects)
  {
    own := [];
    for i := 0 to |rejects|
      invariant own == OwnLinks(c, w, rejects[..i])
    {
      assert rejects[..i + 1][..i] == rejects[..i];
      var item := LinkOf(c, w, rejects[i]);
      if item !in own { own := own + [item]; }
    }
    assert rejects[..|rejects|] == rejects;
  }

  /** The evidence for a set of winners; None when a page that it has to cite is unknown. */
  method ObservationConditions(c: Context, all: seq<Observation>, winners: seq<Winner>)
    returns (evidence: Option<(seq<Summary>, seq<StoredLink>)>)
    requires forall i :: 0 <= i < |winners| ==> winners[i].row.raw.Some?
    ensures evidence.Some? <==> forall i :: 0 <= i < |winners| ==> AllLocated(c, all, winners[i])
    ensures evidence.Some? ==>
              evidence.value == (AllSummaries(c, all, winners), StoredAll(AllLinks(c, all, winners)))
  {
    hide RejectsOf, OwnLinks, SummaryOf;
    var rejected := CollectRejects(c, all);
    var summaries: seq<Summary> := [];
    var links: seq<Link> := [];
    for i := 0 to |winners|
      invariant forall k :: 0 <= k < i ==> AllLocated(c, all, winners[k])
      invariant summaries == AllSummaries(c, all, winners[..i]) && links == AllLinks(c, all, winners[..i])
    {
      var w := winners[i];
      assert winners[..i + 1][..i] == winners[..i];
      var raw := w.row.raw.value;
      var rejects := if raw in rejected then rejected[raw] else [];
      if !Located(c, w.row) || exists k :: 0 <= k < |rejects| && !Located(c, rejects[k]) {
        assert !AllLocated(c, all, winners[i]);
        return None;
      }
      var own := LinkWinner(c, w, rejects);
      summaries := summaries + [SummaryOf(c, w, own)];
      links := links + own;
    }
    assert winners[..|winners|] == winners;
    evidence := Some((summaries, StoredAll(links)));
  }

  // ---- The validator ----------------------------------------------------------------------

  function Segments(p: string): (r: seq<string>)
    ensures |r| > 0
  {
    if p == "" then [""]
    else
      var rest := Segments(p[1..]);
      if p[0] == '/' then [""] + rest else [[p[0]] + rest[0]] + rest[1..]
  }

  /** A canonical relative path that stays inside its directory. */
  predicate CleanPath(p: string) {
    && Usable(p) && '\\' !in p
    && (p == "." || forall s :: s in Segments(p) ==> s != "" && s != "." && s != "..")
  }

  predicate LocatorOk(l: Locator) { Usable(l.run) && Usable(l.projection) && CleanPath(l.page) && l.ordinal >= 0 }

  predicate SummaryOk(s: Summary) {
    && Usable(s.version) && Usable(s.validation) && LocatorOk(s.winner)
    && s.later >= 0 && s.equal >= 0
    && if s.state == LegacyUnassessed then s.later == 0 && s.equal == 0 else s.state == StateOf(s.later, s.equal)
  }

  predicate LinkOk(stored: StoredLink) {
    var l := stored.link;
    && Usable(l.version) && Usable(l.validation) && LocatorOk(l.winner) && LocatorOk(l.rejected)
    && l.codes != {} && (forall x :: x in l.codes ==> Usable(x))
    && l.relation == RelationOf(l.rejected.at, l.winner.at)
    && stored.id == l
  }

  predicate Distinct<T(==)>(s: seq<T>) { forall i, j :: 0 <= i < j < |s| ==> s[i] != s[j] }

  function KeyCount(links: seq<StoredLink>, key: string, relation: Relation): nat {
    if links == [] then 0
    else
      var n := |links| - 1;
      KeyCount(links[..n], key, relation) + if links[n].link.key == key && links[n].link.relation == relation then 1 else 0
  }

  function SummaryKeys(summaries: seq<Summary>): seq<string> {
    seq(|summaries|, i requires 0 <= i < |summaries| => summaries[i].key)
  }

  function Ids(links: seq<StoredLink>): seq<Link> { seq(|links|, i requires 0 <= i < |links| => links[i].id) }

  function Places(links: seq<StoredLink>): seq<(string, string, int)> {
    seq(|links|, i requires 0 <= i < |links| => links[i].link.rejected.Place())
  }

  /** A link refers to the winner that the summary of its key names. */
  predicate RefersTo(summaries: seq<Summary>, l: Link) {
    exists i :: 0 <= i < |summaries| && summaries[i].key == l.key && summaries[i].winner == l.winner
  }

  predicate Counted(links: seq<StoredLink>, s: Summary) {
    && s.later == KeyCount(links, s.key, LaterThan) && s.equal == KeyCount(links, s.key, EqualTo)
    && (s.state == LegacyUnassessed ==> KeyCount(links, s.key, EarlierThan) == 0)
  }

  /** What the validator demands of a whole set of evidence. */
  predicate ValidSet(summaries: seq<Summary>, links: seq<StoredLink>, scope: string, version: string, keys: set<string>) {
    && (forall i :: 0 <= i < |summaries| ==> SummaryOk(summaries[i]) && summaries[i].scope == scope && summaries[i].version == version)
    && (forall i :: 0 <= i < |links| ==> LinkOk(links[i]) && links[i].link.scope == scope && links[i].link.version == version)
    && Distinct(SummaryKeys(summaries)) && (set k | k in SummaryKeys(summaries)) == keys
    && Distinct(Ids(links)) && Distinct(Places(links))
    && (forall i :: 0 <= i < |links| ==> RefersTo(summaries, links[i].link))
    && (forall i :: 0 <= i < |summaries| ==> Counted(links, summaries[i]))
  }

  /** The validator as the source runs it. */
  method ValidateConditionSet(summaries: seq<Summary>, links: seq<StoredLink>, scope: string, version: string, keys: set<string>)
    returns (ok: bool)
    ensures ok <==> ValidSet(summaries, links, scope, version, keys)
  {
    hide SummaryOk, LinkOk, Counted, RefersTo;
    ok := ValidateRows(summaries, links, scope, version);
    if !ok { return; }
    var byKey: map<string, Summary>;
    ok, byKey := IndexSummaries(summaries, keys);
    if !ok { return; }
    ok := ValidateLinks(summaries, links, byKey);
    if !ok { return; }
    for i := 0 to |summaries|
      invariant forall k :: 0 <= k < i ==> Counted(links, summaries[k])
    {
      if !Counted(links, summaries[i]) { return false; }
    }
  }

  method ValidateRows(summaries: seq<Summary>, links: seq<StoredLink>, scope: string, version: string) returns (ok: bool)
    ensures ok <==>
      && (forall i :: 0 <= i < |summaries| ==> SummaryOk(summaries[i]) && summaries[i].scope == scope && summaries[i].version == version)
      && (forall i :: 0 <= i < |links| ==> LinkOk(links[i]) && links[i].link.scope == scope && links[i].link.version == version)
  {
    hide SummaryOk, LinkOk;
    for i := 0 to |summaries|
      invariant forall k :: 0 <= k < i ==> SummaryOk(summaries[k]) && summaries[k].scope == scope && summaries[k].version == version
    {
      if !SummaryOk(summaries[i]) || summaries[i].scope != scope || summaries[i].version != version { return false; }
    }
    for i := 0 to |links|
      invariant forall k :: 0 <= k < i ==> LinkOk(links[k]) && links[k].link.scope == scope && links[k].link.version == version
    {
      if !LinkOk(links[i]) || links[i].link.scope != scope || links[i].link.version != version { return false; }
    }
    return true;
  }

  /** The summaries by contract key, when every key has exactly one. */
  method IndexSummaries(summaries: seq<Summary>, keys: set<string>) returns (ok: bool, byKey: map<string, Summary>)
    ensures ok <==> Distinct(SummaryKeys(summaries)) && (set k | k in SummaryKeys(summaries)) == keys
    ensures ok ==> forall k :: k in byKey <==> exists i :: 0 <= i < |summaries| && summaries[i].key == k
    ensures ok ==> forall i :: 0 <= i < |summaries| ==> summaries[i].key in byKey && byKey[summaries[i].key] == summaries[i]
  {
    byKey := map[];
    for i := 0 to |summaries|
      invariant Distinct(SummaryKeys(summaries[..i]))
      invariant forall k :: k in byKey <==> exists j :: 0 <= j < i && summaries[j].key == k
      invariant forall j :: 0 <= j < i ==> summaries[j].key in byKey && byKey[summaries[j].key] == summaries[j]
    {
      if summaries[i].key in byKey {
        var j :| 0 <= j < i && summaries[j].key == summaries[i].key;
        assert SummaryKeys(summaries)[j] == SummaryKeys(summaries)[i];
        return false, byKey;
      }
      assert SummaryKeys(summaries[..i + 1]) == SummaryKeys(summaries[..i]) + [summaries[i].key];
      byKey := byKey[summaries[i].key := summaries[i]];
    }
    assert summaries[..|summaries|] == summaries;
    forall k ensures k in byKey.Keys <==> k in SummaryKeys(summaries) {
      if k in SummaryKeys(summaries) { var i :| 0 <= i < |summaries| && SummaryKeys(summaries)[i] == k; }
      if k in byKey { var i :| 0 <= i < |summaries| && summaries[i].key == k; assert SummaryKeys(summaries)[i] == k; }
    }
    ok := byKey.Keys == keys;
    assert byKey.Keys == set k | k in SummaryKeys(summaries);
  }

  method ValidateLinks(summaries: seq<Summary>, links: seq<StoredLink>, byKey: map<string, Summary>) returns (ok: bool)
    requires forall k :: k in byKey <==> exists i :: 0 <= i < |summaries| && summaries[i].key == k
    requires forall i :: 0 <= i < |summaries| ==> summaries[i].key in byKey && byKey[summaries[i].key] == summaries[i]
    ensures ok <==> Distinct(Ids(links)) && Distinct(Places(links)) && forall i :: 0 <= i < |links| ==>
        RefersTo(summaries, links[i].link)
  {
    hide RefersTo, Distinct;
    var ids: set<Link>, places: set<(string, string, int)> := {}, {};
    for i := 0 to |links|
      invariant ids == set k | 0 <= k < i :: links[k].id
      invariant places == set k | 0 <= k < i :: links[k].link.rejected.Place()
      invariant forall j, k :: 0 <= j < k < i ==> links[j].id != links[k].id
      invariant forall j, k :: 0 <= j < k < i ==> links[j].link.rejected.Place() != links[k].link.rejected.Place()
      invariant forall k :: 0 <= k < i ==> RefersTo(summaries, links[k].link)
    {
      var row := links[i];
      if row.id in ids {
        var k :| 0 <= k < i && links[k].id == row.id;
        assert Ids(links)[k] == Ids(links)[i];
        Repeats(Ids(links), k, i);
        return false;
      }
      ids := ids + {row.id};
      if row.link.rejected.Place() in places {
        var k :| 0 <= k < i && links[k].link.rejected.Place() == row.link.rejected.Place();
        assert Places(links)[k] == Places(links)[i];
        Repeats(Places(links), k, i);
        return false;
      }
      places := places + {row.link.rejected.Place()};
      RefersByKey(summaries, byKey, row.link);
      if row.link.key !in byKey || byKey[row.link.key].winner != row.link.winner { return false; }
    }
    NoRepeats(Ids(links));
    NoRepeats(Places(links));
    return true;
  }

  lemma Repeats<T>(s: seq<T>, i: nat, j: nat)
    requires i < j < |s| && s[i] == s[j]
    ensures !Distinct(s)
  {
  }

  lemma NoRepeats<T>(s: seq<T>)
    requires forall i, j :: 0 <= i < j < |s| ==> s[i] != s[j]
    ensures Distinct(s)
  {
  }

  lemma RefersByKey(summaries: seq<Summary>, byKey: map<string, Summary>, l: Link)
    requires forall k :: k in byKey <==> exists i :: 0 <= i < |summaries| && summaries[i].key == k
    requires forall i :: 0 <= i < |summaries| ==> summaries[i].key in byKey && byKey[summaries[i].key] == summaries[i]
    ensures RefersTo(summaries, l) <==> l.key in byKey && byKey[l.key].winner == l.winner
  {
  }
}

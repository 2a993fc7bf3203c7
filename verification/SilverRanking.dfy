/**
 * Silver deduplication: two window rankings, first by contract key and payload, then by key, each
 * keeping the row numbered one. A payload hash is modelled by the payload; the derived columns of a
 * row are functions of the fields kept here.
 */
module SilverRanking {
  import opened Wrappers
  import opened Sets
  import opened Text

  datatype Row = Row(key: string, updated: Option<int>, fetched: int, run: string, page: string, ordinal: int,
      payload: string)

  /** A Bronze row with the codes of its rejection details. */
  datatype Annotated = Annotated(row: Row, codes: seq<string>)

  // ---- The version order ------------------------------------------------------------------

  datatype Order = First | Second | Tied

  function ByNumber(a: int, b: int): Order { if a > b then First else if b > a then Second else Tied }

  function ByText(a: string, b: string): Order { if Less(b, a) then First else if Less(a, b) then Second else Tied }

  /** Present updates first, later ones first among them; absent ones compare equal. */
  function ByUpdate(a: Option<int>, b: Option<int>): Order {
    if a.Some? && b.Some? then ByNumber(a.value, b.value)
    else if a.Some? then First else if b.Some? then Second else Tied
  }

  function Then(a: Order, b: Order): Order { if a == Tied then b else a }

  /** The order of rows by where they come from: run, page, position, and last their payload. */
  function ByOrigin(a: Row, b: Row): Order {
    Then(ByText(a.run, b.run), Then(ByText(a.page, b.page), Then(ByNumber(a.ordinal, b.ordinal), ByText(a.payload, b.payload))))
  }

  function Compare(a: Row, b: Row): Order {
    Then(ByUpdate(a.updated, b.updated), Then(ByNumber(a.fetched, b.fetched), ByOrigin(a, b)))
  }

  /** `a` comes before `b` in the version order. */
  predicate Precedes(a: Row, b: Row) { Compare(a, b) == First }

  lemma TextOrder(a: string, b: string, c: string)
    ensures ByText(a, b) == Tied <==> a == b
    ensures ByText(a, b) == First <==> ByText(b, a) == Second
    ensures ByText(a, b) == First && ByText(b, c) == First ==> ByText(a, c) == First
  {
    LessTotal(a, b);
    LessIrreflexive(a);
    if Less(a, b) { LessAsymmetric(a, b); }
    if Less(b, a) { LessAsymmetric(b, a); }
    if Less(b, a) && Less(c, b) { LessTransitive(c, b, a); }
  }

  /** What makes a comparison the strict part of a total order, on three of its values. */
  predicate Lawful(ab: Order, ba: Order, bc: Order, ac: Order) {
    && (ab == First <==> ba == Second) && (ab == Tied <==> ba == Tied)
    && (ab == First && bc == First ==> ac == First)
    && (ab == Tied ==> ac == bc) && (bc == Tied ==> ac == ab)
  }

  lemma ThenLawful(ab: Order, ba: Order, bc: Order, ac: Order, xy: Order, yx: Order, yz: Order, xz: Order)
    requires Lawful(ab, ba, bc, ac) && Lawful(xy, yx, yz, xz)
    ensures Lawful(Then(ab, xy), Then(ba, yx), Then(bc, yz), Then(ac, xz))
  {
  }

  lemma TextLawful(a: string, b: string, c: string)
    ensures Lawful(ByText(a, b), ByText(b, a), ByText(b, c), ByText(a, c))
    ensures ByText(a, b) == Tied <==> a == b
  {
    TextOrder(a, b, c);
    TextOrder(b, a, c);
    TextOrder(b, c, a);
    TextOrder(a, c, b);
  }

  /** On rows of one key the version order is a strict total order. */
  lemma VersionOrder(a: Row, b: Row, c: Row)
    requires a.key == b.key == c.key
    ensures Compare(a, b) == Tied <==> a == b
    ensures Precedes(a, b) <==> Compare(b, a) == Second
    ensures !(Precedes(a, b) && Precedes(b, a))
    ensures Precedes(a, b) || Precedes(b, a) || a == b
    ensures Precedes(a, b) && Precedes(b, c) ==> Precedes(a, c)
  {
    CompareLawful(a, b, c);
    OriginLawful(a, b, c);
    hide ByOrigin;
    assert Compare(a, b) == Tied ==> a == b;
    assert a == b ==> Compare(a, b) == Tied;
  }

  lemma OriginLawful(a: Row, b: Row, c: Row)
    ensures Lawful(ByOrigin(a, b), ByOrigin(b, a), ByOrigin(b, c), ByOrigin(a, c))
    ensures ByOrigin(a, b) == Tied <==> a.run == b.run && a.page == b.page && a.ordinal == b.ordinal && a.payload == b.payload
  {
    TextLawful(a.run, b.run, c.run);
    TextLawful(a.page, b.page, c.page);
    TextLawful(a.payload, b.payload, c.payload);
    hide ByText;
    ThenLawful(ByNumber(a.ordinal, b.ordinal), ByNumber(b.ordinal, a.ordinal),
               ByNumber(b.ordinal, c.ordinal), ByNumber(a.ordinal, c.ordinal),
               ByText(a.payload, b.payload), ByText(b.payload, a.payload), ByText(b.payload, c.payload),
               ByText(a.payload, c.payload));
    hide ByNumber;
    var tail := (x: Row, y: Row) => Then(ByNumber(x.ordinal, y.ordinal), ByText(x.payload, y.payload));
    ThenLawful(ByText(a.page, b.page), ByText(b.page, a.page), ByText(b.page, c.page), ByText(a.page, c.page),
               tail(a, b), tail(b, a), tail(b, c), tail(a, c));
    ThenLawful(ByText(a.run, b.run), ByText(b.run, a.run), ByText(b.run, c.run), ByText(a.run, c.run),
               Then(ByText(a.page, b.page), tail(a, b)), Then(ByText(b.page, a.page), tail(b, a)),
               Then(ByText(b.page, c.page), tail(b, c)), Then(ByText(a.page, c.page), tail(a, c)));
  }

  lemma CompareLawful(a: Row, b: Row, c: Row)
    ensures Lawful(Compare(a, b), Compare(b, a), Compare(b, c), Compare(a, c))
  {
    OriginLawful(a, b, c);
    hide ByOrigin;
    ThenLawful(ByNumber(a.fetched, b.fetched), ByNumber(b.fetched, a.fetched),
               ByNumber(b.fetched, c.fetched), ByNumber(a.fetched, c.fetched),
               ByOrigin(a, b), ByOrigin(b, a), ByOrigin(b, c), ByOrigin(a, c));
    var tail := (x: Row, y: Row) => Then(ByNumber(x.fetched, y.fetched), ByOrigin(x, y));
    ThenLawful(ByUpdate(a.updated, b.updated), ByUpdate(b.updated, a.updated),
               ByUpdate(b.updated, c.updated), ByUpdate(a.updated, c.updated),
               tail(a, b), tail(b, a), tail(b, c), tail(a, c));
  }

  // ---- Window ranking ---------------------------------------------------------------------

  /** The window partition: key and payload in the first stage, key alone in the second. */
  function Part(row: Row, exact: bool): (string, string) { (row.key, if exact then row.payload else "") }

  /**
   * Row `j` is numbered before row `i`: it precedes it, or ties with it and comes first in `tie`, an
   * arbitrary numbering that stands for how the engine orders equal rows.
   */
  predicate Ahead(rows: seq<Row>, exact: bool, tie: seq<nat>, j: nat, i: nat)
    requires i < |rows| && j < |rows| && |tie| == |rows|
  {
    && Part(rows[j], exact) == Part(rows[i], exact)
    && (Precedes(rows[j], rows[i]) || (rows[j] == rows[i] && tie[j] < tie[i]))
  }

  /** The numbering of equal rows is unambiguous. */
  predicate Tie(rows: seq<Row>, tie: seq<nat>) {
    |tie| == |rows| && forall i, j :: 0 <= i < j < |tie| ==> tie[i] != tie[j]
  }

  function RowNumber(rows: seq<Row>, exact: bool, tie: seq<nat>, i: nat): nat
    requires i < |rows| && |tie| == |rows|
  {
    1 + |set j | 0 <= j < |rows| && Ahead(rows, exact, tie, j, i)|
  }

  /** The rows among the first `n` that are numbered one. */
  function Firsts(rows: seq<Row>, exact: bool, tie: seq<nat>, n: nat): seq<Row>
    requires n <= |rows| == |tie|
  {
    if n == 0 then [] else
      Firsts(rows, exact, tie, n - 1) + if RowNumber(rows, exact, tie, n - 1) == 1 then [rows[n - 1]] else []
  }

  function Later(rows: seq<Row>, exact: bool, tie: seq<nat>, n: nat): nat
    requires n <= |rows| == |tie|
  {
    if n == 0 then 0 else Later(rows, exact, tie, n - 1) + if RowNumber(rows, exact, tie, n - 1) > 1 then 1 else 0
  }

  /** The greatest row of a partition. */
  predicate Greatest(rows: seq<Row>, exact: bool, w: Row) {
    && w in rows
    && forall r :: r in rows && Part(r, exact) == Part(w, exact) ==> r == w || Precedes(w, r)
  }

  lemma NumberedOne(rows: seq<Row>, exact: bool, tie: seq<nat>, i: nat)
    requires i < |rows| && Tie(rows, tie) && RowNumber(rows, exact, tie, i) == 1
    ensures Greatest(rows, exact, rows[i])
    ensures forall j :: 0 <= j < |rows| && Part(rows[j], exact) == Part(rows[i], exact) && RowNumber(rows, exact, tie, j) == 1 ==> j == i
  {
    var ahead := set j | 0 <= j < |rows| && Ahead(rows, exact, tie, j, i);
    assert ahead == {};
    forall r | r in rows && Part(r, exact) == Part(rows[i], exact) ensures r == rows[i] || Precedes(rows[i], r) {
      var j :| 0 <= j < |rows| && rows[j] == r;
      assert j !in ahead;
      VersionOrder(r, rows[i], r);
    }
    forall j | 0 <= j < |rows| && Part(rows[j], exact) == Part(rows[i], exact) && RowNumber(rows, exact, tie, j) == 1
      ensures j == i
    {
      var other := set k | 0 <= k < |rows| && Ahead(rows, exact, tie, k, j);
      assert other == {};
      assert j !in ahead && i !in other;
      VersionOrder(rows[i], rows[j], rows[i]);
    }
  }

  /** Every partition has a row numbered one. */
  lemma {:induction false} SomeFirst(rows: seq<Row>, exact: bool, tie: seq<nat>, i: nat) returns (k: nat)
    requires i < |rows| && Tie(rows, tie)
    ensures k < |rows| && Part(rows[k], exact) == Part(rows[i], exact) && RowNumber(rows, exact, tie, k) == 1
    decreases |set j | 0 <= j < |rows| && Ahead(rows, exact, tie, j, i)|
  {
    var ahead := set j | 0 <= j < |rows| && Ahead(rows, exact, tie, j, i);
    if ahead == {} {
      k := i;
    } else {
      var j :| j in ahead;
      var smaller := set h | 0 <= h < |rows| && Ahead(rows, exact, tie, h, j);
      forall h | h in smaller ensures h in ahead { AheadTransitive(rows, exact, tie, h, j, i); }
      NotAheadOfItself(rows, exact, tie, j);
      Shrinks(smaller, ahead, j);
      k := SomeFirst(rows, exact, tie, j);
    }
  }

  lemma AheadTransitive(rows: seq<Row>, exact: bool, tie: seq<nat>, h: nat, j: nat, i: nat)
    requires h < |rows| && j < |rows| && i < |rows| && |tie| == |rows|
    requires Ahead(rows, exact, tie, h, j) && Ahead(rows, exact, tie, j, i)
    ensures Ahead(rows, exact, tie, h, i)
  {
    hide Compare;
    VersionOrder(rows[h], rows[j], rows[i]);
  }

  lemma NotAheadOfItself(rows: seq<Row>, exact: bool, tie: seq<nat>, j: nat)
    requires j < |rows| && |tie| == |rows|
    ensures !Ahead(rows, exact, tie, j, j)
  {
    VersionOrder(rows[j], rows[j], rows[j]);
  }

  lemma Shrinks(a: set<int>, b: set<int>, x: int)
    requires a <= b && x in b && x !in a
    ensures |a| < |b|
  {
    assert a <= b - {x};
    SubsetSize(a, b - {x});
  }

  predicate DistinctParts(rows: seq<Row>, exact: bool) {
    forall i, j :: 0 <= i < j < |rows| ==> Part(rows[i], exact) != Part(rows[j], exact)
  }

  lemma {:induction false} FirstsPrefix(rows: seq<Row>, exact: bool, tie: seq<nat>, n: nat)
    requires n <= |rows| && Tie(rows, tie)
    ensures forall w :: w in Firsts(rows, exact, tie, n) <==> exists i :: 0 <= i < n && RowNumber(rows, exact, tie, i) == 1 && rows[i] == w
    ensures DistinctParts(Firsts(rows, exact, tie, n), exact)
    ensures |Firsts(rows, exact, tie, n)| + Later(rows, exact, tie, n) == n
  {
    hide RowNumber, Part;
    if n > 0 {
      FirstsPrefix(rows, exact, tie, n - 1);
      var before := Firsts(rows, exact, tie, n - 1);
      if RowNumber(rows, exact, tie, n - 1) == 1 {
        NumberedOne(rows, exact, tie, n - 1);
        forall w | w in before ensures Part(w, exact) != Part(rows[n - 1], exact) {
          var i :| 0 <= i < n - 1 && RowNumber(rows, exact, tie, i) == 1 && rows[i] == w;
        }
      }
      assert RowNumber(rows, exact, tie, n - 1) >= 1 by { NumberPositive(rows, exact, tie, n - 1); }
    }
  }

  lemma NumberPositive(rows: seq<Row>, exact: bool, tie: seq<nat>, i: nat)
    requires i < |rows| && |tie| == |rows|
    ensures RowNumber(rows, exact, tie, i) >= 1
  {
  }

  /** The rows kept by one ranking: exactly the greatest of each partition, once. */
  lemma FirstsMeaning(rows: seq<Row>, exact: bool, tie: seq<nat>)
    requires Tie(rows, tie)
    ensures var kept := Firsts(rows, exact, tie, |rows|);
            && (forall w :: w in kept <==> Greatest(rows, exact, w))
            && DistinctParts(kept, exact) && |kept| + Later(rows, exact, tie, |rows|) == |rows|
  {
    hide RowNumber;
    FirstsPrefix(rows, exact, tie, |rows|);
    forall w | Greatest(rows, exact, w) ensures w in Firsts(rows, exact, tie, |rows|) {
      var i :| 0 <= i < |rows| && rows[i] == w;
      var k := SomeFirst(rows, exact, tie, i);
      NumberedOne(rows, exact, tie, k);
      GreatestUnique(rows, exact, w, rows[k]);
    }
    forall w | w in Firsts(rows, exact, tie, |rows|) ensures Greatest(rows, exact, w) {
      var i :| 0 <= i < |rows| && RowNumber(rows, exact, tie, i) == 1 && rows[i] == w;
      NumberedOne(rows, exact, tie, i);
    }
  }

  lemma GreatestUnique(rows: seq<Row>, exact: bool, a: Row, b: Row)
    requires Greatest(rows, exact, a) && Greatest(rows, exact, b) && Part(a, exact) == Part(b, exact)
    ensures a == b
  {
    VersionOrder(a, b, a);
  }

  // ---- Both stages ------------------------------------------------------------------------

  function Distinct(rows: seq<Row>, tie: seq<nat>): seq<Row>
    requires |tie| == |rows|
  {
    Firsts(rows, true, tie, |rows|)
  }

  function Selected(rows: seq<Row>, first: seq<nat>, second: seq<nat>): seq<Row>
    requires |first| == |rows| && |second| == |Distinct(rows, first)|
  {
    var distinct := Distinct(rows, first);
    Firsts(distinct, false, second, |distinct|)
  }

  /**
   * Ranking by key and payload and then by key keeps, for every key, exactly its greatest row under
   * the version order, once, however ties are numbered.
   */
  lemma SelectionIsMaximum(rows: seq<Row>, first: seq<nat>, second: seq<nat>)
    requires Tie(rows, first) && Tie(Distinct(rows, first), second)
    ensures forall w :: w in Selected(rows, first, second) <==> Greatest(rows, false, w)
    ensures DistinctParts(Selected(rows, first, second), false)
  {
    hide Firsts, Later;
    var distinct := Distinct(rows, first);
    FirstsMeaning(rows, true, first);
    FirstsMeaning(distinct, false, second);
    forall w ensures Greatest(distinct, false, w) <==> Greatest(rows, false, w) {
      StagesAgree(rows, distinct, w);
    }
  }

  lemma StagesAgree(rows: seq<Row>, distinct: seq<Row>, w: Row)
    requires forall d :: d in distinct <==> Greatest(rows, true, d)
    ensures Greatest(distinct, false, w) <==> Greatest(rows, false, w)
  {
    hide Compare;
    if Greatest(rows, false, w) {
      assert Greatest(rows, true, w);
    }
    if Greatest(distinct, false, w) {
      forall r | r in rows && r.key == w.key ensures r == w || Precedes(w, r) {
        var d := SomeGreatest(rows, true, r);
        assert d in distinct;
        VersionOrder(w, d, r);
      }
    }
  }

  /** Every row has a greatest row in its partition, itself or one that precedes it. */
  lemma {:induction false} SomeGreatest(rows: seq<Row>, exact: bool, r: Row) returns (d: Row)
    requires r in rows
    ensures Greatest(rows, exact, d) && Part(d, exact) == Part(r, exact) && (d == r || Precedes(d, r))
  {
    var tie := seq(|rows|, i => i);
    var i :| 0 <= i < |rows| && rows[i] == r;
    var k := SomeFirst(rows, exact, tie, i);
    NumberedOne(rows, exact, tie, k);
    d := rows[k];
  }

  /** The selection does not depend on the order of the input or on how ties are numbered. */
  lemma SelectionOrderFree(a: seq<Row>, b: seq<Row>, a1: seq<nat>, a2: seq<nat>, b1: seq<nat>, b2: seq<nat>)
    requires Tie(a, a1) && Tie(Distinct(a, a1), a2) && Tie(b, b1) && Tie(Distinct(b, b1), b2)
    requires forall r :: r in a <==> r in b
    ensures multiset(Selected(a, a1, a2)) == multiset(Selected(b, b1, b2))
  {
    hide Selected, Distinct;
    SelectionIsMaximum(a, a1, a2);
    SelectionIsMaximum(b, b1, b2);
    SameElements(Selected(a, a1, a2), Selected(b, b1, b2));
  }

  lemma {:induction false} SameElements(a: seq<Row>, b: seq<Row>)
    requires DistinctParts(a, false) && DistinctParts(b, false) && forall r :: r in a <==> r in b
    ensures multiset(a) == multiset(b)
  {
    forall r ensures multiset(a)[r] == multiset(b)[r] {
      OnceEach(a, r);
      OnceEach(b, r);
    }
  }

  lemma {:induction false} OnceEach(s: seq<Row>, r: Row)
    requires DistinctParts(s, false)
    ensures multiset(s)[r] == if r in s then 1 else 0
  {
    if s != [] {
      var n := |s| - 1;
      assert s == s[..n] + [s[n]];
      OnceEach(s[..n], r);
      if r in s[..n] { var i :| 0 <= i < n && s[i] == r; assert Part(s[i], false) != Part(s[n], false); }
    }
  }

  /** The winners of a union are the winners of the union of the winners; every key survives. */
  lemma UnionOfWinners(a: seq<Row>, b: seq<Row>, wa: seq<Row>, wb: seq<Row>, w: Row)
    requires forall r :: r in wa <==> Greatest(a, false, r)
    requires forall r :: r in wb <==> Greatest(b, false, r)
    ensures Greatest(wa + wb, false, w) <==> Greatest(a + b, false, w)
  {
    hide Compare;
    if Greatest(a + b, false, w) {
      assert w in a ==> Greatest(a, false, w);
      assert w in b ==> Greatest(b, false, w);
    }
    if Greatest(wa + wb, false, w) {
      forall r | r in a + b && r.key == w.key ensures r == w || Precedes(w, r) {
        var rows := if r in a then a else b;
        var d := SomeGreatest(rows, false, r);
        assert d in wa + wb;
        VersionOrder(w, d, r);
      }
    }
  }

  /** Adding input never loses a key. */
  lemma KeysGrow(a: seq<Row>, b: seq<Row>, w: Row) returns (v: Row)
    requires Greatest(a, false, w)
    ensures Greatest(a + b, false, v) && v.key == w.key && (v == w || Precedes(v, w))
  {
    v := SomeGreatest(a + b, false, w);
  }

  /** The version order, column by column. */
  predicate Newer(a: Row, b: Row) {
    || (a.updated.Some? && (b.updated.None? || a.updated.value > b.updated.value))
    || (a.updated == b.updated
        && (a.fetched > b.fetched || (a.fetched == b.fetched && FromLater(a, b))))
  }

  predicate FromLater(a: Row, b: Row) {
    || Less(b.run, a.run)
    || (a.run == b.run && Less(b.page, a.page))
    || (a.run == b.run && a.page == b.page && a.ordinal > b.ordinal)
    || (a.run == b.run && a.page == b.page && a.ordinal == b.ordinal && Less(b.payload, a.payload))
  }

  lemma PrecedesExact(a: Row, b: Row)
    ensures Precedes(a, b) <==> Newer(a, b)
  {
    TextOrder(a.run, b.run, a.run);
    TextOrder(a.page, b.page, a.page);
    TextOrder(a.payload, b.payload, a.payload);
    if a.run == b.run { LessIrreflexive(a.run); }
    if a.page == b.page { LessIrreflexive(a.page); }
  }

  /**
   * The selected row carries the latest source update of its key; among those the latest
   * acquisition; and then the greatest run, page, position and payload.
   */
  lemma WinnerIsNewest(rows: seq<Row>, w: Row, r: Row)
    requires Greatest(rows, false, w) && r in rows && r.key == w.key
    ensures r == w || Newer(w, r)
    ensures r.updated.Some? ==> w.updated.Some? && r.updated.value <= w.updated.value
    ensures r.updated == w.updated ==> r.fetched <= w.fetched
  {
    PrecedesExact(w, r);
    hide FromLater, Compare;
  }

  // ---- Counting ---------------------------------------------------------------------------

  function Accepted(rows: seq<Annotated>): seq<Row> {
    if rows == [] then []
    else Accepted(rows[..|rows| - 1]) + if rows[|rows| - 1].codes == [] then [rows[|rows| - 1].row] else []
  }

  function RejectedCount(rows: seq<Annotated>): nat {
    if rows == [] then 0 else RejectedCount(rows[..|rows| - 1]) + if rows[|rows| - 1].codes != [] then 1 else 0
  }

  lemma {:induction false} AcceptedSplit(rows: seq<Annotated>)
    ensures |Accepted(rows)| + RejectedCount(rows) == |rows|
  {
    if rows != [] { AcceptedSplit(rows[..|rows| - 1]); }
  }

  function KeysOf(rows: seq<Row>): set<string> { set r | r in rows :: r.key }

  lemma {:induction false} DistinctKeysCount(rows: seq<Row>)
    requires DistinctParts(rows, false)
    ensures |KeysOf(rows)| == |rows|
  {
    if rows != [] {
      var n := |rows| - 1;
      assert rows == rows[..n] + [rows[n]];
      assert KeysOf(rows) == KeysOf(rows[..n]) + {rows[n].key};
      DistinctKeysCount(rows[..n]);
    }
  }

  datatype Counts = Counts(input: nat, output: nat, rejected: nat, exactDuplicates: nat, superseded: nat)

  /** The counts as the transformation takes them, from the rows numbered above one in each ranking. */
  function CountsOf(rows: seq<Annotated>, first: seq<nat>, second: seq<nat>): Counts
    requires |first| == |Accepted(rows)| && |second| == |Distinct(Accepted(rows), first)|
  {
    var candidates := Accepted(rows);
    var distinct := Distinct(candidates, first);
    Counts(|rows|, |Selected(candidates, first, second)|, RejectedCount(rows),
           Later(candidates, true, first, |candidates|), Later(distinct, false, second, |distinct|))
  }

  /** The quality reconciliation always holds, and one row comes out for every accepted key. */
  lemma RowsConserved(rows: seq<Annotated>, first: seq<nat>, second: seq<nat>)
    requires Tie(Accepted(rows), first) && Tie(Distinct(Accepted(rows), first), second)
    ensures var c := CountsOf(rows, first, second);
            && c.input == c.output + c.rejected + c.exactDuplicates + c.superseded
            && c.output == |KeysOf(Accepted(rows))|
  {
    hide Firsts, Later, Accepted, RejectedCount;
    var candidates := Accepted(rows);
    var distinct := Distinct(candidates, first);
    var selected := Selected(candidates, first, second);
    AcceptedSplit(rows);
    FirstsMeaning(candidates, true, first);
    FirstsMeaning(distinct, false, second);
    SelectionIsMaximum(candidates, first, second);
    DistinctKeysCount(selected);
    forall k | k in KeysOf(candidates) ensures k in KeysOf(selected) {
      var r :| r in candidates && r.key == k;
      var d := SomeGreatest(candidates, false, r);
      assert d in selected;
    }
    assert KeysOf(selected) == KeysOf(candidates);
  }
}

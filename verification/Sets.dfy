/** Sizes of finite sets. */
module Sets {
  lemma {:induction false} SubsetSize<T>(a: set<T>, b: set<T>)
    requires a <= b
    ensures |a| <= |b|
  {
    if a != {} {
      var x :| x in a;
      SubsetSize(a - {x}, b - {x});
    }
  }

  lemma SplitSize<T>(a: set<T>, b: set<T>)
    ensures |a| == |a - b| + |a * b| && (|a - b| == 0 <==> a <= b)
  {
    assert a == (a - b) + a * b;
    if |a - b| == 0 {
      forall x | x in a ensures x in b { assert x !in a - b; }
    } else {
      var x :| x in a - b;
    }
  }
}

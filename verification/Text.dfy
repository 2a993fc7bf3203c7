/** Source identifiers: Python's code-point order on strings, and the text checks. */
module Text {

  /** `a < b` on Python strings: the first differing code point decides, a proper prefix is smaller. */
  predicate Less(a: string, b: string) {
    b != "" && (a == "" || a[0] < b[0] || (a[0] == b[0] && Less(a[1..], b[1..])))
  }

  lemma {:induction false} LessIrreflexive(a: string)
    ensures !Less(a, a)
  {
    if a != "" { LessIrreflexive(a[1..]); }
  }

  lemma {:induction false} LessTransitive(a: string, b: string, c: string)
    requires Less(a, b) && Less(b, c)
    ensures Less(a, c)
  {
    if a != "" && a[0] == b[0] && b[0] == c[0] {
      LessTransitive(a[1..], b[1..], c[1..]);
    }
  }

  lemma {:induction false} LessTotal(a: string, b: string)
    ensures a == b || Less(a, b) || Less(b, a)
  {
    if a != "" && b != "" && a[0] == b[0] {
      LessTotal(a[1..], b[1..]);
      assert a == [a[0]] + a[1..] && b == [b[0]] + b[1..];
    }
  }

  /** The order by its meaning: up to where the strings part, one has ended or has the smaller code point there. */
  lemma {:induction false} LessExact(a: string, b: string)
    ensures Less(a, b) <==> exists i :: PartAt(a, b, i)
  {
    if a != "" && b != "" && a[0] == b[0] {
      LessExact(a[1..], b[1..]);
      if i :| PartAt(a[1..], b[1..], i) { assert PartAt(a, b, i + 1); }
      if i :| PartAt(a, b, i) { assert i > 0 && PartAt(a[1..], b[1..], i - 1); }
    } else if Less(a, b) {
      assert PartAt(a, b, 0);
    }
  }

  predicate PartAt(a: string, b: string, i: int) {
    && 0 <= i <= |a| && i < |b| && (forall k :: 0 <= k < i ==> a[k] == b[k])
    && (i == |a| || a[i] < b[i])
  }

  lemma LessAsymmetric(a: string, b: string)
    requires Less(a, b)
    ensures !Less(b, a)
  {
    if Less(b, a) {
      LessTransitive(a, b, a);
      LessIrreflexive(a);
    }
  }

  /** No duplicates and already sorted, which for a list of strings is strict increase. */
  predicate Increasing(ids: seq<string>) {
    forall i, j :: 0 <= i < j < |ids| ==> Less(ids[i], ids[j])
  }

  lemma IncreasingConcat(a: seq<string>, b: seq<string>)
    requires Increasing(a) && Increasing(b)
    requires a != [] && b != [] ==> Less(a[|a| - 1], b[0])
    ensures Increasing(a + b)
  {
    forall i, j | 0 <= i < j < |a + b| ensures Less((a + b)[i], (a + b)[j]) {
      if i < |a| <= j {
        if i < |a| - 1 { LessTransitive(a[i], a[|a| - 1], b[0]); }
        if |a| < j { LessTransitive(a[i], b[0], b[j - |a|]); }
      }
    }
  }

  /** The characters `str.strip` removes. */
  predicate IsSpace(c: char) {
    var n := c as int;
    || 9 <= n <= 13 || 28 <= n <= 32 || n == 0x85 || n == 0xA0 || n == 0x1680
    || 0x2000 <= n <= 0x200A || n == 0x2028 || n == 0x2029 || n == 0x202F || n == 0x205F || n == 0x3000
  }

  /** Text that the acquisition checks accept: something besides white space, and no NUL. */
  predicate Usable(s: string) {
    (exists i :: 0 <= i < |s| && !IsSpace(s[i])) && forall i :: 0 <= i < |s| ==> s[i] as int != 0
  }
}

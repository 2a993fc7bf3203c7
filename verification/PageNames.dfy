/** The names of page files under a run directory: the lane and the five-digit page number. */
module PageNames {

  function Digit(n: nat): char
    requires n < 10
  {
    ('0' as int + n) as char
  }

  function Decimal(n: nat): (s: string)
    ensures s != ""
  {
    if n < 10 then [Digit(n)] else Decimal(n / 10) + [Digit(n % 10)]
  }

  /** Zero padded on the left to five digits; a longer number keeps its digits. */
  function Padded(s: string): string
    decreases 5 - |s|
  {
    if |s| >= 5 then s else Padded("0" + s)
  }

  function PagePath(lane: string, sequence: nat): string {
    "pages/" + lane + "-" + Padded(Decimal(sequence)) + ".json"
  }

  /** The number that a string of digits stands for. */
  function Value(s: string): int {
    if s == "" then 0 else 10 * Value(s[..|s| - 1]) + (s[|s| - 1] as int - '0' as int)
  }

  lemma {:induction false} DecimalValue(n: nat)
    ensures Value(Decimal(n)) == n
  {
    var s := Decimal(n);
    if n < 10 {
      assert s[..0] == "";
    } else {
      DecimalValue(n / 10);
      assert s[..|s| - 1] == Decimal(n / 10);
    }
  }

  lemma {:induction false} ZeroValue(s: string)
    ensures Value("0" + s) == Value(s)
  {
    if s == "" {
      assert "0" + s == "0" && "0"[..0] == "";
    } else {
      ZeroValue(s[..|s| - 1]);
      assert ("0" + s)[..|s|] == "0" + s[..|s| - 1];
    }
  }

  lemma {:induction false} PaddedValue(s: string)
    ensures Value(Padded(s)) == Value(s)
    decreases 5 - |s|
  {
    if |s| < 5 {
      PaddedValue("0" + s);
      ZeroValue(s);
    }
  }

  /** Two pages of one run have the same file name only if they are the same page of the same lane. */
  lemma PagePathInjective(lane: string, sequence: nat, otherLane: string, otherSequence: nat)
    requires '-' !in lane && '-' !in otherLane
    ensures PagePath(lane, sequence) == PagePath(otherLane, otherSequence) ==> lane == otherLane && sequence == otherSequence
  {
    var a, b := PagePath(lane, sequence), PagePath(otherLane, otherSequence);
    assert a[6 + |lane|] == '-' && b[6 + |otherLane|] == '-';
    assert forall i :: 0 <= i < |lane| ==> a[6 + i] == lane[i];
    assert forall i :: 0 <= i < |otherLane| ==> b[6 + i] == otherLane[i];
    if a == b {
      assert |lane| == |otherLane|;
      assert a[6..6 + |lane|] == lane && b[6..6 + |otherLane|] == otherLane;
      var digits, otherDigits := Padded(Decimal(sequence)), Padded(Decimal(otherSequence));
      assert a[7 + |lane|..|a| - 5] == digits && b[7 + |otherLane|..|b| - 5] == otherDigits;
      PaddedValue(Decimal(sequence));
      PaddedValue(Decimal(otherSequence));
      DecimalValue(sequence);
      DecimalValue(otherSequence);
    }
  }

  predicate Digits(s: string) { forall i :: 0 <= i < |s| ==> '0' <= s[i] <= '9' }

  lemma {:induction false} DecimalDigits(n: nat)
    ensures Digits(Decimal(n))
  {
    if n >= 10 { DecimalDigits(n / 10); }
  }

  lemma {:induction false} PaddedDigits(s: string)
    requires Digits(s)
    ensures Digits(Padded(s))
    decreases 5 - |s|
  {
    if |s| < 5 { PaddedDigits("0" + s); }
  }
}

/** Sums and first-maximum selection over sequences of counts, the two
    reductions the dashboard applies to every table it builds, and the
    ratios (percentages, rates) it derives from counts. */
module Stats {

  /** Sum of a sequence of counts (pandas `.sum()` / Python `sum`). */
  function Sum(s: seq<nat>): nat
  {
    if s == [] then 0 else Sum(s[..|s| - 1]) + s[|s| - 1]
  }

  lemma {:induction false} SumAppend(a: seq<nat>, b: seq<nat>)
    ensures Sum(a + b) == Sum(a) + Sum(b)
    decreases |b|
  {
    if b == [] {
      assert a + b == a;
    } else {
      assert (a + b)[..|a + b| - 1] == a + b[..|b| - 1];
      SumAppend(a, b[..|b| - 1]);
    }
  }

  /** Index of the first largest element: pandas `idxmax` and Python
      `max(..., key=...)` both scan left to right and only move on a
      strictly larger value, so ties go to the earliest position. */
  function FirstMax(s: seq<int>): (i: nat)
    requires |s| > 0
    ensures i < |s|
    ensures forall j :: 0 <= j < |s| ==> s[j] <= s[i]
    ensures forall j :: 0 <= j < i ==> s[j] < s[i]
  {
    if |s| == 1 then 0
    else
      var k := FirstMax(s[..|s| - 1]);
      if s[|s| - 1] > s[k] then |s| - 1 else k
  }

  /** `p` is `part` as a percentage of `whole`. */
  ghost predicate IsPercentOf(p: real, part: nat, whole: nat)
  {
    p * (whole as real) == 100.0 * (part as real)
  }

  /** `part / whole * 100`. */
  function Percent(part: nat, whole: nat): (p: real)
    requires whole > 0
    ensures p * (whole as real) == 100.0 * (part as real)
    ensures IsPercentOf(p, part, whole)
  {
    Scale((100 * part) as real, whole as real)
  }

  /** `a / b`, with the identity the rest of the model reasons with. */
  function Scale(a: real, b: real): (q: real)
    requires b > 0.0
    ensures q * b == a
  {
    a / b
  }

  lemma PercentBounds(part: nat, whole: nat)
    requires whole > 0
    ensures part <= whole ==> Percent(part, whole) <= 100.0
    ensures Percent(part, whole) == 100.0 <==> part == whole
  {
    RateCompare(Percent(part, whole), whole as real, 100.0 * (part as real), 100.0);
  }

  /** A rate compares with a threshold as its numerator compares with the
      threshold times its denominator. */
  lemma RateCompare(rate: real, m: real, c: real, t: real)
    requires m > 0.0 && rate * m == c
    ensures rate > t <==> c > t * m
    ensures rate < t <==> c < t * m
  {
    if rate > t {
      assert (rate - t) * m > 0.0;
    } else if rate < t {
      assert (t - rate) * m > 0.0;
    } else {
      assert c == t * m;
    }
  }
}

/** Exact real arithmetic shared by both pricing engines: powers, sums, means,
    maxima, binomial coefficients and the clamp `np.maximum(x, 0)`. */
module Numeric {

  /** `np.maximum(x, 0.0)`: the larger of `x` and zero. */
  function Positive(x: real): (r: real)
    ensures r >= 0.0 && r >= x
    ensures r == x || r == 0.0
  {
    if x > 0.0 then x else 0.0
  }

  /** `x ** n` for a natural exponent. */
  function Pow(x: real, n: nat): real
  {
    if n == 0 then 1.0 else x * Pow(x, n - 1)
  }

  lemma {:induction false} PowNonnegative(x: real, n: nat)
    requires x >= 0.0
    ensures Pow(x, n) >= 0.0
  {
    if n > 0 {
      PowNonnegative(x, n - 1);
      assert x * Pow(x, n - 1) >= 0.0;
    }
  }

  lemma {:induction false} PowPositive(x: real, n: nat)
    requires x > 0.0
    ensures Pow(x, n) > 0.0
  {
    if n > 0 {
      PowPositive(x, n - 1);
      assert x * Pow(x, n - 1) > 0.0;
    }
  }

  /** A product of non-negative factors is non-negative. */
  lemma ProductNonnegative(x: real, y: real)
    requires x >= 0.0 && y >= 0.0
    ensures x * y >= 0.0
  {
  }

  /** Scaling by a non-negative factor keeps [0, m] within [0, c·m]. */
  lemma ScaleBounds(c: real, x: real, m: real)
    requires c >= 0.0 && 0.0 <= x <= m
    ensures 0.0 <= c * x <= c * m
  {
  }

  /** Sum of the entries of `s`, as `np.sum` computes it in exact arithmetic. */
  function Sum(s: seq<real>): real
  {
    if |s| == 0 then 0.0 else s[0] + Sum(s[1..])
  }

  /** `np.mean` of a non-empty vector. */
  function Mean(s: seq<real>): real
    requires |s| > 0
  {
    Sum(s) / |s| as real
  }

  /** The largest entry of a non-empty vector. */
  function MaxOf(s: seq<real>): (m: real)
    requires |s| > 0
    ensures m in s
    ensures forall j :: 0 <= j < |s| ==> s[j] <= m
  {
    if |s| == 1 then s[0]
    else
      var rest := MaxOf(s[1..]);
      assert forall j :: 1 <= j < |s| ==> s[j] == s[1..][j - 1];
      if s[0] >= rest then s[0] else rest
  }

  /** Entries in [0, bound] sum to at most |s|·bound, and to at least zero. */
  lemma {:induction false} SumBounds(s: seq<real>, bound: real)
    requires forall j :: 0 <= j < |s| ==> 0.0 <= s[j] <= bound
    ensures 0.0 <= Sum(s) <= |s| as real * bound
  {
    if |s| > 0 {
      assert forall j :: 0 <= j < |s| - 1 ==> s[1..][j] == s[j + 1];
      SumBounds(s[1..], bound);
    }
  }

  /** The mean of entries in [0, bound] lies in [0, bound]. */
  lemma MeanBounds(s: seq<real>, bound: real)
    requires |s| > 0
    requires forall j :: 0 <= j < |s| ==> 0.0 <= s[j] <= bound
    ensures 0.0 <= Mean(s) <= bound
  {
    SumBounds(s, bound);
    var n := |s| as real;
    assert Mean(s) * n == Sum(s);
    assert (bound - Mean(s)) * n == n * bound - Sum(s);
  }

  /** If, entry by entry, `a` exceeds `b` by `c` less `x`, then the sum of
      `a` exceeds the sum of `b` by the sum of `c` less `x` once per entry. */
  lemma {:induction false} SumShift(a: seq<real>, b: seq<real>, c: seq<real>, x: real)
    requires |a| == |b| == |c|
    requires forall j :: 0 <= j < |c| ==> a[j] - b[j] == c[j] - x
    ensures Sum(a) - Sum(b) == Sum(c) - |c| as real * x
  {
    if |c| > 0 {
      var a', b', c' := a[1..], b[1..], c[1..];
      assert forall j :: 0 <= j < |c'| ==> a'[j] == a[j + 1] && b'[j] == b[j + 1] && c'[j] == c[j + 1];
      SumShift(a', b', c', x);
      ShiftStep(a[0], b[0], c[0], Sum(a'), Sum(b'), Sum(c'), |c'| as real, |c| as real, x);
    }
  }

  /** One more entry in front adds its own difference, and one more `x`. */
  lemma ShiftStep(a: real, b: real, c: real, sa: real, sb: real, sc: real, n: real, n1: real,
                  x: real)
    requires a - b == c - x && sa - sb == sc - n * x && n1 == n + 1.0
    ensures (a + sa) - (b + sb) == (c + sc) - n1 * x
  {
  }

  /** If the sums of `a` and `b` differ by the sum of `c` less `x` once per
      entry, their means differ by the mean of `c` less `x`. */
  lemma MeanShift(a: seq<real>, b: seq<real>, c: seq<real>, x: real)
    requires |a| == |b| == |c| > 0
    requires Sum(a) - Sum(b) == Sum(c) - |c| as real * x
    ensures Mean(a) - Mean(b) == Mean(c) - x
  {
    QuotientShift(Sum(a), Sum(b), Sum(c), |c| as real, x);
  }

  lemma QuotientShift(sa: real, sb: real, sc: real, n: real, x: real)
    requires n > 0.0 && sa - sb == sc - n * x
    ensures sa / n - sb / n == sc / n - x
  {
    assert sa / n - sb / n == (sa - sb) / n;
    assert (sc - n * x) / n == sc / n - x;
  }

  /** Binomial coefficient C(n, k); zero when k > n. */
  function Choose(n: nat, k: nat): nat
  {
    if k == 0 then 1
    else if n == 0 then 0
    else Choose(n - 1, k - 1) + Choose(n - 1, k)
  }

  lemma {:induction false} ChooseAbove(n: nat, k: nat)
    requires k > n
    ensures Choose(n, k) == 0
  {
    if n > 0 {
      ChooseAbove(n - 1, k - 1);
      ChooseAbove(n - 1, k);
    }
  }
}

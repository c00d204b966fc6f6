/** The binomial lattice pricer (Cox-Ross-Rubinstein): lattice factors, terminal
    node prices and payoffs, and the in-place backward induction, with what the
    lattice promises about the price it returns. */
module Lattice {
  import opened Numeric
  import opened Base

  /** Values of the transcendental expressions the pricer evaluates:
      `up = exp(volatility·sqrt(Δt))`, `growth = exp(rate·Δt)` and
      `discount = exp(-rate·Δt)`, where `Δt` is the step length
      `Binomial.DeltaT`. */
  datatype Factors = Factors(up: real, growth: real, discount: real)

  /** What the exponentials guarantee of each other; `up > 1` excludes zero
      volatility, for which the up-probability divides by `up - down = 0`. */
  predicate ValidFactors(f: Factors)
  {
    f.up > 1.0 && f.growth > 0.0 && f.discount * f.growth == 1.0
  }

  /** `down_factor = 1.0 / up_factor`: the tree recombines. */
  function Down(up: real): (d: real)
    requires up > 0.0
    ensures d > 0.0 && up * d == 1.0
    ensures up >= 1.0 ==> d <= 1.0
    ensures up > 1.0 ==> d < 1.0
  {
    1.0 / up
  }

  /** Sign facts about a quotient by a positive denominator. */
  lemma QuotientBounds(x: real, y: real)
    requires y > 0.0
    ensures x / y * y == x
    ensures x / y >= 0.0 <==> x >= 0.0
    ensures x / y <= 1.0 <==> x <= y
  {
    var r := x / y;
    assert r * y == x;
    assert (1.0 - r) * y == y - x;
  }

  /** `prob_up·up + prob_down·down`: the risk-neutral mix of the values after
      an up move and after a down move. */
  function Mix(p: real, up: real, q: real, down: real): real
  {
    p * up + q * down
  }

  /** Risk-neutral up-probability: the one that makes the expected one-step
      growth of the underlying equal to the risk-free growth. It is a
      probability exactly when `down <= growth <= up` (no arbitrage). */
  function ProbUp(up: real, growth: real): (p: real)
    requires up > 1.0
    ensures Mix(p, up, 1.0 - p, Down(up)) == growth
    ensures 0.0 <= p <= 1.0 <==> Down(up) <= growth <= up
  {
    var d := Down(up);
    QuotientBounds(growth - d, up - d);
    var p := (growth - d) / (up - d);
    assert p * up + (1.0 - p) * d == p * (up - d) + d;
    p
  }

  /** Price of the underlying at node `j` of level `n` of the lattice:
      `j` up moves and `n - j` down moves from `spot`. */
  function NodePrice(spot: real, up: real, n: nat, j: nat): (s: real)
    requires up > 0.0 && j <= n
    ensures spot > 0.0 ==> s > 0.0
  {
    PowPositive(up, j);
    PowPositive(Down(up), n - j);
    spot * Pow(up, j) * Pow(Down(up), n - j)
  }

  /** The comprehension `final_asset_prices`. */
  function TerminalPrices(spot: real, up: real, n: nat): (s: seq<real>)
    requires up > 0.0
    ensures |s| == n + 1
  {
    seq(n + 1, j requires 0 <= j <= n => NodePrice(spot, up, n, j))
  }

  /** One more up-move in place of a down-move multiplies the price by up/down. */
  lemma TerminalPriceStep(spot: real, up: real, n: nat, j: nat)
    requires spot >= 0.0 && up >= 1.0 && j < n
    ensures NodePrice(spot, up, n, j) <= NodePrice(spot, up, n, j + 1)
  {
    var d := Down(up);
    var x := Pow(up, j);
    var y := Pow(d, n - j - 1);
    PowNonnegative(up, j);
    PowNonnegative(d, n - j - 1);
    assert Pow(up, j + 1) == up * x;
    assert Pow(d, n - j) == d * y;
    assert NodePrice(spot, up, n, j) == spot * x * (d * y);
    assert NodePrice(spot, up, n, j+1) == spot * (up * x) * y;
    ScaledStep(spot, x, y, d, up);
  }

  /** `spot·x·(d·y) <= spot·(up·x)·y` for non-negative factors and `d <= up`. */
  lemma ScaledStep(spot: real, x: real, y: real, d: real, up: real)
    requires spot >= 0.0 && x >= 0.0 && y >= 0.0 && d <= up
    ensures spot * x * (d * y) <= spot * (up * x) * y
  {
    var a := spot * x * y;
    assert a >= 0.0;
    assert spot * x * (d * y) == a * d;
    assert spot * (up * x) * y == a * up;
    assert a * up - a * d == a * (up - d);
  }

  /** Terminal prices are non-decreasing in the number of up-moves. */
  lemma TerminalPricesSorted(spot: real, up: real, n: nat)
    requires spot >= 0.0 && up >= 1.0
    ensures forall j, k :: 0 <= j <= k <= n ==>
      TerminalPrices(spot, up, n)[j] <= TerminalPrices(spot, up, n)[k]
  {
    var s := TerminalPrices(spot, up, n);
    forall j, k | 0 <= j <= k <= n
      ensures s[j] <= s[k]
    {
      var m := j;
      while m < k
        invariant j <= m <= k
        invariant s[j] <= s[m]
      {
        TerminalPriceStep(spot, up, n, m);
        m := m + 1;
      }
    }
  }

  /** The right-hand side of the backward-induction assignment for one node:
      the discounted mix of its two successors. */
  function OneStep(disc: real, p: real, up: real, q: real, down: real): real
  {
    disc * Mix(p, up, q, down)
  }

  /** `x` discounted over `k` steps of factor `disc`. */
  function Discounted(disc: real, k: nat, x: real): real
  {
    Pow(disc, k) * x
  }

  /** One execution of the vectorised assignment of the backward induction:
      every entry but the last is recomputed from the OLD vector, and the last
      entry is left as it is. */
  function Pass(v: seq<real>, p: real, q: real, disc: real): (w: seq<real>)
    ensures |w| == |v|
    ensures |v| > 0 ==> w[|v| - 1] == v[|v| - 1]
  {
    seq(|v|, i requires 0 <= i < |v| =>
      if i + 1 < |v| then OneStep(disc, p, v[i + 1], q, v[i]) else v[i])
  }

  /** The vector after `k` executions of that assignment. The last entry is
      never touched. */
  function Passes(v: seq<real>, p: real, q: real, disc: real, k: nat): (w: seq<real>)
    ensures |w| == |v|
    ensures |v| > 0 ==> w[|v| - 1] == v[|v| - 1]
  {
    if k == 0 then v else Pass(Passes(v, p, q, disc, k - 1), p, q, disc)
  }

  /** Backward induction on the lattice: the value of node `i` on the level
      `k` steps before expiry, from the payoffs `v` at expiry. */
  function NodeValue(v: seq<real>, p: real, q: real, disc: real, k: nat, i: nat): real
    requires i + k < |v|
  {
    if k == 0 then v[i]
    else OneStep(disc, p, NodeValue(v, p, q, disc, k - 1, i + 1), q, NodeValue(v, p, q, disc, k - 1, i))
  }

  /** After `k` in-place passes, entry `i` of the first `|v| - k` entries holds
      the node value `k` levels back from expiry. */
  lemma {:induction false} PassesComputeNodeValues(v: seq<real>, p: real, q: real, disc: real, k: nat, i: nat)
    requires i + k < |v|
    ensures Passes(v, p, q, disc, k)[i] == NodeValue(v, p, q, disc, k, i)
  {
    if k > 0 {
      PassesComputeNodeValues(v, p, q, disc, k - 1, i + 1);
      PassesComputeNodeValues(v, p, q, disc, k - 1, i);
    }
  }

  /** The option price the lattice returns: the root of the backward induction
      over `steps` levels from the terminal payoffs. */
  function LatticePrice(t: OptionType, spot: real, strike: real, steps: nat, f: Factors): (price: real)
    requires ValidFactors(f)
    ensures var p := ProbUp(f.up, f.growth);
      price == Passes(Payoffs(t, TerminalPrices(spot, f.up, steps), strike), p, 1.0 - p, f.discount, steps)[0]
  {
    var p := ProbUp(f.up, f.growth);
    var v := Payoffs(t, TerminalPrices(spot, f.up, steps), strike);
    PassesComputeNodeValues(v, p, 1.0 - p, f.discount, steps, 0);
    NodeValue(v, p, 1.0 - p, f.discount, steps, 0)
  }

  // ----- closed form: discounted binomial expectation of the payoffs -----

  /** Entry `j` of a row of weights, read as zero outside the row. */
  function Coefficient(w: seq<real>, j: int): real
  {
    if 0 <= j < |w| then w[j] else 0.0
  }

  /** One step of the binomial distribution: outcome `j` is reached by an up
      move from outcome `j - 1` or by a down move from outcome `j`. */
  function MixRow(w: seq<real>, p: real, q: real): (r: seq<real>)
    ensures |r| == |w| + 1
  {
    seq(|w| + 1, j => Mix(p, Coefficient(w, j - 1), q, Coefficient(w, j)))
  }

  /** The probabilities of 0..k up moves in `k` steps. */
  function BinomialRow(p: real, q: real, k: nat): (r: seq<real>)
    ensures |r| == k + 1
  {
    if k == 0 then [1.0] else MixRow(BinomialRow(p, q, k - 1), p, q)
  }

  /** C(k, j)·p^j·q^(k-j), the probability of `j` up moves in `k` steps. */
  function Weight(p: real, q: real, k: nat, j: nat): real
  {
    if j <= k then Choose(k, j) as real * Pow(p, j) * Pow(q, k - j) else 0.0
  }

  /** Contribution of outcome `j` to a weighted sum of the payoffs from `i`. */
  function Term(v: seq<real>, w: seq<real>, i: nat, j: nat): real
    requires i + j < |v|
  {
    Coefficient(w, j) * v[i + j]
  }

  /** Sum of the contributions of the outcomes `j < m`. */
  function Weighted(v: seq<real>, w: seq<real>, i: nat, m: nat): real
    requires i + m <= |v|
  {
    if m == 0 then 0.0 else Weighted(v, w, i, m - 1) + Term(v, w, i, m - 1)
  }

  /** Expected payoff, under the binomial distribution of `k` steps, of the
      payoffs `v[i..i + k]`. */
  function Expectation(v: seq<real>, p: real, q: real, k: nat, i: nat): real
    requires i + k < |v|
  {
    Weighted(v, BinomialRow(p, q, k), i, k + 1)
  }

  // Lemmas from here on take a successor index as a parameter of its own
  // (`k0` and `k` with `k == k0 + 1`) rather than writing `k0 + 1`: their
  // conclusions then mention exactly the terms their callers hold, and the
  // solver matches them without arithmetic on the indices.

  lemma RowIsMix(p: real, q: real, k0: nat, k: nat)
    requires k == k0 + 1
    ensures BinomialRow(p, q, k) == MixRow(BinomialRow(p, q, k0), p, q)
  {
  }

  lemma MixCoefficient(w: seq<real>, p: real, q: real, j: nat, j0: nat)
    requires j == j0 + 1
    ensures Coefficient(MixRow(w, p, q), j) == Mix(p, Coefficient(w, j0), q, Coefficient(w, j))
  {
  }

  lemma MixFirstCoefficient(w: seq<real>, p: real, q: real)
    ensures Coefficient(MixRow(w, p, q), 0) == Mix(p, 0.0, q, Coefficient(w, 0))
  {
  }

  /** The rows hold the binomial probabilities C(k, j)·p^j·q^(k-j). */
  lemma {:induction false} BinomialRowWeights(p: real, q: real, k: nat, j: nat)
    ensures Coefficient(BinomialRow(p, q, k), j) == Weight(p, q, k, j)
  {
    if k == 0 {
      assert Choose(0, 0) as real * Pow(p, 0) * Pow(q, 0) == 1.0;
    } else {
      var k0 := k - 1;
      RowIsMix(p, q, k0, k);
      if j == 0 {
        BinomialRowWeights(p, q, k0, 0);
        MixFirstCoefficient(BinomialRow(p, q, k0), p, q);
        WeightFirst(p, q, k0, k);
      } else {
        var j0 := j - 1;
        BinomialRowWeights(p, q, k0, j0);
        BinomialRowWeights(p, q, k0, j);
        MixCoefficient(BinomialRow(p, q, k0), p, q, j, j0);
        WeightPascal(p, q, k0, k, j0, j);
      }
    }
  }

  /** The all-down outcome: Weight(k, 0) = q·Weight(k - 1, 0). */
  lemma WeightFirst(p: real, q: real, k0: nat, k: nat)
    requires k == k0 + 1
    ensures Weight(p, q, k, 0) == Mix(p, 0.0, q, Weight(p, q, k0, 0))
  {
    assert Pow(q, k) == q * Pow(q, k0);
  }

  /** Pascal's rule for the weights: Weight(k + 1, j + 1) mixes Weight(k, j)
      and Weight(k, j + 1). */
  lemma WeightPascal(p: real, q: real, k: nat, k1: nat, j: nat, j1: nat)
    requires k1 == k + 1 && j1 == j + 1
    ensures Weight(p, q, k1, j1) == Mix(p, Weight(p, q, k, j), q, Weight(p, q, k, j1))
  {
    if j1 <= k {
      InnerPascal(p, q, k, k1, j, j1);
    } else if j1 == k1 {
      ChooseAbove(k, k1);
      assert Choose(k1, k1) == Choose(k, k);
      assert Pow(p, k1) == p * Pow(p, k);
    }
  }

  lemma InnerPascal(p: real, q: real, k: nat, k1: nat, j: nat, j1: nat)
    requires k1 == k + 1 && j1 == j + 1 && j1 <= k
    ensures Weight(p, q, k1, j1) == Mix(p, Weight(p, q, k, j), q, Weight(p, q, k, j1))
  {
    var a := Choose(k, j) as real;
    var b := Choose(k, j1) as real;
    var pp := Pow(p, j);
    var qq := Pow(q, k - j1);
    assert Choose(k1, j1) as real == a + b;
    assert Pow(p, j1) == p * pp;
    assert Pow(q, k1 - j1) == q * qq;
    assert Pow(q, k - j) == q * qq;
    assert Weight(p, q, k, j) == a * pp * (q * qq);
    assert Weight(p, q, k, j1) == b * (p * pp) * qq;
    assert Weight(p, q, k1, j1) == (a + b) * (p * pp) * (q * qq);
  }

  lemma UnfoldWeighted(v: seq<real>, w: seq<real>, i: nat, m: nat, m0: nat)
    requires m == m0 + 1 && i + m <= |v|
    ensures Weighted(v, w, i, m) == Weighted(v, w, i, m0) + Term(v, w, i, m0)
  {
  }

  /** Scaling a mix scales both of its parts. */
  lemma MixScale(p: real, a: real, q: real, b: real, x: real)
    ensures Mix(p, a, q, b) * x == Mix(p, a * x, q, b * x)
  {
  }

  /** The contribution of outcome `j` under a mixed row mixes the
      contributions of outcome `j - 1` one node up and of outcome `j`. */
  lemma MixTerm(v: seq<real>, w: seq<real>, p: real, q: real, i: nat, i1: nat, j: nat, j0: nat)
    requires i1 == i + 1 && j == j0 + 1 && i + j < |v|
    ensures Term(v, MixRow(w, p, q), i, j) == Mix(p, Term(v, w, i1, j0), q, Term(v, w, i, j))
  {
    MixCoefficient(w, p, q, j, j0);
    MixScale(p, Coefficient(w, j0), q, Coefficient(w, j), v[i + j]);
  }

  /** Mixing a row and then weighting is weighting the payoffs one node up
      and the payoffs in place, and mixing. */
  lemma {:induction false} WeightedMix(v: seq<real>, w: seq<real>, p: real, q: real, i: nat, i1: nat, m: nat, m0: nat)
    requires i1 == i + 1 && m == m0 + 1 && i + m <= |v|
    ensures Weighted(v, MixRow(w, p, q), i, m) == Mix(p, Weighted(v, w, i1, m0), q, Weighted(v, w, i, m))
  {
    if m0 == 0 {
      MixFirstCoefficient(w, p, q);
      MixScale(p, 0.0, q, Coefficient(w, 0), v[i]);
    } else {
      var n := m0 - 1;
      WeightedMix(v, w, p, q, i, i1, m0, n);
      UnfoldWeighted(v, MixRow(w, p, q), i, m, m0);
      UnfoldWeighted(v, w, i1, m0, n);
      UnfoldWeighted(v, w, i, m, m0);
      MixTerm(v, w, p, q, i, i1, m0, n);
      MixStep(Weighted(v, MixRow(w, p, q), i, m), Weighted(v, MixRow(w, p, q), i, m0),
              Weighted(v, w, i1, m0), Weighted(v, w, i1, n),
              Weighted(v, w, i, m), Weighted(v, w, i, m0),
              Term(v, MixRow(w, p, q), i, m0), Term(v, w, i1, n), Term(v, w, i, m0), p, q);
    }
  }

  /** Adding one outcome to both mixed sums adds its mixed contribution. */
  lemma MixStep(e': real, e: real, a': real, a: real, b': real, b: real,
                tc: real, ta: real, tb: real, p: real, q: real)
    requires e == Mix(p, a, q, b) && tc == Mix(p, ta, q, tb)
    requires e' == e + tc && a' == a + ta && b' == b + tb
    ensures e' == Mix(p, a', q, b')
  {
  }

  /** Outcomes past the end of the row contribute nothing. */
  lemma WeightedPastRow(v: seq<real>, w: seq<real>, i: nat, m: nat, m0: nat)
    requires m == m0 + 1 && |w| <= m0 && i + m <= |v|
    ensures Weighted(v, w, i, m) == Weighted(v, w, i, m0)
  {
  }

  lemma ExpectationIsWeighted(v: seq<real>, p: real, q: real, k: nat, m: nat, i: nat)
    requires m == k + 1 && i + k < |v|
    ensures Expectation(v, p, q, k, i) == Weighted(v, BinomialRow(p, q, k), i, m)
  {
  }

  /** One backward step of the expectation: the expectation over `k + 1` steps
      from node `i` mixes those over `k` steps from nodes `i + 1` and `i`. */
  lemma ExpectationStep(v: seq<real>, p: real, q: real, k: nat, k1: nat, i: nat, i1: nat)
    requires k1 == k + 1 && i1 == i + 1 && i + k1 < |v|
    ensures Expectation(v, p, q, k1, i) == Mix(p, Expectation(v, p, q, k, i1), q, Expectation(v, p, q, k, i))
  {
    var k2 := k1 + 1;
    var w := BinomialRow(p, q, k);
    ExpectationIsWeighted(v, p, q, k1, k2, i);
    ExpectationIsWeighted(v, p, q, k, k1, i1);
    ExpectationIsWeighted(v, p, q, k, k1, i);
    RowIsMix(p, q, k, k1);
    WeightedMix(v, w, p, q, i, i1, k2, k1);
    WeightedPastRow(v, w, i, k2, k1);
  }

  /** The recursion of `NodeValue`, with the indices of the successors passed in. */
  lemma NodeValueUnfold(v: seq<real>, p: real, q: real, disc: real, k0: nat, k: nat, i: nat, i1: nat)
    requires k == k0 + 1 && i1 == i + 1 && i + k < |v|
    ensures NodeValue(v, p, q, disc, k, i)
      == OneStep(disc, p, NodeValue(v, p, q, disc, k0, i1), q, NodeValue(v, p, q, disc, k0, i))
  {
  }

  /** Backward induction computes the discounted binomial expectation: the
      node value `k` levels back is disc^k · Σ_j C(k, j)·p^j·q^(k-j)·v[i + j]. */
  lemma {:induction false} NodeValueClosedForm(v: seq<real>, p: real, q: real, disc: real, k: nat, i: nat)
    requires i + k < |v|
    ensures NodeValue(v, p, q, disc, k, i) == Discounted(disc, k, Expectation(v, p, q, k, i))
  {
    if k == 0 {
      ClosedFormLeaf(v, p, q, disc, i);
    } else {
      var k0, i1 := k - 1, i + 1;
      NodeValueClosedForm(v, p, q, disc, k0, i1);
      NodeValueClosedForm(v, p, q, disc, k0, i);
      ClosedFormStep(v, p, q, disc, k0, k, i, i1);
    }
  }

  /** At expiry the expectation is the payoff itself. */
  lemma ClosedFormLeaf(v: seq<real>, p: real, q: real, disc: real, i: nat)
    requires i < |v|
    ensures NodeValue(v, p, q, disc, 0, i) == Discounted(disc, 0, Expectation(v, p, q, 0, i))
  {
    assert Expectation(v, p, q, 0, i) == Weighted(v, [1.0], i, 0) + Term(v, [1.0], i, 0);
  }

  /** The closed form for two neighbouring nodes `k0` levels back gives the
      closed form for the node between them one level further back. */
  lemma ClosedFormStep(v: seq<real>, p: real, q: real, disc: real, k0: nat, k: nat, i: nat, i1: nat)
    requires k == k0 + 1 && i1 == i + 1 && i + k < |v|
    requires NodeValue(v, p, q, disc, k0, i1) == Discounted(disc, k0, Expectation(v, p, q, k0, i1))
    requires NodeValue(v, p, q, disc, k0, i) == Discounted(disc, k0, Expectation(v, p, q, k0, i))
    ensures NodeValue(v, p, q, disc, k, i) == Discounted(disc, k, Expectation(v, p, q, k, i))
  {
    NodeValueUnfold(v, p, q, disc, k0, k, i, i1);
    ExpectationStep(v, p, q, k0, k, i, i1);
    DiscountedMix(NodeValue(v, p, q, disc, k0, i1), NodeValue(v, p, q, disc, k0, i),
                  Expectation(v, p, q, k0, i1), Expectation(v, p, q, k0, i), disc, p, q, k0, k);
  }

  /** One step of backward induction over values that are each the
      expectation discounted over `k0` steps. */
  lemma DiscountedMix(x: real, y: real, a: real, b: real, disc: real, p: real, q: real, k0: nat, k: nat)
    requires k == k0 + 1
    requires x == Discounted(disc, k0, a) && y == Discounted(disc, k0, b)
    ensures OneStep(disc, p, x, q, y) == Discounted(disc, k, Mix(p, a, q, b))
  {
    var dk := Pow(disc, k0);
    assert Pow(disc, k) == disc * dk;
    assert disc * (p * (dk * a) + q * (dk * b)) == (disc * dk) * (p * a + q * b);
  }

  /** The returned price is the risk-neutral expectation of the terminal
      payoffs discounted over all steps, where payoff `j` has weight
      C(steps, j)·p^j·q^(steps-j). */
  lemma LatticePriceClosedForm(t: OptionType, spot: real, strike: real, steps: nat, f: Factors)
    requires ValidFactors(f)
    ensures var p := ProbUp(f.up, f.growth);
      LatticePrice(t, spot, strike, steps, f)
        == Discounted(f.discount, steps, Expectation(Payoffs(t, TerminalPrices(spot, f.up, steps), strike), p, 1.0 - p, steps, 0))
  {
    var p := ProbUp(f.up, f.growth);
    NodeValueClosedForm(Payoffs(t, TerminalPrices(spot, f.up, steps), strike), p, 1.0 - p, f.discount, steps, 0);
  }

  // ----- bounds -----

  /** With a genuine probability, each node value lies between zero and the
      bound on the payoffs discounted over `k` steps. */
  lemma {:induction false} NodeValueBounds(v: seq<real>, p: real, q: real, disc: real, k: nat, i: nat, bound: real)
    requires i + k < |v|
    requires 0.0 <= p <= 1.0 && q == 1.0 - p && disc >= 0.0
    requires forall j :: 0 <= j < |v| ==> 0.0 <= v[j] <= bound
    ensures 0.0 <= NodeValue(v, p, q, disc, k, i) <= Discounted(disc, k, bound)
  {
    if k > 0 {
      var k0, i1 := k - 1, i + 1;
      NodeValueBounds(v, p, q, disc, k0, i1, bound);
      NodeValueBounds(v, p, q, disc, k0, i, bound);
      BoundStep(NodeValue(v, p, q, disc, k0, i1), NodeValue(v, p, q, disc, k0, i), disc, p, q, k0, k, bound);
    }
  }

  /** One step of backward induction keeps values in [0, bound discounted]. */
  lemma BoundStep(a: real, b: real, disc: real, p: real, q: real, k0: nat, k: nat, bound: real)
    requires k == k0 + 1 && 0.0 <= p <= 1.0 && q == 1.0 - p && disc >= 0.0
    requires 0.0 <= a <= Discounted(disc, k0, bound) && 0.0 <= b <= Discounted(disc, k0, bound)
    ensures 0.0 <= OneStep(disc, p, a, q, b) <= Discounted(disc, k, bound)
  {
    var m := Discounted(disc, k0, bound);
    assert Pow(disc, k) == disc * Pow(disc, k0);
    assert Discounted(disc, k, bound) == disc * m;
    MixBounds(p, a, q, b, m);
    ScaleBounds(disc, Mix(p, a, q, b), m);
  }

  /** A probability mix of values in [0, m] lies in [0, m]. */
  lemma MixBounds(p: real, a: real, q: real, b: real, m: real)
    requires 0.0 <= p <= 1.0 && q == 1.0 - p && 0.0 <= a <= m && 0.0 <= b <= m
    ensures 0.0 <= Mix(p, a, q, b) <= m
  {
    ProductNonnegative(p, a);
    ProductNonnegative(q, b);
    ProductNonnegative(p, m - a);
    ProductNonnegative(q, m - b);
    assert m - Mix(p, a, q, b) == p * (m - a) + q * (m - b);
  }

  lemma DiscountPositive(f: Factors)
    requires ValidFactors(f)
    ensures f.discount > 0.0
  {
  }

  /** Under no arbitrage (`down <= growth <= up`), the lattice price is at
      least zero and at most the largest terminal payoff discounted over all
      steps. */
  lemma LatticePriceBounds(t: OptionType, spot: real, strike: real, steps: nat, f: Factors)
    requires ValidFactors(f) && Down(f.up) <= f.growth <= f.up
    ensures 0.0 <= LatticePrice(t, spot, strike, steps, f)
    ensures LatticePrice(t, spot, strike, steps, f)
      <= Discounted(f.discount, steps, MaxOf(Payoffs(t, TerminalPrices(spot, f.up, steps), strike)))
  {
    var v := Payoffs(t, TerminalPrices(spot, f.up, steps), strike);
    var p := ProbUp(f.up, f.growth);
    DiscountPositive(f);
    var m := MaxOf(v);
    NodeValueBounds(v, p, 1.0 - p, f.discount, steps, 0, m);
  }

  // ----- put-call parity -----

  /** Backward induction is linear in the payoffs. */
  lemma {:induction false} NodeValueDifference(a: seq<real>, b: seq<real>, c: seq<real>,
                                               p: real, q: real, disc: real, k: nat, i: nat)
    requires |a| == |b| == |c| && i + k < |a|
    requires forall j :: 0 <= j < |a| ==> a[j] - b[j] == c[j]
    ensures NodeValue(a, p, q, disc, k, i) - NodeValue(b, p, q, disc, k, i) == NodeValue(c, p, q, disc, k, i)
  {
    if k > 0 {
      var k0, i1 := k - 1, i + 1;
      NodeValueDifference(a, b, c, p, q, disc, k0, i1);
      NodeValueDifference(a, b, c, p, q, disc, k0, i);
      DifferenceStep(disc, p, q,
                     NodeValue(a, p, q, disc, k0, i1), NodeValue(a, p, q, disc, k0, i),
                     NodeValue(b, p, q, disc, k0, i1), NodeValue(b, p, q, disc, k0, i),
                     NodeValue(c, p, q, disc, k0, i1), NodeValue(c, p, q, disc, k0, i));
    }
  }

  lemma DifferenceStep(disc: real, p: real, q: real, a1: real, a0: real, b1: real, b0: real, c1: real, c0: real)
    requires a1 - b1 == c1 && a0 - b0 == c0
    ensures OneStep(disc, p, a1, q, a0) - OneStep(disc, p, b1, q, b0) == OneStep(disc, p, c1, q, c0)
  {
    assert disc * (p * a1 + q * a0) - disc * (p * b1 + q * b0) == disc * (p * (a1 - b1) + q * (a0 - b0));
  }

  /** Terminal values `S_j - strike` of a forward contract. */
  function ForwardPayoffs(spot: real, strike: real, up: real, n: nat): (v: seq<real>)
    requires up > 0.0
    ensures |v| == n + 1
  {
    seq(n + 1, j requires 0 <= j <= n => NodePrice(spot, up, n, j) - strike)
  }

  /** Under the risk-neutral probability, the forward's node value is the
      node's underlying price less the strike discounted over `k` steps. */
  lemma {:induction false} ForwardNodeValue(spot: real, strike: real, f: Factors, n: nat, k: nat, i: nat)
    requires ValidFactors(f) && i + k <= n
    ensures var p := ProbUp(f.up, f.growth);
      NodeValue(ForwardPayoffs(spot, strike, f.up, n), p, 1.0 - p, f.discount, k, i)
        == NodePrice(spot, f.up, n - k, i) - Discounted(f.discount, k, strike)
  {
    if k > 0 {
      var p := ProbUp(f.up, f.growth);
      var v := ForwardPayoffs(spot, strike, f.up, n);
      var k0, i1 := k - 1, i + 1;
      ForwardNodeValue(spot, strike, f, n, k0, i1);
      ForwardNodeValue(spot, strike, f, n, k0, i);
      ForwardStep(spot, strike, f, n - k, n - k0, i, i1, k0, k,
                  NodeValue(v, p, 1.0 - p, f.discount, k0, i1), NodeValue(v, p, 1.0 - p, f.discount, k0, i));
    }
  }

  /** One step of backward induction on the forward's values: the price
      part and the strike part step back separately. */
  lemma ForwardStep(spot: real, strike: real, f: Factors, m: nat, m1: nat, i: nat, i1: nat, k0: nat, k: nat,
                    a: real, b: real)
    requires ValidFactors(f) && m1 == m + 1 && i1 == i + 1 && i <= m && k == k0 + 1
    requires a == NodePrice(spot, f.up, m1, i1) - Discounted(f.discount, k0, strike)
    requires b == NodePrice(spot, f.up, m1, i) - Discounted(f.discount, k0, strike)
    ensures var p := ProbUp(f.up, f.growth);
      OneStep(f.discount, p, a, 1.0 - p, b) == NodePrice(spot, f.up, m, i) - Discounted(f.discount, k, strike)
  {
    var p := ProbUp(f.up, f.growth);
    var x1, x0 := NodePrice(spot, f.up, m1, i1), NodePrice(spot, f.up, m1, i);
    var c := Discounted(f.discount, k0, strike);
    OneStepDifference(f.discount, p, 1.0 - p, x1, x0, c, a, b);
    NodePriceMartingale(spot, f, m, m1, i, i1);
    DiscountedStep(f.discount, p, 1.0 - p, k0, k, strike);
  }

  /** Backward induction is linear: subtracting the same value from both
      successors subtracts its one-step value. */
  lemma OneStepDifference(disc: real, p: real, q: real, x1: real, x0: real, c: real, a: real, b: real)
    requires a == x1 - c && b == x0 - c
    ensures OneStep(disc, p, a, q, b) == OneStep(disc, p, x1, q, x0) - OneStep(disc, p, c, q, c)
  {
    assert disc * (p * (x1 - c) + q * (x0 - c)) == disc * (p * x1 + q * x0) - disc * (p * c + q * c);
  }

  /** Under the risk-neutral probability the discounted expected price one
      step ahead is the price now. */
  lemma NodePriceMartingale(spot: real, f: Factors, m: nat, m1: nat, i: nat, i1: nat)
    requires ValidFactors(f) && m1 == m + 1 && i1 == i + 1 && i <= m
    ensures var p := ProbUp(f.up, f.growth);
      OneStep(f.discount, p, NodePrice(spot, f.up, m1, i1), 1.0 - p, NodePrice(spot, f.up, m1, i))
        == NodePrice(spot, f.up, m, i)
  {
    NodePriceUp(spot, f.up, m, m1, i, i1);
    NodePriceDown(spot, f.up, m, m1, i);
    var p := ProbUp(f.up, f.growth);
    MartingaleAlgebra(f, p, 1.0 - p, Down(f.up), NodePrice(spot, f.up, m, i),
                      NodePrice(spot, f.up, m1, i1), NodePrice(spot, f.up, m1, i));
  }

  /** The up-successor of a node is `up` times its price. */
  lemma NodePriceUp(spot: real, up: real, m: nat, m1: nat, i: nat, i1: nat)
    requires up > 0.0 && m1 == m + 1 && i1 == i + 1 && i <= m
    ensures NodePrice(spot, up, m1, i1) == up * NodePrice(spot, up, m, i)
  {
    assert Pow(up, i1) == up * Pow(up, i);
  }

  /** The down-successor of a node is `down` times its price. */
  lemma NodePriceDown(spot: real, up: real, m: nat, m1: nat, i: nat)
    requires up > 0.0 && m1 == m + 1 && i <= m
    ensures NodePrice(spot, up, m1, i) == Down(up) * NodePrice(spot, up, m, i)
  {
    assert Pow(Down(up), m1 - i) == Down(up) * Pow(Down(up), m - i);
  }

  lemma MartingaleAlgebra(f: Factors, p: real, q: real, d: real, s: real, x1: real, x0: real)
    requires ValidFactors(f) && Mix(p, f.up, q, d) == f.growth
    requires x1 == f.up * s && x0 == d * s
    ensures OneStep(f.discount, p, x1, q, x0) == s
  {
    calc {
      OneStep(f.discount, p, x1, q, x0);
      f.discount * (s * Mix(p, f.up, q, d));
      s * (f.discount * f.growth);
    }
  }

  /** A value discounted over `k0` steps, mixed with itself and discounted
      once more, is that value discounted over `k0 + 1` steps. */
  lemma DiscountedStep(disc: real, p: real, q: real, k0: nat, k: nat, x: real)
    requires q == 1.0 - p && k == k0 + 1
    ensures OneStep(disc, p, Discounted(disc, k0, x), q, Discounted(disc, k0, x)) == Discounted(disc, k, x)
  {
    var y := Discounted(disc, k0, x);
    assert Mix(p, y, q, y) == y;
    assert Pow(disc, k) == disc * Pow(disc, k0);
  }

  /** Lattice put-call parity: call minus put is the spot less the strike
      discounted over all `steps` steps, exactly. */
  lemma LatticeParity(spot: real, strike: real, steps: nat, f: Factors)
    requires ValidFactors(f)
    ensures LatticePrice(Call, spot, strike, steps, f) - LatticePrice(Put, spot, strike, steps, f)
      == spot - Discounted(f.discount, steps, strike)
  {
    var p := ProbUp(f.up, f.growth);
    var s := TerminalPrices(spot, f.up, steps);
    var c := Payoffs(Call, s, strike);
    var pt := Payoffs(Put, s, strike);
    var fw := ForwardPayoffs(spot, strike, f.up, steps);
    forall j | 0 <= j < |c|
      ensures c[j] - pt[j] == fw[j]
    {
      PayoffParity(s[j], strike);
    }
    NodeValueDifference(c, pt, fw, p, 1.0 - p, f.discount, steps, 0);
    ForwardNodeValue(spot, strike, f, steps, steps, 0);
    assert NodePrice(spot, f.up, 0, 0) == spot;
  }

  // ----- the pricer -----

  /** `option_prices[:-1] = disc·(p·option_prices[1:] + q·option_prices[:-1])`,
      element by element from the left, so that `a[i + 1]` is still old when
      `a[i]` is written. */
  method BackwardPass(a: array<real>, p: real, q: real, disc: real)
    requires a.Length >= 1
    modifies a
    ensures a[..] == Pass(old(a[..]), p, q, disc)
  {
    ghost var v := a[..];
    for i := 0 to a.Length - 1
      invariant forall j :: 0 <= j < i ==> a[j] == Pass(v, p, q, disc)[j]
      invariant forall j :: i <= j < a.Length ==> a[j] == v[j]
    {
      a[i] := OneStep(disc, p, a[i + 1], q, a[i]);
    }
  }

  /** The loop `for i in range(steps - 1, -1, -1)`: exactly `steps` passes;
      the loop variable is not used by the body. */
  method BackwardInduction(a: array<real>, steps: nat, p: real, q: real, disc: real)
    requires a.Length >= 1
    modifies a
    ensures a[..] == Passes(old(a[..]), p, q, disc, steps)
  {
    ghost var v := a[..];
    for i := steps downto 0
      invariant a[..] == Passes(v, p, q, disc, steps - i)
    {
      BackwardPass(a, p, q, disc);
    }
  }

  /** A European option priced on a binomial lattice of `steps` steps. */
  class Binomial {
    const spotPrice: real
    const strikePrice: real
    const timeToMaturity: real
    const riskFreeRate: real
    const volatility: real
    const steps: int

    constructor (spotPrice: real, strikePrice: real, timeToMaturityDays: int,
                 riskFreeRate: real, volatility: real, steps: int)
      ensures this.spotPrice == spotPrice && this.strikePrice == strikePrice
      ensures this.timeToMaturity == YearFraction(timeToMaturityDays)
      ensures this.riskFreeRate == riskFreeRate && this.volatility == volatility
      ensures this.steps == steps
    {
      this.spotPrice := spotPrice;
      this.strikePrice := strikePrice;
      this.timeToMaturity := YearFraction(timeToMaturityDays);
      this.riskFreeRate := riskFreeRate;
      this.volatility := volatility;
      this.steps := steps;
    }

    /** `delta_t`, the length of one lattice step; the factors are the
        exponentials of multiples of it. */
    function DeltaT(): (dt: real)
      requires steps >= 1
      ensures dt * steps as real == timeToMaturity
      ensures timeToMaturity > 0.0 ==> dt > 0.0
    {
      StepLength(timeToMaturity, steps)
    }

    /** Fills a fresh vector with the terminal payoffs of option type `t`. */
    method TerminalPayoffs(t: OptionType, up: real) returns (a: array<real>)
      requires steps >= 0 && up > 0.0
      ensures fresh(a)
      ensures a[..] == Payoffs(t, TerminalPrices(spotPrice, up, steps), strikePrice)
    {
      var finalAssetPrices := TerminalPrices(spotPrice, up, steps);
      a := new real[steps + 1];
      for j := 0 to steps + 1
        invariant forall k :: 0 <= k < j ==> a[k] == Payoff(t, finalAssetPrices[k], strikePrice)
      {
        a[j] := Payoff(t, finalAssetPrices[j], strikePrice);
      }
    }

    /** `_compute_call_price`. */
    method ComputeCallPrice(f: Factors) returns (price: real)
      requires steps >= 1 && ValidFactors(f)
      ensures price == LatticePrice(Call, spotPrice, strikePrice, steps, f)
    {
      var probUp := ProbUp(f.up, f.growth);
      var probDown := 1.0 - probUp;
      var optionPrices := TerminalPayoffs(Call, f.up);
      ghost var v := optionPrices[..];
      BackwardInduction(optionPrices, steps, probUp, probDown, f.discount);
      PassesComputeNodeValues(v, probUp, probDown, f.discount, steps, 0);
      price := optionPrices[0];
    }

    /** `_compute_put_price`. */
    method ComputePutPrice(f: Factors) returns (price: real)
      requires steps >= 1 && ValidFactors(f)
      ensures price == LatticePrice(Put, spotPrice, strikePrice, steps, f)
    {
      var probUp := ProbUp(f.up, f.growth);
      var probDown := 1.0 - probUp;
      var optionPrices := TerminalPayoffs(Put, f.up);
      ghost var v := optionPrices[..];
      BackwardInduction(optionPrices, steps, probUp, probDown, f.discount);
      PassesComputeNodeValues(v, probUp, probDown, f.discount, steps, 0);
      price := optionPrices[0];
    }

    /** `PricingModel.compute_option_price` as inherited by this pricer: the
        call hook for the call label, the put hook for the put label, and the
        sentinel without pricing anything for any other label. */
    method ComputeOptionPrice(optionType: string, f: Factors) returns (price: real)
      requires Route(optionType).Some? ==> steps >= 1 && ValidFactors(f)
      ensures optionType == Label(Call) ==> price == LatticePrice(Call, spotPrice, strikePrice, steps, f)
      ensures optionType == Label(Put) ==> price == LatticePrice(Put, spotPrice, strikePrice, steps, f)
      ensures optionType != Label(Call) && optionType != Label(Put) ==> price == Sentinel
    {
      RouteLabel(Call);
      match Route(optionType)
      case Some(Call) =>
        price := ComputeCallPrice(f);
      case Some(Put) =>
        price := ComputePutPrice(f);
      case None =>
        price := Sentinel;
    }
  }
}

/** The Monte Carlo pricer: price paths filled row by row from per-step growth
    factors, and the discounted mean payoff over the final row of the paths. */
module MonteCarlo {
  import opened Numeric
  import opened Base

  /** Why a pricing routine yields no price. */
  datatype PricingError =
    | MissingAttribute  // `simulation_results` was never assigned
    | NotANumber        // `np.mean` over zero simulations

  datatype Result<T> = Success(value: T) | Failure(error: PricingError)

  /** The attribute `simulation_results`: never assigned (the constructor does
      not set it), reset to `None` at the start of a simulation, or holding the
      matrix of simulated prices, one row per step and one column per path. */
  datatype SimulationResults = Unassigned | Cleared | Simulated(paths: array2<real>)

  /** `rows` rows of growth factors with `cols` factors each. */
  predicate Shaped(factors: seq<seq<real>>, rows: int, cols: int)
  {
    |factors| == rows && forall t :: 0 <= t < |factors| ==> |factors[t]| == cols
  }

  /** What the exponential guarantees of every growth factor. */
  predicate PositiveFactors(factors: seq<seq<real>>)
  {
    forall t, s :: 0 <= t < |factors| && 0 <= s < |factors[t]| ==> factors[t][s] > 0.0
  }

  /** Price on path `s` after `t` steps: the spot times the growth factors of
      steps 1..t of that path. */
  function PathPrice(spot: real, factors: seq<seq<real>>, t: nat, s: nat): (price: real)
    requires t <= |factors| && forall r :: 0 <= r < |factors| ==> s < |factors[r]|
    ensures t == 0 ==> price == spot
    ensures spot == 0.0 ==> price == 0.0
  {
    if t == 0 then spot else PathPrice(spot, factors, t - 1, s) * factors[t - 1][s]
  }

  /** From a positive spot, positive growth factors keep every price positive. */
  lemma {:induction false} PathPricePositive(spot: real, factors: seq<seq<real>>, t: nat, s: nat)
    requires t <= |factors| && forall r :: 0 <= r < |factors| ==> s < |factors[r]|
    requires spot > 0.0 && PositiveFactors(factors)
    ensures PathPrice(spot, factors, t, s) > 0.0
  {
    if t > 0 {
      PathPricePositive(spot, factors, t - 1, s);
      ProductPositive(PathPrice(spot, factors, t - 1, s), factors[t - 1][s]);
    }
  }

  lemma ProductPositive(x: real, y: real)
    requires x > 0.0 && y > 0.0
    ensures x * y > 0.0
  {
  }

  /** With the same growth factor `g` at every step, a path has grown by
      `g^t` after `t` steps. */
  lemma {:induction false} ConstantGrowthPath(spot: real, factors: seq<seq<real>>, g: real, t: nat, s: nat)
    requires t <= |factors| && forall r :: 0 <= r < |factors| ==> s < |factors[r]|
    requires forall r :: 0 <= r < |factors| ==> factors[r][s] == g
    ensures PathPrice(spot, factors, t, s) == spot * Pow(g, t)
  {
    if t > 0 {
      ConstantGrowthPath(spot, factors, g, t - 1, s);
      assert spot * Pow(g, t - 1) * g == spot * (g * Pow(g, t - 1));
    }
  }

  /** `exp(-r·T)·np.mean(payoffs)` for the final prices `last`. */
  function Estimate(t: OptionType, discount: real, last: seq<real>, strike: real): (e: real)
    requires |last| > 0
    ensures e * |last| as real == discount * Sum(Payoffs(t, last, strike))
  {
    var v := Payoffs(t, last, strike);
    DiscountedMean(discount, Sum(v), |v| as real);
    discount * Mean(v)
  }

  lemma DiscountedMean(discount: real, sum: real, n: real)
    requires n > 0.0
    ensures discount * (sum / n) * n == discount * sum
  {
  }

  /** The estimate lies between zero and any bound on the payoffs (the
      largest payoff among them), discounted. */
  lemma EstimateBounds(t: OptionType, discount: real, last: seq<real>, strike: real, bound: real)
    requires |last| > 0 && discount >= 0.0
    requires forall j :: 0 <= j < |last| ==> Payoff(t, last[j], strike) <= bound
    ensures 0.0 <= Estimate(t, discount, last, strike) <= discount * bound
  {
    var v := Payoffs(t, last, strike);
    MeanBounds(v, bound);
    var mean := Mean(v);
    ScaleBounds(discount, mean, bound);
    assert Estimate(t, discount, last, strike) == discount * mean;
  }

  /** Monte Carlo put-call parity: on the same paths, the call estimate exceeds
      the put estimate by the discounted mean final price less the discounted
      strike. */
  lemma EstimateParity(discount: real, last: seq<real>, strike: real)
    requires |last| > 0
    ensures Estimate(Call, discount, last, strike) - Estimate(Put, discount, last, strike)
      == discount * (Mean(last) - strike)
  {
    var c, p := Payoffs(Call, last, strike), Payoffs(Put, last, strike);
    PayoffsParity(last, strike);
    MeanShift(c, p, last, strike);
    assert discount * Mean(c) - discount * Mean(p) == discount * (Mean(c) - Mean(p));
  }

  /** Rows `0..rows - 1` of `paths` hold the prices of the simulated paths. */
  ghost predicate RowsSimulated(paths: array2<real>, spot: real, factors: seq<seq<real>>, rows: int)
    reads paths
  {
    Shaped(factors, paths.Length0 - 1, paths.Length1) && 0 <= rows <= paths.Length0 &&
    forall r, c :: 0 <= r < rows && 0 <= c < paths.Length1 ==>
      paths[r, c] == PathPrice(spot, factors, r, c)
  }

  /** `price_paths[0] = spot_price`. */
  method SetFirstRow(paths: array2<real>, spot: real)
    requires paths.Length0 >= 1
    modifies paths
    ensures forall c :: 0 <= c < paths.Length1 ==> paths[0, c] == spot
    ensures forall r, c :: 1 <= r < paths.Length0 && 0 <= c < paths.Length1 ==>
      paths[r, c] == old(paths[r, c])
  {
    for c := 0 to paths.Length1
      invariant forall k :: 0 <= k < c ==> paths[0, k] == spot
      invariant forall r, k :: 1 <= r < paths.Length0 && 0 <= k < paths.Length1 ==>
        paths[r, k] == old(paths[r, k])
    {
      paths[0, c] := spot;
    }
  }

  /** `price_paths[t] = price_paths[t - 1] * exp(...)`: row `t` becomes row
      `t - 1` grown by the factors of step `t`; the other rows are kept. */
  method GrowRow(paths: array2<real>, factors: seq<seq<real>>, t: int)
    requires 1 <= t < paths.Length0 && Shaped(factors, paths.Length0 - 1, paths.Length1)
    modifies paths
    ensures forall c :: 0 <= c < paths.Length1 ==> paths[t, c] == old(paths[t - 1, c]) * factors[t - 1][c]
    ensures forall r, c :: 0 <= r < paths.Length0 && r != t && 0 <= c < paths.Length1 ==>
      paths[r, c] == old(paths[r, c])
  {
    for c := 0 to paths.Length1
      invariant forall k :: 0 <= k < c ==> paths[t, k] == old(paths[t - 1, k]) * factors[t - 1][k]
      invariant forall r, k :: 0 <= r < paths.Length0 && 0 <= k < paths.Length1 && (r != t || k >= c) ==>
        paths[r, k] == old(paths[r, k])
    {
      paths[t, c] := paths[t - 1, c] * factors[t - 1][c];
    }
  }

  /** A European option priced by simulating `numSimulations` price paths of
      `numSteps` daily steps. */
  class MonteCarloSimulation {
    const spotPrice: real
    const strikePrice: real
    const timeToMaturity: real
    const riskFreeRate: real
    const volatility: real
    const numSimulations: int
    const numSteps: int
    const dt: real
    var simulationResults: SimulationResults

    /** A simulated matrix has `num_steps` rows and `num_simulations` columns. */
    ghost predicate Valid()
      reads this
    {
      numSteps != 0 &&
      (simulationResults.Simulated? ==>
         numSteps >= 1 && numSimulations >= 0 &&
         simulationResults.paths.Length0 == numSteps &&
         simulationResults.paths.Length1 == numSimulations)
    }

    /** One step per day to maturity, each a day long; nothing simulated yet. */
    constructor (spotPrice: real, strikePrice: real, maturityDays: int, riskFreeRate: real,
                 volatility: real, numSimulations: int)
      requires maturityDays != 0
      ensures this.spotPrice == spotPrice && this.strikePrice == strikePrice
      ensures this.timeToMaturity == YearFraction(maturityDays)
      ensures this.riskFreeRate == riskFreeRate && this.volatility == volatility
      ensures this.numSimulations == numSimulations && numSteps == maturityDays
      ensures dt * numSteps as real == timeToMaturity && dt == 1.0 / 365.0
      ensures simulationResults == Unassigned && Valid()
    {
      this.spotPrice := spotPrice;
      this.strikePrice := strikePrice;
      this.timeToMaturity := YearFraction(maturityDays);
      this.riskFreeRate := riskFreeRate;
      this.volatility := volatility;
      this.numSimulations := numSimulations;
      this.numSteps := maturityDays;
      var days := maturityDays as real;
      this.dt := YearFraction(maturityDays) / days;
      assert YearFraction(maturityDays) / days * days == YearFraction(maturityDays);
      assert days / 365.0 / days == 1.0 / 365.0;
      this.simulationResults := Unassigned;
    }

    /** `simulate_price_paths`, where `factors[t - 1][s]` stands for the
        exponential of the Brownian increment of path `s` at step `t`. The
        attribute is reset first; a negative dimension makes `np.zeros` raise
        and leaves it reset. Otherwise row 0 holds the spot and row `t` is row
        `t - 1` grown by the factors of step `t`. */
    method SimulatePricePaths(factors: seq<seq<real>>) returns (raised: bool)
      requires Valid()
      requires numSteps >= 1 && numSimulations >= 0 ==> Shaped(factors, numSteps - 1, numSimulations)
      modifies this
      ensures Valid()
      ensures raised <==> numSteps < 0 || numSimulations < 0
      ensures raised ==> simulationResults == Cleared
      ensures !raised ==> simulationResults.Simulated? && fresh(simulationResults.paths)
      ensures !raised ==> forall t, s :: 0 <= t < numSteps && 0 <= s < numSimulations ==>
        simulationResults.paths[t, s] == PathPrice(spotPrice, factors, t, s)
    {
      simulationResults := Cleared;
      if numSteps < 0 || numSimulations < 0 {
        raised := true;
        return;
      }
      var pricePaths := new real[numSteps, numSimulations]((t, s) => 0.0);
      SetFirstRow(pricePaths, spotPrice);
      for t := 1 to numSteps
        invariant RowsSimulated(pricePaths, spotPrice, factors, t)
      {
        GrowRow(pricePaths, factors, t);
      }
      simulationResults := Simulated(pricePaths);
      raised := false;
    }

    /** `simulation_results[-1]`: the prices after the last simulated step. */
    function LastRow(): (row: seq<real>)
      requires Valid() && simulationResults.Simulated?
      reads this, simulationResults.paths
      ensures |row| == numSimulations
      ensures forall s :: 0 <= s < numSimulations ==> row[s] == simulationResults.paths[numSteps - 1, s]
    {
      var paths := simulationResults.paths;
      seq(paths.Length1, s requires 0 <= s < paths.Length1 reads paths => paths[paths.Length0 - 1, s])
    }

    /** `_compute_call_option_price`, with `discount` standing for `exp(-r·T)`. */
    function ComputeCallOptionPrice(discount: real): (r: Result<real>)
      requires Valid()
      reads this, if simulationResults.Simulated? then {simulationResults.paths} else {}
      ensures r == Failure(MissingAttribute) <==> simulationResults.Unassigned?
      ensures simulationResults.Cleared? ==> r == Success(Sentinel)
      ensures r == Failure(NotANumber) <==> simulationResults.Simulated? && numSimulations == 0
      ensures simulationResults.Simulated? && numSimulations > 0 ==>
        r == Success(Estimate(Call, discount, LastRow(), strikePrice))
    {
      match simulationResults
      case Unassigned => Failure(MissingAttribute)
      case Cleared => Success(Sentinel)
      case Simulated(_) =>
        if numSimulations == 0 then Failure(NotANumber)
        else Success(Estimate(Call, discount, LastRow(), strikePrice))
    }

    /** `_compute_put_option_price`, with `discount` standing for `exp(-r·T)`. */
    function ComputePutOptionPrice(discount: real): (r: Result<real>)
      requires Valid()
      reads this, if simulationResults.Simulated? then {simulationResults.paths} else {}
      ensures r == Failure(MissingAttribute) <==> simulationResults.Unassigned?
      ensures simulationResults.Cleared? ==> r == Success(Sentinel)
      ensures r == Failure(NotANumber) <==> simulationResults.Simulated? && numSimulations == 0
      ensures simulationResults.Simulated? && numSimulations > 0 ==>
        r == Success(Estimate(Put, discount, LastRow(), strikePrice))
    {
      match simulationResults
      case Unassigned => Failure(MissingAttribute)
      case Cleared => Success(Sentinel)
      case Simulated(_) =>
        if numSimulations == 0 then Failure(NotANumber)
        else Success(Estimate(Put, discount, LastRow(), strikePrice))
    }

    /** With paths simulated, the price of option type `t` lies between zero
        and any bound on the payoffs over the final row, discounted. */
    lemma PriceBounds(t: OptionType, discount: real, bound: real)
      requires Valid() && simulationResults.Simulated? && numSimulations > 0 && discount >= 0.0
      requires forall s :: 0 <= s < numSimulations ==> Payoff(t, LastRow()[s], strikePrice) <= bound
      ensures var r := if t == Call then ComputeCallOptionPrice(discount) else ComputePutOptionPrice(discount);
        r.Success? && 0.0 <= r.value <= discount * bound
    {
      EstimateBounds(t, discount, LastRow(), strikePrice, bound);
    }

    /** With paths simulated, call minus put is the discounted mean final
        price less the discounted strike. */
    lemma PriceParity(discount: real)
      requires Valid() && simulationResults.Simulated? && numSimulations > 0
      ensures ComputeCallOptionPrice(discount).Success? && ComputePutOptionPrice(discount).Success?
      ensures ComputeCallOptionPrice(discount).value - ComputePutOptionPrice(discount).value
        == discount * (Mean(LastRow()) - strikePrice)
    {
      EstimateParity(discount, LastRow(), strikePrice);
    }
  }
}

# Option_Pricing in Dafny

The repository prices European call and put options in two ways, behind one
shared interface:

- **Binomial lattice** (`Binomial`). This is the Cox-Ross-Rubinstein tree.
  - It computes the terminal prices `spot·u^j·d^(N-j)` and their payoffs.
  - It runs exactly `N` passes of backward induction over one vector, overwritten in place.
  - It returns entry 0.
- **Monte Carlo** (`MonteCarloSimulation`).
  - It fills a matrix of simulated price paths row by row. Each row is the previous row times per-path growth factors.
  - It then returns the discounted mean payoff over the final row.
- **Dispatch** (`PricingModel.compute_option_price`). It maps the labels `"Call Option"` and `"Put Option"` to the call and put routines. Any other label gives `-1`.

The model is four modules:

- `Numeric`: exact powers, sums, means, maxima and binomial coefficients.
- `Base`: option types, labels, dispatch, payoffs and day counts.
- `Lattice`: the binomial pricer.
- `MonteCarlo`: the simulation pricer.

Floating-point numbers are modelled as exact `real`. The exponentials and the
random draws are passed in as parameters (see "Left out").

**Binomial pricer.** The pricer is a class whose methods allocate an `array`,
fill it with payoffs and overwrite it in place.

- **One pass.** Each pass runs left to right, so `a[i + 1]` is still the old
  value when `a[i]` is written. This is what numpy's vectorised assignment
  does. The last entry is never written.
- **Specification functions.** `Pass`, `Passes` and the recursive `NodeValue`
  specify the passes. `PassesComputeNodeValues` proves that after `k` passes,
  entry `i` holds the node value `k` levels back.
- **Closed form.** The price is `disc^N · Σ_j C(N, j)·p^j·q^(N-j)·payoff_j`,
  proved through rows of binomial weights built by Pascal mixing.
- **Bounds.** With a genuine probability, the price lies between zero and the
  largest payoff discounted over all steps.
- **Put-call parity.** Call minus put is exactly `spot - strike·disc^N`.
  - First, backward induction is linear.
  - Second, the discounted price process is a martingale under `p`.

**Monte Carlo pricer.**

- **Paths.** `SimulatePricePaths` is proved to fill every entry `[t, s]` with
  `PathPrice`, the spot times the growth factors of steps `1..t` of path `s`.
  - `simulate_price_paths` applies only `num_steps - 1` updates, so the final
    row is one step short of maturity.
  - `ConstantGrowthPath` makes this concrete: with a constant factor `g`, the
    last row is `spot·g^(num_steps - 1)`.
- **Pricing routines.** They read the attribute `simulation_results`, which has
  three states:
  - never assigned: the constructor does not set it, and Python raises
    `AttributeError`;
  - reset to `None` (pricing then returns `-1`);
  - holding the matrix.
- **Zero simulations.** The mean over zero paths is `nan`; the model reports
  it as an error value.
- **Estimate.** It lies between zero and the discounted bound on the payoffs.
  Call minus put equals `disc·(mean final price - strike)`.

## Model

| member | source | states |
|---|---|---|
| Numeric.Positive | Binomial.py:54 | `np.maximum(x, 0)` is at least zero and at least `x`, and is one of the two |
| Numeric.MeanBounds | MCS.py:68 | the mean of entries in [0, b] lies in [0, b] |
| Numeric.SumShift | MCS.py:77 | if each entry of `a` exceeds the entry of `b` by the entry of `c` less `x`, the sums differ by the sum of `c` less `x` once per entry |
| Numeric.MeanShift | MCS.py:68 | if two sums differ by a third sum less `x` per entry, the means differ by the third mean less `x` |
| Base.Label | base.py:5-6 | the call type's value is `"Call Option"` and the put type's value is `"Put Option"` |
| Base.Route | base.py:11-18 | a label routes to a type only if it is that type's label; no type is chosen exactly when the label is neither |
| Base.RouteLabel | base.py:4-6 | the two labels differ, and each label routes back to its own option type |
| Base.Payoff | Binomial.py:54 | a payoff is never negative, and is positive only in the money (above the strike for a call, below for a put) |
| Base.PayoffParity | Binomial.py:79 | per price, call payoff minus put payoff is price minus strike |
| Base.Payoffs | MCS.py:67 | the elementwise payoff vector keeps the length of the prices and has no negative entry |
| Base.PayoffsParity | MCS.py:77 | summed over a vector, call payoffs minus put payoffs is the sum of prices less the strike once per price |
| Base.YearFraction | Binomial.py:32 | years times 365 is the day count, positive for a positive count |
| Base.StepLength | Binomial.py:40 | `steps` steps of the returned length make up the horizon, and are positive for a positive horizon |
| Lattice.Down | Binomial.py:42 | the down factor is positive, and its product with the up factor is 1; it is below 1 when up is above 1 |
| Lattice.ProbUp | Binomial.py:50-52 | with `q = 1 - p`, `p·u + q·d` equals the risk-free growth; `p` is a probability iff `d <= growth <= u` |
| Lattice.NodePrice | Binomial.py:48 | the price after `j` up moves and `n - j` down moves is positive when the spot is positive |
| Lattice.TerminalPrices | Binomial.py:48 | level `N` of the tree has `N + 1` prices |
| Lattice.TerminalPriceStep | Binomial.py:48 | trading a down move for an up move never lowers a terminal price when `u >= 1` |
| Lattice.TerminalPricesSorted | Binomial.py:48 | terminal prices are non-decreasing in the number of up moves when `u >= 1` |
| Lattice.Pass | Binomial.py:58 | one assignment `option_prices[:-1] = ...` keeps the vector's length and leaves its last entry as it was |
| Lattice.Passes | Binomial.py:57-58 | repeated passes keep the length and never change the last entry |
| Lattice.PassesComputeNodeValues | Binomial.py:57-60 | after `k` passes, entry `i` for `i + k <= N` holds the node value `k` levels back |
| Lattice.BinomialRowWeights | Binomial.py:57-60 | the mixing weights after `k` passes are `C(k, j)·p^j·q^(k-j)` |
| Lattice.ExpectationStep | Binomial.py:58 | the expectation over `k + 1` steps mixes the expectations over `k` steps from the two successor nodes |
| Lattice.NodeValueClosedForm | Binomial.py:57-58 | the node value `k` levels back is the binomial expectation of the payoffs ahead, discounted `k` times |
| Lattice.LatticePrice | Binomial.py:57-60 | the returned price is entry 0 of the terminal payoffs after `steps` passes |
| Lattice.LatticePriceClosedForm | Binomial.py:57-60 | the returned price is `disc^N` times the binomial expectation of the terminal payoffs |
| Lattice.NodeValueBounds | Binomial.py:58 | with `0 <= p <= 1` and payoffs in [0, b], each node value lies in [0, disc^k·b] |
| Lattice.LatticePriceBounds | Binomial.py:83-85 | with no arbitrage (`d <= growth <= u`), the price lies between 0 and the largest payoff discounted over all steps |
| Lattice.NodeValueDifference | Binomial.py:82-83 | backward induction is linear: the difference of two payoff vectors gives the difference of their node values |
| Lattice.NodePriceMartingale | Binomial.py:50-51 | the discounted risk-neutral mix of a node's two successor prices is the node's own price |
| Lattice.ForwardNodeValue | Binomial.py:58 | for payoffs `S_j - K`, the node value is the node's price less the strike discounted `k` times |
| Lattice.LatticeParity | Binomial.py:48-60 | call price minus put price is `spot - disc^N·strike`, exactly |
| Lattice.BackwardPass | Binomial.py:58 | the left-to-right loop leaves the array equal to one pass over its old contents |
| Lattice.BackwardInduction | Binomial.py:57-58 | the loop runs exactly `steps` passes over the array |
| Lattice.Binomial.constructor | Binomial.py:30-35 | stores the inputs and converts days to years |
| Lattice.Binomial.DeltaT | Binomial.py:40 | `steps` steps of length `delta_t` make up the time to maturity, and `delta_t` is positive when that time is |
| Lattice.Binomial.TerminalPayoffs | Binomial.py:45-54 | a fresh array holds the payoffs of the terminal prices |
| Lattice.Binomial.ComputeCallPrice | Binomial.py:37-60 | the returned value is the lattice price of the call |
| Lattice.Binomial.ComputePutPrice | Binomial.py:62-85 | the returned value is the lattice price of the put |
| Lattice.Binomial.ComputeOptionPrice | base.py:11-18 | the call label prices the call, the put label prices the put, any other label returns -1 |
| MonteCarlo.PathPrice | MCS.py:49-56 | row 0 of a path is the spot, and a path from a zero spot stays at zero |
| MonteCarlo.PathPricePositive | MCS.py:55-56 | from a positive spot, positive growth factors keep every simulated price positive |
| MonteCarlo.ConstantGrowthPath | MCS.py:51-56 | with a constant factor `g`, the price after `t` updates is `spot·g^t` |
| MonteCarlo.Estimate | MCS.py:67-68 | the estimate times the number of paths is the discount times the summed payoffs over the final row |
| MonteCarlo.EstimateBounds | MCS.py:67-68 | the discounted mean payoff lies between 0 and any payoff bound, discounted |
| MonteCarlo.EstimateParity | MCS.py:77-78 | call estimate minus put estimate is `disc·(mean final price - strike)` |
| MonteCarlo.SetFirstRow | MCS.py:49 | every column of row 0 holds the spot |
| MonteCarlo.GrowRow | MCS.py:55-56 | row `t` becomes row `t - 1` times the step-`t` factors, and no other row changes |
| MonteCarlo.MonteCarloSimulation.constructor | MCS.py:28-37 | one step per day, each `1/365` of a year and together the whole maturity; `simulation_results` is not assigned |
| MonteCarlo.MonteCarloSimulation.SimulatePricePaths | MCS.py:43-58 | the attribute is reset, then a negative dimension raises; otherwise it holds a fresh `num_steps × num_simulations` matrix whose entry `[t, s]` is the price of path `s` after `t` updates |
| MonteCarlo.MonteCarloSimulation.LastRow | MCS.py:67 | the final row has one entry per simulation, read from the last row of the matrix |
| MonteCarlo.MonteCarloSimulation.ComputeCallOptionPrice | MCS.py:60-68 | never assigned gives the missing-attribute error, `None` gives -1, zero paths give nan, and otherwise the discounted mean call payoff |
| MonteCarlo.MonteCarloSimulation.ComputePutOptionPrice | MCS.py:70-78 | the same four outcomes with the put payoff |
| MonteCarlo.MonteCarloSimulation.PriceBounds | MCS.py:65-78 | after simulation, both prices lie between 0 and any bound on the final-row payoffs, discounted |
| MonteCarlo.MonteCarloSimulation.PriceParity | MCS.py:65-78 | after simulation, call minus put is `disc·(mean final price - strike)` |

## Left out

- The exponentials and square roots (`Binomial.py:41`, `Binomial.py:50`, `Binomial.py:58`, `MCS.py:55-56`, `MCS.py:68`) are transcendental.
  - The lattice takes `Factors(up, growth, discount)` instead, with `up > 1`, `growth > 0` and `discount·growth = 1`.
  - The Monte Carlo pricer takes a matrix of growth factors and a `discount` for `exp(-r·T)`.
  - The model does not tie these values to the volatility, the rate or the step length.
- Floating-point rounding is not modelled. The model uses exact `real`, so the identities and parities hold exactly.
- `np.random.seed(20)` and `np.random.standard_normal` are global randomness. They are replaced by the injected factor matrix.
- Lattice.Binomial.ComputeCallPrice: requires `steps >= 1` and `up > 1`.
  - `steps = 0` raises `ZeroDivisionError` at line 40.
  - `steps <= -2` makes `np.zeros(steps + 1)` raise at line 45.
  - `steps = -1` gets past line 45, since `np.zeros(0)` is an empty vector. The negative `delta_t` makes `np.sqrt` return `nan`, the loop at line 57 runs no pass, and `option_prices[0]` raises `IndexError` at line 60.
  - None of these exceptions is modelled.
  - `up > 1` excludes zero volatility, where line 51 divides by `u - d = 0`, and negative volatility, where `u < 1`.
- Lattice.Binomial.ComputePutPrice: the same requirements, with the same failures at lines 65, 70 and 85, and the division at line 76.
- Lattice.ProbUp: requires `up > 1`, for the same reason.
- MonteCarlo.MonteCarloSimulation.constructor: requires `maturity_days != 0`. Line 37 otherwise raises `ZeroDivisionError`; that exception is not modelled.
- MonteCarlo.EstimateBounds: states the upper bound for any bound on the payoffs, rather than for the largest payoff only. The largest payoff is one such bound.
- Python's abstract-base-class machinery is not modelled.
  - `MonteCarloSimulation` defines `_compute_call_option_price` and `_compute_put_option_price`. It does not define the hooks `_compute_call_price` and `_compute_put_price` that `compute_option_price` calls.
  - So in Python the class cannot be instantiated, and dispatch never reaches its routines.
  - The model gives the Monte Carlo routines directly, without dispatch.
- `plot_simulation_paths` (`MCS.py:80-90`) is matplotlib presentation.
- Statistical claims are probabilistic or analytic and not modelled: convergence to Black-Scholes, the `1/sqrt(n)` standard error.
- The unused `scipy.stats.norm` imports are not modelled.

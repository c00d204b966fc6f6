/** What both pricing engines share: the two option types and their labels,
    the label dispatch of `PricingModel.compute_option_price`, the payoff at
    expiry, and the day-count convention. */
module Base {
  import opened Numeric

  datatype Option<+T> = None | Some(value: T)

  /** `OptionType`: a closed enumeration of two variants. */
  datatype OptionType = Call | Put

  /** The value the label dispatch returns for a label it does not know. */
  const Sentinel: real := -1.0

  /** `OptionType.CALL.value` and `OptionType.PUT.value`. */
  function Label(t: OptionType): (r: string)
    ensures t == Call ==> r == "Call Option"
    ensures t == Put ==> r == "Put Option"
  {
    match t
    case Call => "Call Option"
    case Put => "Put Option"
  }

  /** The hook `compute_option_price` runs for `optionType`, or `None` when it
      returns the sentinel without running either hook. */
  function Route(optionType: string): (r: Option<OptionType>)
    ensures r.Some? ==> Label(r.value) == optionType
    ensures r.None? <==> forall t: OptionType :: Label(t) != optionType
  {
    if optionType == Label(Call) then Some(Call)
    else if optionType == Label(Put) then Some(Put)
    else None
  }

  /** The labels tell the two types apart, so each label routes back to its own type. */
  lemma RouteLabel(t: OptionType)
    ensures Route(Label(t)) == Some(t)
    ensures Label(Call) != Label(Put)
  {
  }

  /** Payoff at expiry of one option of type `t` on an underlying priced `s`. */
  function Payoff(t: OptionType, s: real, strike: real): (v: real)
    ensures v >= 0.0
    ensures v > 0.0 ==> (if t == Call then s > strike else s < strike)
  {
    match t
    case Call => Positive(s - strike)
    case Put => Positive(strike - s)
  }

  /** Per entry, a call pays the put's payoff plus the forward `s - strike`. */
  lemma PayoffParity(s: real, strike: real)
    ensures Payoff(Call, s, strike) - Payoff(Put, s, strike) == s - strike
  {
  }

  /** `np.maximum(prices - strike, 0)` or `np.maximum(strike - prices, 0)`. */
  function Payoffs(t: OptionType, prices: seq<real>, strike: real): (v: seq<real>)
    ensures |v| == |prices|
    ensures forall j :: 0 <= j < |v| ==> v[j] >= 0.0
  {
    seq(|prices|, j requires 0 <= j < |prices| => Payoff(t, prices[j], strike))
  }

  /** Summed over a vector of prices, the call payoffs exceed the put payoffs
      by the sum of the prices less the strike once per price. */
  lemma PayoffsParity(prices: seq<real>, strike: real)
    ensures Sum(Payoffs(Call, prices, strike)) - Sum(Payoffs(Put, prices, strike))
      == Sum(prices) - |prices| as real * strike
  {
    var calls, puts := Payoffs(Call, prices, strike), Payoffs(Put, prices, strike);
    forall j | 0 <= j < |prices|
      ensures calls[j] - puts[j] == prices[j] - strike
    {
      PayoffParity(prices[j], strike);
    }
    SumShift(calls, puts, prices, strike);
  }

  /** Time to maturity in years from a day count: `days / 365`. */
  function YearFraction(days: int): (years: real)
    ensures years * 365.0 == days as real
    ensures days > 0 ==> years > 0.0
  {
    days as real / 365.0
  }

  /** Length of one of `steps` equal steps over `horizon` years. */
  function StepLength(horizon: real, steps: int): (dt: real)
    requires steps >= 1
    ensures dt * steps as real == horizon
    ensures horizon > 0.0 ==> dt > 0.0
  {
    horizon / steps as real
  }
}

/**
 * Black-Scholes price and vega of a European option. The degenerate
 * inputs, the zero floor and the way the closed form is assembled are
 * modelled exactly; the transcendental pieces (d1, the square root, the
 * exponential, the standard normal CDF and PDF) are parameters.
 */
module BlackScholes {

  datatype OptionKind = Call | Put

  /**
   * The transcendental functions of the closed form:
   * d1(S, K, T, r, sigma) = (ln(S/K) + (r + sigma^2/2) T) / (sigma sqrt T),
   * cdf = 0.5 (1 + erf(x / sqrt 2)), pdf = exp(-x^2/2) / sqrt(2 pi).
   */
  datatype ClosedForm = ClosedForm(
    d1: (real, real, real, real, real) -> real,
    sqrt: real -> real,
    exp: real -> real,
    cdf: real -> real,
    pdf: real -> real)

  /** max(S - K, 0) for a call, max(K - S, 0) for a put. */
  function Intrinsic(spot: real, strike: real, kind: OptionKind): (v: real)
    ensures v >= 0.0
    ensures kind == Call ==> v >= spot - strike && (v == 0.0 || v == spot - strike)
    ensures kind == Put ==> v >= strike - spot && (v == 0.0 || v == strike - spot)
  {
    match kind
    case Call => if spot - strike > 0.0 then spot - strike else 0.0
    case Put => if strike - spot > 0.0 then strike - spot else 0.0
  }

  /** True when the closed form is bypassed (no time left or no volatility). */
  predicate Degenerate(time: real, vol: real)
  {
    time <= 0.0 || vol <= 0.0
  }

  /** The closed-form value before flooring, defined only off the degenerate inputs. */
  function ClosedFormPrice(m: ClosedForm, spot: real, strike: real, time: real, rate: real,
                           vol: real, kind: OptionKind): real
  {
    var d1 := m.d1(spot, strike, time, rate, vol);
    var d2 := d1 - vol * m.sqrt(time);
    var discount := m.exp(-rate * time);
    match kind
    case Call => spot * m.cdf(d1) - strike * discount * m.cdf(d2)
    case Put => strike * discount * m.cdf(-d2) - spot * m.cdf(-d1)
  }

  /**
   * The option price: the intrinsic value on degenerate inputs, otherwise
   * the closed form floored at zero.
   */
  function Price(m: ClosedForm, spot: real, strike: real, time: real, rate: real,
                 vol: real, kind: OptionKind): (p: real)
    ensures p >= 0.0
    ensures Degenerate(time, vol) ==> p == Intrinsic(spot, strike, kind)
    ensures !Degenerate(time, vol) ==> p >= ClosedFormPrice(m, spot, strike, time, rate, vol, kind)
    ensures !Degenerate(time, vol) && p > 0.0 ==> p == ClosedFormPrice(m, spot, strike, time, rate, vol, kind)
  {
    if time <= 0.0 then Intrinsic(spot, strike, kind)
    else if vol <= 0.0 then Intrinsic(spot, strike, kind)
    else
      var price := ClosedFormPrice(m, spot, strike, time, rate, vol, kind);
      if price > 0.0 then price else 0.0
  }

  /** dPrice/dsigma = S pdf(d1) sqrt(T), and 0 on degenerate inputs. */
  function Vega(m: ClosedForm, spot: real, strike: real, time: real, rate: real, vol: real): (v: real)
    ensures Degenerate(time, vol) ==> v == 0.0
    ensures (!Degenerate(time, vol) && spot > 0.0 && m.sqrt(time) > 0.0
             && m.pdf(m.d1(spot, strike, time, rate, vol)) > 0.0) ==> v > 0.0
  {
    if time <= 0.0 || vol <= 0.0 then 0.0
    else spot * m.pdf(m.d1(spot, strike, time, rate, vol)) * m.sqrt(time)
  }

  /** With no time or no volatility, call and put differ by exactly S - K. */
  lemma DegenerateParity(m: ClosedForm, spot: real, strike: real, time: real, rate: real, vol: real)
    requires Degenerate(time, vol)
    ensures Price(m, spot, strike, time, rate, vol, Call) - Price(m, spot, strike, time, rate, vol, Put)
            == spot - strike
  {
  }
}

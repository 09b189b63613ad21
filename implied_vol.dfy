/**
 * Implied volatility: Newton-Raphson from a 20% guess with every step
 * clamped to [0.1%, 500%], handing over to bisection on [0.1%, 500%] when
 * vega is zero or 100 steps do not converge.
 */
module ImpliedVol {
  import opened Common
  import opened BlackScholes

  const InitialVol: real := 0.20
  const MinVol: real := 0.001
  const MaxVol: real := 5.0
  const MaxIterations: nat := 100
  const Tolerance: real := 0.0001

  /**
   * The inputs of one solve: the time to expiry, the observed price, and
   * the model price and vega of the contract as functions of volatility.
   */
  datatype Query = Query(
    time: real,
    marketPrice: real,
    price: real -> real,
    vega: real -> real)

  /** The query for one European option priced by Black-Scholes. */
  function BlackScholesQuery(m: ClosedForm, spot: real, strike: real, time: real, rate: real,
                             marketPrice: real, kind: OptionKind): (q: Query)
    ensures q.time == time && q.marketPrice == marketPrice
    ensures forall v :: q.price(v) == Price(m, spot, strike, time, rate, v, kind)
    ensures forall v :: q.vega(v) == Vega(m, spot, strike, time, rate, v)
  {
    Query(time, marketPrice,
          v => Price(m, spot, strike, time, rate, v, kind),
          v => Vega(m, spot, strike, time, rate, v))
  }

  /** `max(0.001, min(5.0, v))`. */
  function Clamp(v: real): (r: real)
    ensures MinVol <= r <= MaxVol
    ensures MinVol <= v <= MaxVol ==> r == v
    ensures v < MinVol ==> r == MinVol
    ensures v > MaxVol ==> r == MaxVol
  {
    if v > MaxVol then MaxVol else if v < MinVol then MinVol else v
  }

  /** One clamped Newton-Raphson update. */
  function NewtonStep(q: Query, vol: real): (next: real)
    requires q.vega(vol) != 0.0
    ensures MinVol <= next <= MaxVol
  {
    Clamp(vol - (q.price(vol) - q.marketPrice) / q.vega(vol))
  }

  datatype NewtonOutcome = Converged(vol: real) | NoConvergence

  /**
   * The Newton-Raphson iteration from `vol` with `i` steps already taken:
   * converged when a step moves less than the tolerance, given up on zero
   * vega or after the last step.
   */
  function NewtonFrom(q: Query, vol: real, i: nat): (r: NewtonOutcome)
    requires i <= MaxIterations
    ensures r.Converged? ==> MinVol <= r.vol <= MaxVol
    decreases MaxIterations - i
  {
    if i == MaxIterations then NoConvergence
    else if q.vega(vol) == 0.0 then NoConvergence
    else
      var next := NewtonStep(q, vol);
      if Abs(next - vol) < Tolerance then Converged(next)
      else NewtonFrom(q, next, i + 1)
  }

  function Pow2(n: nat): (r: real)
    ensures r >= 1.0
  {
    if n == 0 then 1.0 else 2.0 * Pow2(n - 1)
  }

  datatype Bisected = Hit(vol: real) | Bracket(lo: real, hi: real)

  /**
   * Bisection on [lo, hi] with `i` halvings already done: a hit when the
   * midpoint prices within the tolerance, otherwise the final bracket.
   */
  function BisectFrom(q: Query, lo: real, hi: real, i: nat): Bisected
    requires i <= MaxIterations
    decreases MaxIterations - i
  {
    if i == MaxIterations then Bracket(lo, hi)
    else
      var mid := (lo + hi) / 2.0;
      if Abs(q.price(mid) - q.marketPrice) < Tolerance then Hit(mid)
      else if q.price(mid) < q.marketPrice then BisectFrom(q, mid, hi, i + 1)
      else BisectFrom(q, lo, mid, i + 1)
  }

  /**
   * What bisection guarantees without any monotonicity of the price: a hit
   * lies in the bracket and prices within the tolerance; a final bracket is
   * nested in the first and keeps the market price between the prices at
   * its ends.
   */
  lemma {:induction false} BisectFromSound(q: Query, lo: real, hi: real, i: nat)
    requires i <= MaxIterations && lo <= hi
    ensures var r := BisectFrom(q, lo, hi, i);
      && (r.Hit? ==> lo <= r.vol <= hi && Abs(q.price(r.vol) - q.marketPrice) < Tolerance)
      && (r.Bracket? ==> lo <= r.lo <= r.hi <= hi)
      && (r.Bracket? && q.price(lo) <= q.marketPrice <= q.price(hi) ==>
            q.price(r.lo) <= q.marketPrice <= q.price(r.hi))
    decreases MaxIterations - i
  {
    if i < MaxIterations {
      var mid := (lo + hi) / 2.0;
      BisectFromSound(q, mid, hi, i + 1);
      BisectFromSound(q, lo, mid, i + 1);
    }
  }

  /** A final bracket is the starting one halved once per remaining step. */
  lemma {:induction false} BisectFromWidth(q: Query, lo: real, hi: real, i: nat)
    requires i <= MaxIterations
    ensures var r := BisectFrom(q, lo, hi, i);
      r.Bracket? ==> r.hi - r.lo == (hi - lo) / Pow2(MaxIterations - i)
    decreases MaxIterations - i
  {
    if i < MaxIterations {
      var mid := (lo + hi) / 2.0;
      var k := MaxIterations - i;
      assert Pow2(k) == 2.0 * Pow2(k - 1);
      assert (hi - mid) / Pow2(k - 1) == (hi - lo) / Pow2(k);
      assert (mid - lo) / Pow2(k - 1) == (hi - lo) / Pow2(k);
      BisectFromWidth(q, mid, hi, i + 1);
      BisectFromWidth(q, lo, mid, i + 1);
    }
  }

  /** The bisection fallback: None exactly when the price is outside [P(0.001), P(5.0)]. */
  function IvBisection(q: Query): (r: Option<real>)
    ensures r.None? <==> q.marketPrice < q.price(MinVol) || q.marketPrice > q.price(MaxVol)
    ensures r.Some? ==> MinVol <= r.value <= MaxVol
  {
    if q.marketPrice < q.price(MinVol) || q.marketPrice > q.price(MaxVol) then None
    else
      BisectFromSound(q, MinVol, MaxVol, 0);
      BracketMidpoint(BisectFrom(q, MinVol, MaxVol, 0))
  }

  /** The answer a bisection gives: the hit, or the middle of the final bracket. */
  function BracketMidpoint(b: Bisected): Option<real>
  {
    match b
    case Hit(v) => Some(v)
    case Bracket(lo, hi) => Some((lo + hi) / 2.0)
  }

  /** The solver: None when no time is left, else Newton-Raphson, else bisection. */
  function ImpliedVolatility(q: Query): (r: Option<real>)
    ensures q.time <= 0.0 ==> r == None
    ensures r.Some? ==> MinVol <= r.value <= MaxVol
  {
    if q.time <= 0.0 then None
    else
      match NewtonFrom(q, InitialVol, 0)
      case Converged(v) => Some(v)
      case NoConvergence => IvBisection(q)
  }

  method CalculateIvBisection(q: Query) returns (iv: Option<real>)
    ensures iv == IvBisection(q)
  {
    var volLow, volHigh := MinVol, MaxVol;
    var priceLow := q.price(volLow);
    var priceHigh := q.price(volHigh);
    if q.marketPrice < priceLow || q.marketPrice > priceHigh {
      return None;
    }
    ghost var outcome := BisectFrom(q, MinVol, MaxVol, 0);
    assert IvBisection(q) == BracketMidpoint(outcome);
    for i := 0 to MaxIterations
      invariant MinVol <= volLow <= volHigh <= MaxVol
      invariant q.price(volLow) <= q.marketPrice <= q.price(volHigh)
      invariant BisectFrom(q, volLow, volHigh, i) == outcome
    {
      var volMid := (volLow + volHigh) / 2.0;
      var priceMid := q.price(volMid);
      if Abs(priceMid - q.marketPrice) < Tolerance {
        return Some(volMid);
      }
      if priceMid < q.marketPrice {
        volLow := volMid;
      } else {
        volHigh := volMid;
      }
    }
    return Some((volLow + volHigh) / 2.0);
  }

  method CalculateImpliedVolatility(q: Query) returns (iv: Option<real>)
    ensures iv == ImpliedVolatility(q)
  {
    if q.time <= 0.0 {
      return None;
    }
    var vol := InitialVol;
    for i := 0 to MaxIterations
      invariant NewtonFrom(q, vol, i) == NewtonFrom(q, InitialVol, 0)
    {
      var price := q.price(vol);
      var vega := q.vega(vol);
      if vega == 0.0 {
        break;
      }
      var next := vol - (price - q.marketPrice) / vega;
      next := Clamp(next);
      if Abs(next - vol) < Tolerance {
        return Some(next);
      }
      vol := next;
    }
    iv := CalculateIvBisection(q);
  }

  /**
   * A converged Newton answer is a clamped step from some volatility with
   * non-zero vega that moved less than the tolerance.
   */
  lemma {:induction false} NewtonConvergedIsSmallStep(q: Query, vol: real, i: nat)
    requires i <= MaxIterations
    requires NewtonFrom(q, vol, i).Converged?
    ensures exists v :: q.vega(v) != 0.0 && NewtonStep(q, v) == NewtonFrom(q, vol, i).vol
                        && Abs(NewtonStep(q, v) - v) < Tolerance
    decreases MaxIterations - i
  {
    var next := NewtonStep(q, vol);
    if Abs(next - vol) >= Tolerance {
      NewtonConvergedIsSmallStep(q, next, i + 1);
    }
  }

  /** Zero vega at the initial guess sends the solve straight to bisection. */
  lemma ZeroVegaFallsBackToBisection(q: Query)
    requires q.time > 0.0
    requires q.vega(InitialVol) == 0.0
    ensures ImpliedVolatility(q) == IvBisection(q)
  {
  }

  /** A price that rises strictly with volatility on [0.1%, 500%]. */
  ghost predicate StrictlyIncreasingInVol(q: Query)
  {
    forall a: real, b: real :: MinVol <= a < b <= MaxVol ==> q.price(a) < q.price(b)
  }

  /** Under a strictly rising price, a lower volatility in range prices strictly lower. */
  lemma PriceOrder(q: Query, a: real, b: real)
    requires StrictlyIncreasingInVol(q)
    requires MinVol <= a <= MaxVol && MinVol <= b <= MaxVol
    ensures a < b ==> q.price(a) < q.price(b)
  {
  }

  /**
   * When the price rises strictly with volatility and `root` reproduces the
   * market price, bisection finds an answer: either a hit (which prices within
   * the tolerance, by BisectFromSound) or the midpoint of a final bracket that
   * contains the root (a bracket BisectFromWidth shows to be 4.999 / 2^100 wide).
   */
  lemma BisectionRecoversRoot(q: Query, root: real)
    requires StrictlyIncreasingInVol(q)
    requires MinVol <= root <= MaxVol && q.price(root) == q.marketPrice
    ensures IvBisection(q).Some?
    ensures IvBisection(q) == BracketMidpoint(BisectFrom(q, MinVol, MaxVol, 0))
    ensures var b := BisectFrom(q, MinVol, MaxVol, 0);
      b.Bracket? ==> b.lo <= root <= b.hi
  {
    RootIsBracketed(q, root);
    BracketContainsRoot(q, root);
  }

  /** A root in range prices between the prices at the range's ends. */
  lemma RootIsBracketed(q: Query, root: real)
    requires StrictlyIncreasingInVol(q)
    requires MinVol <= root <= MaxVol && q.price(root) == q.marketPrice
    ensures q.price(MinVol) <= q.marketPrice <= q.price(MaxVol)
  {
    PriceOrder(q, MinVol, root);
    PriceOrder(q, root, MaxVol);
  }

  /** Under a strictly rising price, a final bracket contains every root in range. */
  lemma BracketContainsRoot(q: Query, root: real)
    requires StrictlyIncreasingInVol(q)
    requires MinVol <= root <= MaxVol && q.price(root) == q.marketPrice
    requires q.price(MinVol) <= q.marketPrice <= q.price(MaxVol)
    ensures var b := BisectFrom(q, MinVol, MaxVol, 0);
      b.Bracket? ==> b.lo <= root <= b.hi
  {
    BisectFromSound(q, MinVol, MaxVol, 0);
    var b := BisectFrom(q, MinVol, MaxVol, 0);
    if b.Bracket? {
      var lo, hi := b.lo, b.hi;
      PriceOrder(q, root, lo);
      PriceOrder(q, hi, root);
    }
  }
}

/**
 * Small value-level helpers shared by the pricing, aggregation and
 * percentile modules: an optional value (Python's `None`), absolute value,
 * Python's `round(x, 2)` on exact reals, and the sum and mean of a list.
 */
module Common {

  /** `None` or a present value, as Python's `Optional[...]`. */
  datatype Option<+T> = None | Some(value: T)

  function Abs(x: real): (r: real)
    ensures r >= 0.0
    ensures r == x || r == -x
  {
    if x < 0.0 then -x else x
  }

  /**
   * `round(y, 2)`: the nearest multiple of 0.01, ties to the even
   * neighbour (Python's banker's rounding), computed on exact reals.
   */
  function Round2(y: real): (r: real)
    ensures -0.005 <= r - y <= 0.005
    ensures (r * 100.0).Floor as real == r * 100.0
  {
    var scaled := y * 100.0;
    var n := scaled.Floor;
    var frac := scaled - n as real;
    var k := if frac > 0.5 then n + 1
             else if frac < 0.5 then n
             else if n % 2 == 0 then n else n + 1;
    k as real / 100.0
  }

  /** Rounding never crosses a value that is already a whole number of cents. */
  lemma Round2Between(y: real, lo: int, hi: int)
    requires lo as real / 100.0 <= y <= hi as real / 100.0
    ensures lo as real / 100.0 <= Round2(y) <= hi as real / 100.0
  {
    var scaled := y * 100.0;
    var n := scaled.Floor;
    assert lo as real <= scaled <= hi as real;
    assert lo <= n <= hi;
    if n == hi {
      assert scaled == hi as real;
      assert scaled - n as real == 0.0;
    }
  }

  /** Rounding keeps order: a larger input never rounds to a smaller result. */
  lemma Round2Monotone(a: real, b: real)
    requires a <= b
    ensures Round2(a) <= Round2(b)
  {
    var na, nb := (a * 100.0).Floor, (b * 100.0).Floor;
    assert na <= nb;
    if na < nb {
      assert Round2(a) <= (na + 1) as real / 100.0;
      assert Round2(b) >= nb as real / 100.0;
    }
  }

  /** A whole number of cents rounds to itself. */
  lemma Round2Whole(cents: int)
    ensures Round2(cents as real / 100.0) == cents as real / 100.0
  {
    assert cents as real / 100.0 * 100.0 == cents as real;
  }

  /** The sum of a list of reals (Python's `sum`). */
  function Sum(s: seq<real>): real
  {
    if s == [] then 0.0 else Sum(s[..|s| - 1]) + s[|s| - 1]
  }

  /** The arithmetic mean `sum(s) / len(s)`. */
  function Mean(s: seq<real>): (r: real)
    requires s != []
  {
    Sum(s) / |s| as real
  }

  lemma {:induction false} SumBounds(s: seq<real>, lo: real, hi: real)
    requires forall i :: 0 <= i < |s| ==> lo <= s[i] <= hi
    ensures |s| as real * lo <= Sum(s) <= |s| as real * hi
  {
    if s != [] {
      SumBounds(s[..|s| - 1], lo, hi);
    }
  }

  /** The mean of values that all lie in [lo, hi] lies in [lo, hi]. */
  lemma MeanBounds(s: seq<real>, lo: real, hi: real)
    requires s != []
    requires forall i :: 0 <= i < |s| ==> lo <= s[i] <= hi
    ensures lo <= Mean(s) <= hi
  {
    SumBounds(s, lo, hi);
    var n := |s| as real;
    assert Sum(s) / n * n == Sum(s);
  }
}

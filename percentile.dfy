/**
 * IV percentile: the share of historical IVs strictly below the current
 * IV, as a percentage rounded to 0.01.
 */
module Percentile {
  import opened Common

  /** `sum(1 for iv in history if iv < current)`. */
  function CountBelow(history: seq<real>, current: real): (n: nat)
    ensures n <= |history|
  {
    if history == [] then 0
    else CountBelow(history[..|history| - 1], current)
         + (if history[|history| - 1] < current then 1 else 0)
  }

  /**
   * The percentile of `current` in `history`: None without a current IV or
   * without history, else `round(days_below / total_days * 100, 2)`.
   */
  function IvPercentile(current: Option<real>, history: seq<real>): (r: Option<real>)
    ensures r.None? <==> current.None? || history == []
    ensures r.Some? ==> 0.0 <= r.value <= 100.0
  {
    if current.None? || history == [] then None
    else
      var below := CountBelow(history, current.value);
      var total := |history|;
      var percentile := below as real / total as real * 100.0;
      Round2Between(percentile, 0, 10000);
      Some(Round2(percentile))
  }

  lemma {:induction false} CountBelowAppend(a: seq<real>, b: seq<real>, current: real)
    ensures CountBelow(a + b, current) == CountBelow(a, current) + CountBelow(b, current)
    decreases |b|
  {
    if b == [] {
      assert a + b == a;
    } else {
      assert (a + b)[..|a + b| - 1] == a + b[..|b| - 1];
      CountBelowAppend(a, b[..|b| - 1], current);
    }
  }

  /** Every entry below: the count is the whole history; none below: the count is 0. */
  lemma {:induction false} CountBelowExtremes(history: seq<real>, current: real)
    ensures CountBelow(history, current) == |history| <==>
            forall i :: 0 <= i < |history| ==> history[i] < current
    ensures CountBelow(history, current) == 0 <==>
            forall i :: 0 <= i < |history| ==> history[i] >= current
  {
    if history != [] {
      var init := history[..|history| - 1];
      CountBelowExtremes(init, current);
      assert forall i :: 0 <= i < |init| ==> init[i] == history[i];
    }
  }

  /** A larger current IV has at least as many days below it. */
  lemma {:induction false} CountBelowMonotone(history: seq<real>, lower: real, higher: real)
    requires lower <= higher
    ensures CountBelow(history, lower) <= CountBelow(history, higher)
  {
    if history != [] {
      CountBelowMonotone(history[..|history| - 1], lower, higher);
    }
  }

  /** The count does not depend on the order the history was fetched in. */
  lemma {:induction false} CountBelowPermutation(a: seq<real>, b: seq<real>, current: real)
    requires multiset(a) == multiset(b)
    ensures CountBelow(a, current) == CountBelow(b, current)
    decreases |a|
  {
    if a != [] {
      var last := a[|a| - 1];
      assert a == a[..|a| - 1] + [last];
      assert last in multiset(b);
      var k :| 0 <= k < |b| && b[k] == last;
      assert b == b[..k] + [last] + b[k + 1..];
      var rest := b[..k] + b[k + 1..];
      calc {
        multiset(b);
        multiset(b[..k] + [last] + b[k + 1..]);
        multiset(b[..k]) + multiset{last} + multiset(b[k + 1..]);
        multiset(rest) + multiset{last};
      }
      assert multiset(a) == multiset(a[..|a| - 1]) + multiset{last};
      assert multiset(a[..|a| - 1]) == multiset(a) - multiset{last};
      assert multiset(rest) == multiset(b) - multiset{last};
      CountBelowPermutation(a[..|a| - 1], rest, current);
      CountBelowAppend(a[..|a| - 1], [last], current);
      CountBelowAppend(b[..k], [last], current);
      CountBelowAppend(b[..k] + [last], b[k + 1..], current);
      CountBelowAppend(b[..k], b[k + 1..], current);
      assert [last][..0] == [];
    }
  }

  /** A day whose IV equals the current IV is not counted as below it. */
  lemma TiesNotCounted(history: seq<real>, current: real)
    ensures CountBelow(history + [current], current) == CountBelow(history, current)
  {
    assert (history + [current])[..|history|] == history;
  }

  /** The percentile never decreases as the current IV rises. */
  lemma IvPercentileMonotone(history: seq<real>, lower: real, higher: real)
    requires history != [] && lower <= higher
    ensures IvPercentile(Some(lower), history).value <= IvPercentile(Some(higher), history).value
  {
    CountBelowMonotone(history, lower, higher);
    var total := |history| as real;
    var a := CountBelow(history, lower) as real;
    var b := CountBelow(history, higher) as real;
    ShareMonotone(a, b, total);
    Round2Monotone(a / total * 100.0, b / total * 100.0);
  }

  lemma ShareMonotone(a: real, b: real, total: real)
    requires a <= b && total > 0.0
    ensures a / total * 100.0 <= b / total * 100.0
  {
    assert (b - a) / total >= 0.0;
    assert b / total * 100.0 - a / total * 100.0 == (b - a) / total * 100.0;
  }

  lemma CountBelowLadder(current: real)
    ensures CountBelow([10.0, 15.0, 20.0, 25.0, 30.0], current) ==
            (if 10.0 < current then 1 else 0) + (if 15.0 < current then 1 else 0) +
            (if 20.0 < current then 1 else 0) + (if 25.0 < current then 1 else 0) +
            (if 30.0 < current then 1 else 0)
  {
    var h := [10.0, 15.0, 20.0, 25.0, 30.0];
    assert h[..4] == [10.0, 15.0, 20.0, 25.0];
    assert h[..4][..3] == [10.0, 15.0, 20.0];
    assert h[..4][..3][..2] == [10.0, 15.0];
    assert h[..4][..3][..2][..1] == [10.0];
    assert CountBelow([10.0], current) == (if 10.0 < current then 1 else 0);
    assert CountBelow([10.0, 15.0], current) == CountBelow([10.0], current) + (if 15.0 < current then 1 else 0);
    assert CountBelow([10.0, 15.0, 20.0], current) ==
           CountBelow([10.0, 15.0], current) + (if 20.0 < current then 1 else 0);
    assert CountBelow([10.0, 15.0, 20.0, 25.0], current) ==
           CountBelow([10.0, 15.0, 20.0], current) + (if 25.0 < current then 1 else 0);
  }

  /** History [10, 15, 20, 25, 30]: 22 is at 60%, 5 at 0%, 35 at 100%, 20 at 40%. */
  lemma PercentileExamples()
    ensures IvPercentile(Some(22.0), [10.0, 15.0, 20.0, 25.0, 30.0]) == Some(60.0)
    ensures IvPercentile(Some(5.0), [10.0, 15.0, 20.0, 25.0, 30.0]) == Some(0.0)
    ensures IvPercentile(Some(35.0), [10.0, 15.0, 20.0, 25.0, 30.0]) == Some(100.0)
    ensures IvPercentile(Some(20.0), [10.0, 15.0, 20.0, 25.0, 30.0]) == Some(40.0)
  {
    var h := [10.0, 15.0, 20.0, 25.0, 30.0];
    assert h[..4] == [10.0, 15.0, 20.0, 25.0];
    assert h[..4][..3] == [10.0, 15.0, 20.0];
    assert h[..4][..3][..2] == [10.0, 15.0];
    assert h[..4][..3][..2][..1] == [10.0];
    assert h[..4][..3][..2][..1][..0] == [];
    CountBelowLadder(22.0);
    CountBelowLadder(5.0);
    CountBelowLadder(35.0);
    CountBelowLadder(20.0);
    Round2Whole(6000);
    Round2Whole(0);
    Round2Whole(10000);
    Round2Whole(4000);
  }
}

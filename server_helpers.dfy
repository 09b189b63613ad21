/**
 * Small decisions made by the server around the IV engine: the time to
 * expiry in years, the day's change and the dashboard signal derived from
 * it, and the certificate-bypass option appended to the database URL.
 */
module ServerHelpers {
  import opened Common

  const SecondsPerDay: real := 86400.0
  const DaysPerYear: real := 365.25
  const ExpiredTime: real := 0.0001

  /**
   * Years from `now` to `expiry`, both in seconds on the UTC time line: the
   * fixed 0.0001 once the expiry has passed, else days / 365.25.
   */
  function TimeToExpiry(expiry: real, now: real): (t: real)
    ensures t > 0.0
    ensures expiry <= now ==> t == ExpiredTime
    ensures expiry > now ==> t * DaysPerYear * SecondsPerDay == expiry - now
  {
    var days := (expiry - now) / SecondsPerDay;
    if days <= 0.0 then ExpiredTime else days / DaysPerYear
  }

  /**
   * Just before expiry the time is smaller than once expired: 864 seconds
   * ahead gives 0.01 / 365.25 years, less than the 0.0001 of a past expiry.
   */
  lemma TimeToExpiryDipsBeforeExpiry(now: real)
    ensures TimeToExpiry(now + 864.0, now) < TimeToExpiry(now - 1.0, now)
  {
  }

  /** The time to expiry with 0.0001 as a floor rather than as a replacement. */
  function FlooredTimeToExpiry(expiry: real, now: real): (t: real)
    ensures t >= ExpiredTime
    ensures expiry <= now ==> t == ExpiredTime
    ensures t > ExpiredTime ==> t * DaysPerYear * SecondsPerDay == expiry - now
  {
    var days := (expiry - now) / SecondsPerDay;
    if days / DaysPerYear <= ExpiredTime then ExpiredTime else days / DaysPerYear
  }

  /** A later expiry never gives a shorter floored time. */
  lemma FlooredTimeToExpiryMonotone(earlier: real, later: real, now: real)
    requires earlier <= later
    ensures FlooredTimeToExpiry(earlier, now) <= FlooredTimeToExpiry(later, now)
  {
  }

  /** The floored time agrees with the server's wherever the server's is at least 0.0001. */
  lemma FlooredAgreesAwayFromExpiry(expiry: real, now: real)
    requires TimeToExpiry(expiry, now) >= ExpiredTime
    ensures FlooredTimeToExpiry(expiry, now) == TimeToExpiry(expiry, now)
  {
  }

  /**
   * `round((ltp - previous_close) / previous_close * 100, 2)` when the
   * previous close is positive; None otherwise.
   */
  function ChangePercent(ltp: real, previousClose: real): (r: Option<real>)
    ensures r.Some? <==> previousClose > 0.0
    ensures r.Some? ==> -0.005 <= r.value - (ltp - previousClose) / previousClose * 100.0 <= 0.005
  {
    if previousClose > 0.0 then Some(Round2((ltp - previousClose) / previousClose * 100.0))
    else None
  }

  /** A rise gives a change of at least 0, a fall a change of at most 0. */
  lemma ChangePercentSign(ltp: real, previousClose: real)
    requires previousClose > 0.0
    ensures ltp >= previousClose ==> ChangePercent(ltp, previousClose).value >= 0.0
    ensures ltp <= previousClose ==> ChangePercent(ltp, previousClose).value <= 0.0
  {
    var x := (ltp - previousClose) / previousClose * 100.0;
    Round2Whole(0);
    assert 0 as real / 100.0 == 0.0;
    if ltp >= previousClose {
      Round2Monotone(0.0, x);
    }
    if ltp <= previousClose {
      Round2Monotone(x, 0.0);
    }
  }

  datatype Signal = HighVolatility | Bullish | Bearish | Neutral

  /** The label shown on the dashboard. */
  function SignalLabel(s: Signal): string
  {
    match s
    case HighVolatility => "High Volatility"
    case Bullish => "Bullish"
    case Bearish => "Bearish"
    case Neutral => "Neutral"
  }

  /** The signal for a day's change in percent, the first rule that fires winning. */
  function ClassifySignal(change: real): (s: Signal)
    ensures s == HighVolatility <==> Abs(change) > 2.0
    ensures s == Bullish <==> 1.0 < change <= 2.0
    ensures s == Bearish <==> -2.0 <= change < -1.0
    ensures s == Neutral <==> -1.0 <= change <= 1.0
  {
    if Abs(change) > 2.0 then HighVolatility
    else if change > 1.0 then Bullish
    else if change < -1.0 then Bearish
    else Neutral
  }

  /** Mirroring the change swaps Bullish and Bearish and keeps the other two. */
  lemma ClassifySignalSymmetric(change: real)
    ensures ClassifySignal(-change) ==
      match ClassifySignal(change)
      case Bullish => Bearish
      case Bearish => Bullish
      case other => other
  {
  }

  // ---------------------------------------------------------------------
  // Database URL
  // ---------------------------------------------------------------------

  const TlsOption: string := "tlsAllowInvalidCertificates"

  /** Python's `t in s` on strings: `t` occurs in `s` as a contiguous part. */
  predicate Contains(s: string, t: string)
    decreases |s|
  {
    t <= s || (s != [] && Contains(s[1..], t))
  }

  lemma {:induction false} ContainsAfter(a: string, t: string, b: string)
    ensures Contains(a + t + b, t)
    decreases |a|
  {
    if a == [] {
      assert a + t + b == t + b;
    } else {
      assert (a + t + b)[1..] == a[1..] + t + b;
      ContainsAfter(a[1..], t, b);
    }
  }

  /**
   * Adds `?tlsAllowInvalidCertificates=true` to a URL without a query, or
   * `&tlsAllowInvalidCertificates=true` to one with a query that lacks it.
   */
  function WithTlsBypass(url: string): (r: string)
    ensures url <= r
    ensures '?' in r && Contains(r, TlsOption)
    ensures '?' in url && Contains(url, TlsOption) ==> r == url
    ensures '?' !in url ==> r == url + "?" + TlsOption + "=true"
    ensures '?' in url && !Contains(url, TlsOption) ==> r == url + "&" + TlsOption + "=true"
  {
    if '?' !in url then
      ContainsAfter(url + "?", TlsOption, "=true");
      url + "?" + TlsOption + "=true"
    else if !Contains(url, TlsOption) then
      ContainsAfter(url + "&", TlsOption, "=true");
      url + "&" + TlsOption + "=true"
    else url
  }

  /** Applying the rule twice adds nothing more. */
  lemma WithTlsBypassIdempotent(url: string)
    ensures WithTlsBypass(WithTlsBypass(url)) == WithTlsBypass(url)
  {
  }
}

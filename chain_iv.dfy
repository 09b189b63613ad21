/**
 * One representative implied volatility for an option chain: solve the IV
 * of every call and put with a positive last price, keep plausible ones,
 * rank them by distance of the strike from spot (a stable sort), and
 * average those among the ten nearest that lie within 5% of spot, falling
 * back to the nearest one; the answer is a percentage rounded to 0.01.
 */
module ChainIv {
  import opened Common
  import opened OptionRecord
  import opened BlackScholes
  import opened ImpliedVol

  const RiskFreeRate: real := 0.065
  const MinPlausibleIv: real := 0.05
  const MaxPlausibleIv: real := 2.0
  const AtmBand: real := 0.05
  const MaxAtmOptions: nat := 10

  /** An `atm_options` entry: (|strike - spot|, iv, side). */
  datatype Candidate = Candidate(distance: real, iv: real, kind: OptionKind)

  /** `ltp and isinstance(ltp, (int, float)) and ltp > 0`. */
  predicate PositivePrice(v: Value)
  {
    IsNumber(v) && AsReal(v) > 0.0
  }

  predicate Plausible(iv: real)
  {
    MinPlausibleIv <= iv <= MaxPlausibleIv
  }

  /** The solve for one side of one strike, at the fixed risk-free rate. */
  function SolveIv(m: ClosedForm, time: real, spot: real, strike: real, ltp: real,
                   kind: OptionKind): Option<real>
  {
    ImpliedVolatility(BlackScholesQuery(m, spot, strike, time, RiskFreeRate, ltp, kind))
  }

  /** The entry a solve contributes: one when the IV exists and is plausible. */
  function Accept(iv: Option<real>, distance: real, kind: OptionKind): seq<Candidate>
  {
    if iv.Some? && Plausible(iv.value) then [Candidate(distance, iv.value, kind)] else []
  }

  /** The entry one side contributes: only for a positive numeric last price. */
  function SideCandidates(m: ClosedForm, time: real, spot: real, strike: real, ltp: Value,
                          kind: OptionKind): seq<Candidate>
  {
    if PositivePrice(ltp)
    then Accept(SolveIv(m, time, spot, strike, AsReal(ltp), kind), Abs(strike - spot), kind)
    else []
  }

  /** Call entry then put entry of one decoded strike. */
  function QuoteCandidates(m: ClosedForm, time: real, spot: real, q: StrikeQuote): seq<Candidate>
    requires IsNumber(q.strike)
  {
    SideCandidates(m, time, spot, AsReal(q.strike), q.call.ltp, Call)
    + SideCandidates(m, time, spot, AsReal(q.strike), q.put.ltp, Put)
  }

  /** What one record contributes; records that do not decode are skipped. */
  function RecordCandidates(m: ClosedForm, time: real, symbol: string, spot: real,
                            record: Value): seq<Candidate>
  {
    match ParseRecord(record, symbol)
    case None => []
    case Some(q) => QuoteCandidates(m, time, spot, q)
  }

  /** The `atm_options` list after the scan, in scan order, every IV in [0.05, 2.0]. */
  function Candidates(m: ClosedForm, time: real, symbol: string, spot: real,
                      records: seq<Value>): (cands: seq<Candidate>)
    ensures |cands| <= 2 * |records|
    ensures forall i :: 0 <= i < |cands| ==> Plausible(cands[i].iv)
  {
    if records == [] then []
    else
      RecordCandidatesPlausible(m, time, symbol, spot, records[|records| - 1]);
      Candidates(m, time, symbol, spot, records[..|records| - 1])
      + RecordCandidates(m, time, symbol, spot, records[|records| - 1])
  }

  /** A record adds at most a call and a put entry, each with a plausible IV. */
  lemma RecordCandidatesPlausible(m: ClosedForm, time: real, symbol: string, spot: real, record: Value)
    ensures |RecordCandidates(m, time, symbol, spot, record)| <= 2
    ensures forall i :: 0 <= i < |RecordCandidates(m, time, symbol, spot, record)| ==>
              Plausible(RecordCandidates(m, time, symbol, spot, record)[i].iv)
  {
  }

  // ---------------------------------------------------------------------
  // Stable ranking by distance
  // ---------------------------------------------------------------------

  predicate SortedByDistance(s: seq<Candidate>)
  {
    forall i, j :: 0 <= i < j < |s| ==> s[i].distance <= s[j].distance
  }

  /** Inserts `c` after every entry whose distance does not exceed its own. */
  function InsertByDistance(s: seq<Candidate>, c: Candidate): seq<Candidate>
  {
    if s == [] || s[|s| - 1].distance <= c.distance then s + [c]
    else InsertByDistance(s[..|s| - 1], c) + [s[|s| - 1]]
  }

  /** Python's stable `sort(key=distance)`, as insertion sort. */
  function SortByDistance(s: seq<Candidate>): seq<Candidate>
  {
    if s == [] then [] else InsertByDistance(SortByDistance(s[..|s| - 1]), s[|s| - 1])
  }

  /** The entries at distance `d`, in order. */
  function AtDistance(s: seq<Candidate>, d: real): seq<Candidate>
  {
    if s == [] then []
    else AtDistance(s[..|s| - 1], d) + (if s[|s| - 1].distance == d then [s[|s| - 1]] else [])
  }

  lemma {:induction false} AtDistanceAppend(s: seq<Candidate>, t: seq<Candidate>, d: real)
    ensures AtDistance(s + t, d) == AtDistance(s, d) + AtDistance(t, d)
    decreases |t|
  {
    if t == [] {
      assert s + t == s;
    } else {
      assert (s + t)[..|s + t| - 1] == s + t[..|t| - 1];
      AtDistanceAppend(s, t[..|t| - 1], d);
    }
  }

  lemma AtDistanceSingle(c: Candidate, d: real)
    ensures AtDistance([c], d) == if c.distance == d then [c] else []
  {
    assert [c][..0] == [];
  }

  lemma {:induction false} InsertByDistancePermutes(s: seq<Candidate>, c: Candidate)
    ensures multiset(InsertByDistance(s, c)) == multiset(s) + multiset{c}
    decreases |s|
  {
    if s != [] && s[|s| - 1].distance > c.distance {
      var init, last := s[..|s| - 1], s[|s| - 1];
      assert s == init + [last];
      InsertByDistancePermutes(init, c);
    }
  }

  lemma {:induction false} InsertByDistanceSorted(s: seq<Candidate>, c: Candidate)
    requires SortedByDistance(s)
    ensures SortedByDistance(InsertByDistance(s, c))
    decreases |s|
  {
    if s != [] && s[|s| - 1].distance > c.distance {
      var init, last := s[..|s| - 1], s[|s| - 1];
      assert s == init + [last];
      InsertByDistanceSorted(init, c);
      InsertByDistancePermutes(init, c);
      var r := InsertByDistance(init, c);
      forall i | 0 <= i < |r| ensures r[i].distance <= last.distance {
        assert r[i] in multiset(r);
        if r[i] != c {
          assert r[i] in multiset(init);
          assert r[i] in init;
        }
      }
    }
  }

  lemma {:induction false} InsertByDistanceStable(s: seq<Candidate>, c: Candidate, d: real)
    ensures AtDistance(InsertByDistance(s, c), d) ==
            AtDistance(s, d) + (if c.distance == d then [c] else [])
    decreases |s|
  {
    AtDistanceSingle(c, d);
    if s == [] || s[|s| - 1].distance <= c.distance {
      AtDistanceAppend(s, [c], d);
    } else {
      var init, last := s[..|s| - 1], s[|s| - 1];
      var r := InsertByDistance(init, c);
      InsertByDistanceStable(init, c, d);
      AtDistanceAppend(r, [last], d);
      AtDistanceSingle(last, d);
    }
  }

  /**
   * The ranking is sorted by distance, is a permutation of the scan, and is
   * stable: the entries at any one distance keep their scan order.
   */
  lemma {:induction false} SortByDistanceFacts(s: seq<Candidate>)
    ensures SortedByDistance(SortByDistance(s))
    ensures multiset(SortByDistance(s)) == multiset(s)
    ensures forall d :: AtDistance(SortByDistance(s), d) == AtDistance(s, d)
  {
    if s != [] {
      var init, last := s[..|s| - 1], s[|s| - 1];
      assert s == init + [last];
      SortByDistanceFacts(init);
      InsertByDistancePermutes(SortByDistance(init), last);
      InsertByDistanceSorted(SortByDistance(init), last);
      forall d ensures AtDistance(SortByDistance(s), d) == AtDistance(s, d) {
        InsertByDistanceStable(SortByDistance(init), last, d);
        AtDistanceAppend(init, [last], d);
        AtDistanceSingle(last, d);
      }
    }
  }

  /** Where InsertByDistance puts its entry: after the last entry no farther than it. */
  function InsertionPoint(s: seq<Candidate>, x: Candidate): (p: nat)
    ensures p <= |s|
  {
    if s == [] || s[|s| - 1].distance <= x.distance then |s| else InsertionPoint(s[..|s| - 1], x)
  }

  /**
   * The insertion splits the list at the insertion point: every entry after
   * it is farther than `x`, and the one before it is not.
   */
  lemma {:induction false} InsertByDistanceSplit(s: seq<Candidate>, x: Candidate)
    ensures var p := InsertionPoint(s, x);
      && InsertByDistance(s, x) == s[..p] + [x] + s[p..]
      && (forall k :: p <= k < |s| ==> s[k].distance > x.distance)
      && (p == 0 || s[p - 1].distance <= x.distance)
  {
    if s != [] && s[|s| - 1].distance > x.distance {
      var init := s[..|s| - 1];
      InsertByDistanceSplit(init, x);
      var p := InsertionPoint(init, x);
      assert init[..p] == s[..p];
      assert init[p..] + [s[|s| - 1]] == s[p..];
    } else {
      assert s[..|s|] == s;
    }
  }

  /**
   * An array laid out as `sorted` with `x` placed at `p`, followed by the
   * untouched tail of `before`, holds that insertion and that tail.
   */
  lemma InsertedPrefix(arr: seq<Candidate>, before: seq<Candidate>, sorted: seq<Candidate>,
                       x: Candidate, p: nat)
    requires p <= |sorted| < |arr| == |before|
    requires forall k :: 0 <= k < p ==> arr[k] == sorted[k]
    requires arr[p] == x
    requires forall k :: p < k <= |sorted| ==> arr[k] == sorted[k - 1]
    requires forall k :: |sorted| < k < |arr| ==> arr[k] == before[k]
    ensures arr[..|sorted| + 1] == sorted[..p] + [x] + sorted[p..]
    ensures arr[|sorted| + 1..] == before[|sorted| + 1..]
  {
  }

  /** Moves `a[i]` left past the nearer-sorted prefix entries that are farther from spot. */
  method InsertIntoSortedPrefix(a: array<Candidate>, i: nat)
    requires i < a.Length
    modifies a
    ensures a[..i + 1] == InsertByDistance(old(a[..i]), old(a[i]))
    ensures a[i + 1..] == old(a[i + 1..])
  {
    ghost var before := a[..];
    ghost var sorted := a[..i];
    var x := a[i];
    ghost var p := InsertionPoint(sorted, x);
    InsertByDistanceSplit(sorted, x);
    var j := i;
    while j > 0 && a[j - 1].distance > x.distance
      invariant p <= j <= i
      invariant forall k :: 0 <= k < j ==> a[k] == sorted[k]
      invariant forall k :: j < k <= i ==> a[k] == sorted[k - 1]
      invariant forall k :: i < k < a.Length ==> a[k] == before[k]
      decreases j
    {
      a[j] := a[j - 1];
      j := j - 1;
    }
    a[j] := x;
    assert j == p;
    InsertedPrefix(a[..], before, sorted, x, p);
  }

  /** Sorts the entries in place (stable insertion sort). */
  method SortByDistanceInPlace(a: array<Candidate>)
    modifies a
    ensures a[..] == SortByDistance(old(a[..]))
  {
    ghost var input := a[..];
    for i := 0 to a.Length
      invariant a[..i] == SortByDistance(input[..i])
      invariant a[i..] == input[i..]
    {
      assert input[..i + 1][..i] == input[..i];
      InsertIntoSortedPrefix(a, i);
    }
    assert input[..a.Length] == input;
  }

  // ---------------------------------------------------------------------
  // Aggregation
  // ---------------------------------------------------------------------

  /** The IVs of the entries within 5% of spot (`distance / spot < 0.05`), in order. */
  function InBandIvs(s: seq<Candidate>, spot: real): seq<real>
    requires spot != 0.0
  {
    if s == [] then []
    else InBandIvs(s[..|s| - 1], spot)
         + (if s[|s| - 1].distance / spot < AtmBand then [s[|s| - 1].iv] else [])
  }

  function Min(a: nat, b: nat): nat
  {
    if a < b then a else b
  }

  /**
   * The answer from the scanned entries: None with no entry, None when spot
   * is 0 (the band test divides by it), else the rounded percentage mean of
   * the in-band IVs among the ten nearest, else of the nearest entry alone.
   */
  function Aggregate(cands: seq<Candidate>, spot: real): (r: Option<real>)
    requires forall i :: 0 <= i < |cands| ==> Plausible(cands[i].iv)
    ensures r.None? <==> cands == [] || spot == 0.0
    ensures r.Some? ==> 5.0 <= r.value <= 200.0
  {
    if cands == [] || spot == 0.0 then None
    else
      var ranked := SortByDistance(cands);
      SortByDistanceFacts(cands);
      PlausibleSurvivesRanking(cands);
      var band := InBandIvs(ranked[..Min(MaxAtmOptions, |ranked|)], spot);
      if band != [] then
        InBandIvsPlausible(ranked[..Min(MaxAtmOptions, |ranked|)], spot);
        MeanBounds(band, MinPlausibleIv, MaxPlausibleIv);
        Round2Between(Mean(band) * 100.0, 500, 20000);
        Some(Round2(Mean(band) * 100.0))
      else
        Round2Between(ranked[0].iv * 100.0, 500, 20000);
        Some(Round2(ranked[0].iv * 100.0))
  }

  /** The chain IV as a percentage in [5, 200], None when nothing usable was found. */
  function ChainIv(m: ClosedForm, time: real, symbol: string, spot: real,
                   records: seq<Value>): (r: Option<real>)
    ensures r.None? <==> Candidates(m, time, symbol, spot, records) == [] || spot == 0.0
    ensures r.Some? ==> 5.0 <= r.value <= 200.0
  {
    Aggregate(Candidates(m, time, symbol, spot, records), spot)
  }

  lemma PlausibleSurvivesRanking(s: seq<Candidate>)
    requires forall i :: 0 <= i < |s| ==> Plausible(s[i].iv)
    ensures |SortByDistance(s)| == |s|
    ensures forall i :: 0 <= i < |SortByDistance(s)| ==> Plausible(SortByDistance(s)[i].iv)
  {
    SortByDistanceFacts(s);
    var r := SortByDistance(s);
    assert |r| == |multiset(r)| == |multiset(s)| == |s|;
    forall i | 0 <= i < |r| ensures Plausible(r[i].iv) {
      assert r[i] in multiset(r);
      assert r[i] in multiset(s);
      var k :| 0 <= k < |s| && s[k] == r[i];
    }
  }

  lemma {:induction false} InBandIvsPlausible(s: seq<Candidate>, spot: real)
    requires spot != 0.0
    requires forall i :: 0 <= i < |s| ==> Plausible(s[i].iv)
    ensures forall i :: 0 <= i < |InBandIvs(s, spot)| ==>
              MinPlausibleIv <= InBandIvs(s, spot)[i] <= MaxPlausibleIv
  {
    if s != [] {
      InBandIvsPlausible(s[..|s| - 1], spot);
    }
  }

  /**
   * The fallback entry is the nearest one: no entry is nearer, and among the
   * entries at that distance it is the first one scanned.
   */
  lemma NearestComesFirst(s: seq<Candidate>)
    requires s != []
    ensures var first := SortByDistance(s)[0];
      && first in s
      && (forall c :: c in s ==> first.distance <= c.distance)
      && AtDistance(s, first.distance) != []
      && AtDistance(s, first.distance)[0] == first
  {
    SortByDistanceFacts(s);
    var r := SortByDistance(s);
    assert |r| == |multiset(r)| == |multiset(s)| == |s|;
    assert r[0] in multiset(r);
    forall c | c in s ensures r[0].distance <= c.distance {
      assert c in multiset(r);
      var k :| 0 <= k < |r| && r[k] == c;
    }
    AtDistanceHead(r);
  }

  lemma {:induction false} AtDistanceHead(r: seq<Candidate>)
    requires r != []
    ensures AtDistance(r, r[0].distance) != [] && AtDistance(r, r[0].distance)[0] == r[0]
  {
    if |r| > 1 {
      AtDistanceHead(r[..|r| - 1]);
    } else {
      assert r[..0] == [];
    }
  }

  /** The solve for one side, kept when its IV is plausible. */
  method ScanSide(m: ClosedForm, time: real, spot: real, strike: real, ltp: Value,
                  kind: OptionKind) returns (found: seq<Candidate>)
    ensures found == SideCandidates(m, time, spot, strike, ltp, kind)
  {
    found := [];
    if PositivePrice(ltp) {
      var iv := CalculateImpliedVolatility(
        BlackScholesQuery(m, spot, strike, time, RiskFreeRate, AsReal(ltp), kind));
      if iv.Some? && Plausible(iv.value) {
        found := [Candidate(Abs(strike - spot), iv.value, kind)];
      }
    }
  }

  /** The entries one record contributes: call then put, each when it solves plausibly. */
  method ScanRecord(m: ClosedForm, time: real, symbol: string, spot: real, record: Value)
    returns (found: seq<Candidate>)
    ensures found == RecordCandidates(m, time, symbol, spot, record)
  {
    var parsed := ParseRecord(record, symbol);
    if parsed.None? {
      return [];
    }
    var quote := parsed.value;
    var strike := AsReal(quote.strike);
    var callFound := ScanSide(m, time, spot, strike, quote.call.ltp, Call);
    var putFound := ScanSide(m, time, spot, strike, quote.put.ltp, Put);
    found := callFound + putFound;
  }

  /** The IVs of the first `top` ranked entries that lie within 5% of spot. */
  method CollectInBand(ranked: array<Candidate>, top: nat, spot: real) returns (atmIvs: seq<real>)
    requires top <= ranked.Length && spot != 0.0
    ensures atmIvs == InBandIvs(ranked[..top], spot)
  {
    atmIvs := [];
    for k := 0 to top
      invariant atmIvs == InBandIvs(ranked[..k], spot)
    {
      assert ranked[..k + 1][..k] == ranked[..k];
      if ranked[k].distance / spot < AtmBand {
        atmIvs := atmIvs + [ranked[k].iv];
      }
    }
  }

  /** The scan: every record's entries, in record order. */
  method ScanChain(m: ClosedForm, time: real, symbol: string, spot: real, records: seq<Value>)
    returns (atmOptions: seq<Candidate>)
    ensures atmOptions == Candidates(m, time, symbol, spot, records)
  {
    atmOptions := [];
    for k := 0 to |records|
      invariant atmOptions == Candidates(m, time, symbol, spot, records[..k])
    {
      assert records[..k + 1][..k] == records[..k];
      var found := ScanRecord(m, time, symbol, spot, records[k]);
      atmOptions := atmOptions + found;
    }
    assert records[..|records|] == records;
  }

  /**
   * Unfolds `Aggregate` over a given ranking (the rounded mean of its band,
   * else its first entry): a step of the proof of `RankAndAverage`.
   */
  lemma AggregateOfRanking(cands: seq<Candidate>, spot: real, ranked: seq<Candidate>)
    requires forall i :: 0 <= i < |cands| ==> Plausible(cands[i].iv)
    requires cands != [] && spot != 0.0 && ranked == SortByDistance(cands)
    ensures |ranked| == |cands|
    ensures var band := InBandIvs(ranked[..Min(MaxAtmOptions, |ranked|)], spot);
      Aggregate(cands, spot) ==
        if band != [] then Some(Round2(Mean(band) * 100.0)) else Some(Round2(ranked[0].iv * 100.0))
  {
    PlausibleSurvivesRanking(cands);
  }

  /** Ranks the scanned entries in place and averages the in-band ones. */
  method RankAndAverage(atmOptions: seq<Candidate>, spot: real) returns (iv: Option<real>)
    requires forall i :: 0 <= i < |atmOptions| ==> Plausible(atmOptions[i].iv)
    ensures iv == Aggregate(atmOptions, spot)
  {
    if atmOptions == [] {
      return None;
    }
    var ranked := new Candidate[|atmOptions|](i requires 0 <= i < |atmOptions| => atmOptions[i]);
    assert ranked[..] == atmOptions;
    SortByDistanceInPlace(ranked);
    if spot == 0.0 {
      return None;
    }
    var top := Min(MaxAtmOptions, ranked.Length);
    var atmIvs := CollectInBand(ranked, top, spot);
    AggregateOfRanking(atmOptions, spot, ranked[..]);
    if atmIvs != [] {
      iv := Some(Round2(Mean(atmIvs) * 100.0));
    } else {
      iv := Some(Round2(ranked[0].iv * 100.0));
    }
  }

  /** Extracts the chain IV from the option-chain records. */
  method ExtractIvFromOptionChain(m: ClosedForm, time: real, symbol: string, spot: real,
                                  records: seq<Value>) returns (iv: Option<real>)
    ensures iv == ChainIv(m, time, symbol, spot, records)
  {
    var atmOptions := ScanChain(m, time, symbol, spot, records);
    iv := RankAndAverage(atmOptions, spot);
  }
}

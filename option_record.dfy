/**
 * The vendor's option-chain record: a positional list of 21 loosely typed
 * fields per strike, decoded into a named strike quote whose open interest
 * and volume are divided back by the instrument's lot size.
 */
module OptionRecord {
  import opened Common

  /** A dynamically typed field of the vendor payload (a JSON/Python value). */
  datatype Value =
    | Null
    | Bool(b: bool)
    | Int(i: int)
    | Float(x: real)
    | Str(s: string)
    | List(items: seq<Value>)

  /** Python truthiness: `None`, `False`, `0`, `0.0`, `""` and `[]` are false. */
  predicate Truthy(v: Value)
  {
    match v
    case Null => false
    case Bool(b) => b
    case Int(i) => i != 0
    case Float(x) => x != 0.0
    case Str(s) => s != []
    case List(items) => items != []
  }

  /** `isinstance(v, (int, float))`; a Python `bool` is an `int`. */
  predicate IsNumber(v: Value)
  {
    v.Bool? || v.Int? || v.Float?
  }

  /** The numeric value of a number field (`True` is 1). */
  function AsReal(v: Value): real
    requires IsNumber(v)
  {
    match v
    case Bool(b) => if b then 1.0 else 0.0
    case Int(i) => i as real
    case Float(x) => x
  }

  // Positions of the fields in a vendor record.
  const RecordWidth: nat := 21
  const CallOiIndex: nat := 3
  const CallLtpIndex: nat := 4
  const CallBidIndex: nat := 5
  const CallBidQtyIndex: nat := 6
  const CallAskIndex: nat := 7
  const CallAskQtyIndex: nat := 8
  const CallVolumeIndex: nat := 9
  const StrikeIndex: nat := 11
  const PutBidIndex: nat := 12
  const PutBidQtyIndex: nat := 13
  const PutAskIndex: nat := 14
  const PutAskQtyIndex: nat := 15
  const PutOiIndex: nat := 16
  const PutLtpIndex: nat := 18
  const PutVolumeIndex: nat := 19

  const DefaultLotSize: int := 500

  /** Contract multiplier per symbol: NIFTY 50, BANKNIFTY 15, anything else 500. */
  function GetLotSize(symbol: string): (lot: int)
    ensures lot > 0
    ensures lot == 50 <==> symbol == "NIFTY"
    ensures lot == 15 <==> symbol == "BANKNIFTY"
    ensures symbol != "NIFTY" && symbol != "BANKNIFTY" ==> lot == DefaultLotSize
  {
    if symbol == "NIFTY" then 50
    else if symbol == "BANKNIFTY" then 15
    else DefaultLotSize
  }

  /** The outcome of `raw / lot_size if raw and lot_size > 0 else None`. */
  datatype Quantity =
    | Missing               // the expression gave None
    | Amount(value: real)   // the division succeeded
    | Undividable           // the division raised TypeError

  function Normalise(raw: Value, lot: int): (q: Quantity)
    ensures q.Missing? <==> !Truthy(raw) || lot <= 0
    ensures q.Undividable? <==> Truthy(raw) && lot > 0 && !IsNumber(raw)
    ensures q.Amount? ==> IsNumber(raw) && q.value != 0.0 && q.value * lot as real == AsReal(raw)
  {
    if !Truthy(raw) || lot <= 0 then Missing
    else if IsNumber(raw) then Amount(AsReal(raw) / lot as real)
    else Undividable
  }

  function QuantityOption(q: Quantity): Option<real>
  {
    if q.Amount? then Some(q.value) else None
  }

  /** One side (call or put) of a strike quote. */
  datatype SideQuote = SideQuote(
    oi: Option<real>,
    ltp: Value,
    bid: Value,
    bidQty: Value,
    ask: Value,
    askQty: Value,
    volume: Option<real>)

  /** A decoded record: the strike as received and both sides. */
  datatype StrikeQuote = StrikeQuote(strike: Value, call: SideQuote, put: SideQuote)

  /** The fields whose raw value is divided by the lot size. */
  predicate QuantityFieldsDivisible(f: seq<Value>)
    requires |f| >= RecordWidth
  {
    forall k :: k in {CallOiIndex, CallVolumeIndex, PutOiIndex, PutVolumeIndex} ==>
      !Truthy(f[k]) || IsNumber(f[k])
  }

  /** What a record must look like to be decoded. */
  predicate Decodable(record: Value)
  {
    && record.List?
    && |record.items| >= RecordWidth
    && IsNumber(record.items[StrikeIndex])
    && QuantityFieldsDivisible(record.items)
  }

  /**
   * Decodes one record. The call volume is always read from index 9: the
   * fallback to index 10 only applies to records shorter than 10 fields,
   * which were rejected already.
   */
  function ParseRecord(record: Value, symbol: string): (r: Option<StrikeQuote>)
    ensures r.Some? <==> Decodable(record)
    ensures r.Some? ==> r.value.strike == record.items[StrikeIndex]
    // open interest and volume are divided by the lot size; zero or missing reads as None
    ensures r.Some? ==> var f, lot := record.items, GetLotSize(symbol);
      && r.value.call.oi == QuantityOption(Normalise(f[CallOiIndex], lot))
      && r.value.call.volume == QuantityOption(Normalise(f[CallVolumeIndex], lot))
      && r.value.put.oi == QuantityOption(Normalise(f[PutOiIndex], lot))
      && r.value.put.volume == QuantityOption(Normalise(f[PutVolumeIndex], lot))
    // prices and quantities at the touch are copied from their positions as received
    ensures r.Some? ==> var f, c, p := record.items, r.value.call, r.value.put;
      && c.ltp == f[CallLtpIndex] && c.bid == f[CallBidIndex] && c.bidQty == f[CallBidQtyIndex]
      && c.ask == f[CallAskIndex] && c.askQty == f[CallAskQtyIndex]
      && p.ltp == f[PutLtpIndex] && p.bid == f[PutBidIndex] && p.bidQty == f[PutBidQtyIndex]
      && p.ask == f[PutAskIndex] && p.askQty == f[PutAskQtyIndex]
  {
    if !record.List? || |record.items| < RecordWidth then None
    else
      var f := record.items;
      var lot := GetLotSize(symbol);
      var strike := f[StrikeIndex];
      if !IsNumber(strike) then None
      else
        var callOi := Normalise(f[CallOiIndex], lot);
        var callVol := Normalise(f[CallVolumeIndex], lot);
        var putOi := Normalise(f[PutOiIndex], lot);
        var putVol := Normalise(f[PutVolumeIndex], lot);
        if callOi.Undividable? || callVol.Undividable? || putOi.Undividable? || putVol.Undividable? then
          None
        else
          var call := SideQuote(QuantityOption(callOi), f[CallLtpIndex], f[CallBidIndex],
                                f[CallBidQtyIndex], f[CallAskIndex], f[CallAskQtyIndex],
                                QuantityOption(callVol));
          var put := SideQuote(QuantityOption(putOi), f[PutLtpIndex], f[PutBidIndex],
                               f[PutBidQtyIndex], f[PutAskIndex], f[PutAskQtyIndex],
                               QuantityOption(putVol));
          Some(StrikeQuote(strike, call, put))
  }

  /** The indices that decoding reads. */
  const UsedIndices: set<nat> := {CallOiIndex, CallLtpIndex, CallBidIndex, CallBidQtyIndex,
                                  CallAskIndex, CallAskQtyIndex, CallVolumeIndex, StrikeIndex,
                                  PutBidIndex, PutBidQtyIndex, PutAskIndex, PutAskQtyIndex,
                                  PutOiIndex, PutLtpIndex, PutVolumeIndex}

  /**
   * Two records of full width that agree on the used indices decode alike:
   * the symbol, expiry, timestamps, index 10 (so the call volume never comes
   * from there) and index 17 play no part.
   */
  lemma ParseReadsOnlyUsedFields(a: seq<Value>, b: seq<Value>, symbol: string)
    requires |a| >= RecordWidth && |b| >= RecordWidth
    requires forall k :: k in UsedIndices ==> a[k] == b[k]
    ensures ParseRecord(List(a), symbol) == ParseRecord(List(b), symbol)
  {
    assert a[StrikeIndex] == b[StrikeIndex];
    assert a[CallOiIndex] == b[CallOiIndex] && a[CallVolumeIndex] == b[CallVolumeIndex];
    assert a[PutOiIndex] == b[PutOiIndex] && a[PutVolumeIndex] == b[PutVolumeIndex];
    assert a[CallLtpIndex] == b[CallLtpIndex] && a[PutLtpIndex] == b[PutLtpIndex];
    assert a[CallBidIndex] == b[CallBidIndex] && a[CallBidQtyIndex] == b[CallBidQtyIndex];
    assert a[CallAskIndex] == b[CallAskIndex] && a[CallAskQtyIndex] == b[CallAskQtyIndex];
    assert a[PutBidIndex] == b[PutBidIndex] && a[PutBidQtyIndex] == b[PutBidQtyIndex];
    assert a[PutAskIndex] == b[PutAskIndex] && a[PutAskQtyIndex] == b[PutAskQtyIndex];
  }

  /** The raw vendor value of a normalised quantity: multiplied by the lot size. */
  function Raw(q: Option<real>, lot: int): Value
  {
    match q
    case None => Null
    case Some(v) => Float(v * lot as real)
  }

  /**
   * A vendor record carrying `q`, with the fields decoding does not read
   * left empty: the inverse of ParseRecord.
   */
  function EncodeRecord(q: StrikeQuote, lot: int): (f: seq<Value>)
    ensures |f| == RecordWidth
  {
    [Null, Null, Null,
     Raw(q.call.oi, lot), q.call.ltp, q.call.bid, q.call.bidQty, q.call.ask, q.call.askQty,
     Raw(q.call.volume, lot), Null,
     q.strike,
     q.put.bid, q.put.bidQty, q.put.ask, q.put.askQty, Raw(q.put.oi, lot), Null,
     q.put.ltp, Raw(q.put.volume, lot), Null]
  }

  /** A normalised quantity that survives a round trip: zero reads back as None. */
  predicate Representable(q: Option<real>)
  {
    q.Some? ==> q.value != 0.0
  }

  lemma RawRoundTrip(q: Option<real>, lot: int)
    requires lot > 0 && Representable(q)
    ensures Normalise(Raw(q, lot), lot) == (if q.Some? then Amount(q.value) else Missing)
    ensures QuantityOption(Normalise(Raw(q, lot), lot)) == q
  {
    if q.Some? {
      assert q.value * lot as real / lot as real == q.value;
    }
  }

  /**
   * Decoding the record that carries a quote gives the quote back, provided
   * the strike is a number and no open interest or volume is zero.
   */
  lemma ParseEncodeRoundTrip(q: StrikeQuote, symbol: string)
    requires IsNumber(q.strike)
    requires Representable(q.call.oi) && Representable(q.call.volume)
    requires Representable(q.put.oi) && Representable(q.put.volume)
    ensures ParseRecord(List(EncodeRecord(q, GetLotSize(symbol))), symbol) == Some(q)
  {
    var lot := GetLotSize(symbol);
    RawRoundTrip(q.call.oi, lot);
    RawRoundTrip(q.call.volume, lot);
    RawRoundTrip(q.put.oi, lot);
    RawRoundTrip(q.put.volume, lot);
  }

  /** A raw open interest or volume of zero decodes to None, never to 0. */
  lemma ZeroQuantityIsMissing(f: seq<Value>, symbol: string, k: nat)
    requires Decodable(List(f))
    requires k in {CallOiIndex, CallVolumeIndex, PutOiIndex, PutVolumeIndex}
    requires f[k] == Int(0) || f[k] == Float(0.0) || f[k] == Null
    ensures var q := ParseRecord(List(f), symbol).value;
      (k == CallOiIndex ==> q.call.oi == None) && (k == CallVolumeIndex ==> q.call.volume == None) &&
      (k == PutOiIndex ==> q.put.oi == None) && (k == PutVolumeIndex ==> q.put.volume == None)
  {
  }
}

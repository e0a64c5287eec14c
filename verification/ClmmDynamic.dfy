/** The CLMM dynamic-fee account as the swap receives it: 80 bytes of little-endian fields,
    all zero when there is no dynamic fee. */
module ClmmDynamic {
  import opened Results
  import opened Rounding
  import opened Bytes
  import opened TickBook
  import opened Clmm

  const SIZE: nat := 80

  predicate AllZero(bytes: seq<Byte>) {
    forall i :: 0 <= i < |bytes| ==> bytes[i] == 0
  }

  function DecodeDynamic(bytes: seq<Byte>): Result<Option<DynamicFee>> {
    if |bytes| != SIZE then Err(InvalidFee)
    else if AllZero(bytes) then Ok(None)
    else
      Ok(Some(DynamicFee(
        Field(bytes, 0, 2), Field(bytes, 2, 2), Field(bytes, 4, 2), Field(bytes, 6, 4), Field(bytes, 10, 4),
        Signed(Field(bytes, 14, 4), 4), Field(bytes, 18, 4), Field(bytes, 22, 4), Field(bytes, 26, 8))))
  }

  /** The whole swap, from the account's bytes. */
  function SwapEncoded(
      pool: Pool, ticks: seq<Tick>, amount: int, limit: int, feeOn: int, bytes: seq<Byte>,
      timestamp: int, down: bool): Result<SwapResult>
  {
    var dynamic :- DecodeDynamic(bytes);
    Swap(pool, ticks, amount, limit, feeOn, dynamic, timestamp, down)
  }

  /** The fields fit the widths they are stored in. */
  predicate Storable(d: DynamicFee) {
    && 0 <= d.filterPeriod < Power(256, 2) && 0 <= d.decayPeriod < Power(256, 2) && 0 <= d.reductionFactor < Power(256, 2)
    && 0 <= d.control < Power(256, 4) && 0 <= d.maximum < Power(256, 4)
    && 0 <= 2 * d.reference + Power(256, 4) < 2 * Power(256, 4)
    && 0 <= d.volatilityReference < Power(256, 4) && 0 <= d.volatility < Power(256, 4)
    && 0 <= d.lastUpdate < Power(256, 8)
  }

  function Padding(n: nat): (bytes: seq<Byte>)
    ensures |bytes| == n
  {
    seq(n, i => 0)
  }

  function EncodeDynamic(d: DynamicFee): seq<Byte>
    requires Storable(d)
  {
    Encode(d.filterPeriod, 2) + Encode(d.decayPeriod, 2) + Encode(d.reductionFactor, 2) + Encode(d.control, 4)
    + Encode(d.maximum, 4) + Encode(Unsign(d.reference, 4), 4) + Encode(d.volatilityReference, 4)
    + Encode(d.volatility, 4) + Encode(d.lastUpdate, 8) + Padding(46)
  }

  lemma SignedUnsign(n: int, width: Pos)
    requires 0 <= 2 * n + Power(256, width) < 2 * Power(256, width)
    ensures 0 <= Unsign(n, width) < Power(256, width) && Signed(Unsign(n, width), width) == n
  {
  }

  /** Every decoded account is storable. */
  lemma DecodedIsStorable(bytes: seq<Byte>)
    requires DecodeDynamic(bytes).Ok? && DecodeDynamic(bytes).value.Some?
    ensures Storable(DecodeDynamic(bytes).value.value)
  {
    hide Decode, Power;
    DecodeInRange(bytes[0..2]);
    DecodeInRange(bytes[2..4]);
    DecodeInRange(bytes[4..6]);
    DecodeInRange(bytes[6..10]);
    DecodeInRange(bytes[10..14]);
    DecodeInRange(bytes[14..18]);
    DecodeInRange(bytes[18..22]);
    DecodeInRange(bytes[22..26]);
    DecodeInRange(bytes[26..34]);
  }

  /** A rule settled from a decoded account has no negative volatility. */
  lemma SettledIsNonNegative(d: DynamicFee, spacing: int, group: int, timestamp: int)
    requires Storable(d) && SettleRule(d, spacing, group, timestamp).Ok?
    ensures
      var rule := SettleRule(d, spacing, group, timestamp).value;
      rule.Dynamic? && 0 <= rule.volatilityReference && 0 <= rule.maximum
  {
    hide Power;
    MulMono(0, d.volatility, d.reductionFactor);
    FloorGe(d.volatility * d.reductionFactor, 10000, 0);
  }

  /** A storable account with a filter period is read back as it was written. */
  lemma DecodeEncodeDynamic(d: DynamicFee)
    requires Storable(d) && 0 < d.filterPeriod
    ensures DecodeDynamic(EncodeDynamic(d)) == Ok(Some(d))
  {
    hide Decode, Encode, Power;
    var bytes := EncodeDynamic(d);
    SignedUnsign(d.reference, 4);
    DecodeEncode(d.filterPeriod, 2);
    DecodeEncode(d.decayPeriod, 2);
    DecodeEncode(d.reductionFactor, 2);
    DecodeEncode(d.control, 4);
    DecodeEncode(d.maximum, 4);
    DecodeEncode(Unsign(d.reference, 4), 4);
    DecodeEncode(d.volatilityReference, 4);
    DecodeEncode(d.volatility, 4);
    DecodeEncode(d.lastUpdate, 8);
    assert bytes[0..2] == Encode(d.filterPeriod, 2);
    assert bytes[2..4] == Encode(d.decayPeriod, 2);
    assert bytes[4..6] == Encode(d.reductionFactor, 2);
    assert bytes[6..10] == Encode(d.control, 4);
    assert bytes[10..14] == Encode(d.maximum, 4);
    assert bytes[14..18] == Encode(Unsign(d.reference, 4), 4);
    assert bytes[18..22] == Encode(d.volatilityReference, 4);
    assert bytes[22..26] == Encode(d.volatility, 4);
    assert bytes[26..34] == Encode(d.lastUpdate, 8);
    if AllZero(bytes) {
      ZeroField(bytes[0..2]);
    }
  }

  lemma {:induction false} ZeroField(bytes: seq<Byte>)
    requires AllZero(bytes)
    ensures Decode(bytes) == 0
  {
    if bytes != [] {
      ZeroField(bytes[1..]);
    }
  }
}

/** From a raw oracle quote to an exit price that can always be struck. */
module Pricing {
  import opened Numbers
  import opened Nonlinear
  import opened WideMath
  import opened Position

  const PRICE_SCALE_EXPONENT: int := 10
  const MIN_EXPONENT: int := -18
  const MAX_EXPONENT: int := 0
  const MAX_SPREAD_BPS: int := 500
  const MAX_ASSET_DECIMALS: int := 18

  datatype RawPrice = RawPrice(mantissa: i64, confidence: u64, exponent: int, publishTime: i64, postedSlot: u64)

  datatype OracleGuards = OracleGuards(
    maxAgeSeconds: u32, maxAgeSlots: u64, maxFutureSkewSeconds: u32, maxConfidenceBps: u16,
    minPrice: u128, maxPrice: u128, expectedExponent: int)

  datatype ValidatedPrice = ValidatedPrice(price: u128, confidence: u128, publishTime: i64, postedSlot: u64)

  datatype ClampedPrice = ClampedPrice(mid: u128, confidence: u128)

  datatype PriceDirection = Open | Close

  // ---- crates/risk/src/oracle.rs ----

  function NormalizeMagnitude(magnitude: u128, exponent: int): Result<u128, RiskError> {
    if !(MIN_EXPONENT <= exponent <= MAX_EXPONENT) then
      Failure(UnexpectedExponent)
    else if exponent + PRICE_SCALE_EXPONENT >= 0 then
      var factor :- Pow10(exponent + PRICE_SCALE_EXPONENT);
      CheckedU128(magnitude * factor)
    else
      var factor :- Pow10(-(exponent + PRICE_SCALE_EXPONENT));
      CheckedU128(magnitude / factor)
  }

  function NormalizePrice(mantissa: i64, exponent: int): Result<u128, RiskError> {
    if mantissa <= 0 then Failure(InvalidPrice) else NormalizeMagnitude(mantissa, exponent)
  }

  function ValidatePrice(raw: RawPrice, guards: OracleGuards, nowUnix: i64, nowSlot: u64)
    : Result<ValidatedPrice, RiskError>
  {
    if raw.exponent != guards.expectedExponent then Failure(UnexpectedExponent) else
    :- Need(raw.publishTime - nowUnix <= guards.maxFutureSkewSeconds, PriceFromTheFuture);
    :- Need(nowUnix - raw.publishTime < I64_LIMIT, MathOverflow);
    :- Need(nowUnix - raw.publishTime <= guards.maxAgeSeconds, StalePrice);
    :- Need(raw.postedSlot <= nowSlot, PriceFromTheFuture);
    :- Need(nowSlot - raw.postedSlot <= guards.maxAgeSlots, StalePrice);
    var price :- NormalizePrice(raw.mantissa, raw.exponent);
    :- Need(price != 0, InvalidPrice);
    var confidence :- NormalizeMagnitude(raw.confidence, raw.exponent);
    var limit :- CheckedU128(price * guards.maxConfidenceBps);
    var scaled :- CheckedU128(confidence * BPS_DENOMINATOR);
    :- Need(scaled <= limit, ConfidenceTooWide);
    :- Need(guards.minPrice <= price <= guards.maxPrice, PriceOutOfBand);
    Success(ValidatedPrice(price, confidence, raw.publishTime, raw.postedSlot))
  }

  function ValidateGuardOrdering(trading: OracleGuards, liquidation: OracleGuards): Check<RiskError> {
    Need(
      && trading.maxAgeSeconds <= liquidation.maxAgeSeconds
      && trading.maxAgeSlots <= liquidation.maxAgeSlots
      && trading.maxFutureSkewSeconds <= liquidation.maxFutureSkewSeconds
      && trading.maxConfidenceBps <= liquidation.maxConfidenceBps
      && trading.minPrice == liquidation.minPrice
      && trading.maxPrice == liquidation.maxPrice
      && trading.expectedExponent == liquidation.expectedExponent,
      GuardsNotOrdered)
  }

  // ---- programs/sakura-perps/src/market.rs ----

  /** A qualified feed, reduced to the fields its two guard sets and the clamp read. */
  datatype Feed = Feed(trading: OracleGuards, liquidation: OracleGuards, assetDecimals: u8, maxDivergenceBps: u16)

  /** The numeric gates `handle_qualify_feed` applies before a feed can back a market. */
  predicate Qualified(feed: Feed) {
    && MIN_EXPONENT <= feed.trading.expectedExponent <= MAX_EXPONENT
    && 0 < feed.trading.minPrice < feed.trading.maxPrice
    && feed.assetDecimals <= MAX_ASSET_DECIMALS
    && 0 < feed.maxDivergenceBps < BPS_DENOMINATOR
    && feed.liquidation.maxConfidenceBps + MAX_SPREAD_BPS < BPS_DENOMINATOR
    && ValidateGuardOrdering(feed.trading, feed.liquidation).Pass?
  }

  /** The feed's moving average at price scale; a broken one reads as zero. */
  function LoadEma(emaMantissa: i64, exponent: int): Result<u128, RiskError> {
    if emaMantissa > 0 then NormalizePrice(emaMantissa, exponent) else Success(0)
  }

  function ClampToEmaBand(price: ValidatedPrice, ema: u128, maxDivergenceBps: u16): Result<ClampedPrice, RiskError> {
    if ema == 0 || price.price == 0 then
      Success(ClampedPrice(price.price, price.confidence))
    else
      var below :- CheckedU128(BPS_DENOMINATOR - maxDivergenceBps);
      var lo :- FloorMulDiv(ema, below, BPS_DENOMINATOR);
      var hi :- CeilMulDiv(ema, BPS_DENOMINATOR + maxDivergenceBps, BPS_DENOMINATOR);
      var mid: u128 := if price.price < lo then lo else if price.price > hi then hi else price.price;
      if mid == price.price then
        Success(ClampedPrice(mid, price.confidence))
      else
        var confidence :- FloorMulDiv(price.confidence, mid, price.price);
        Success(ClampedPrice(mid, confidence))
  }

  // ---- crates/risk/src/position.rs ----

  predicate PaysUp(side: Side, direction: PriceDirection) {
    (side.Long? && direction.Open?) || (side.Short? && direction.Close?)
  }

  function ExecutionPrice(side: Side, direction: PriceDirection, mid: u128, confidence: u128, spreadBps: u16)
    : Result<u128, RiskError>
  {
    if mid == 0 then Failure(InvalidPrice) else
    :- Need(spreadBps <= BPS_DENOMINATOR, InvalidBasisPoints);
    if PaysUp(side, direction) then
      var spread :- CeilMulDiv(mid, spreadBps, BPS_DENOMINATOR);
      var widened :- CheckedU128(mid + confidence);
      CheckedU128(widened + spread)
    else
      var spread :- FloorMulDiv(mid, spreadBps, BPS_DENOMINATOR);
      var adverse :- CheckedU128(confidence + spread);
      :- Need(adverse < mid, InvalidPrice);
      Success(mid - adverse)
  }

  // ---- Totality of an exit ----

  /** What `validate_price` establishes and the clamp keeps: the confidence is a bounded fraction of the price. */
  predicate WithinConfidence(mid: int, confidence: int, maxConfidenceBps: int) {
    0 < mid && confidence * BPS_DENOMINATOR <= mid * maxConfidenceBps
  }

  /** A 63-bit mantissa at any admitted exponent stays below 2^98. */
  const NORMALIZED_LIMIT: int := 0x1_0000_0000_0000_0000 * 10_000_000_000

  lemma NormalizedFits(magnitude: u64, exponent: int)
    requires MIN_EXPONENT <= exponent <= MAX_EXPONENT
    ensures NormalizeMagnitude(magnitude, exponent).Success?
    ensures NormalizeMagnitude(magnitude, exponent).value < NORMALIZED_LIMIT
  {
    var shift := exponent + PRICE_SCALE_EXPONENT;
    TenToValues();
    if shift >= 0 {
      TenToMono(shift, 10);
      MulMono(Pow(10, shift), PRICE_SCALE, magnitude);
      MulMono(0, magnitude, Pow(10, shift));
      MulStrict(magnitude, U64_LIMIT, PRICE_SCALE);
    } else {
      ProductNat(magnitude, 1, Pow(10, -shift));
    }
  }

  /**
   * A magnitude m at exponent e is worth m * 10^e, floored at ten decimals, for every exponent from -18 to 0 and no
   * other.
   */
  lemma NormalizedExact(magnitude: u128, exponent: int)
    ensures var r := NormalizeMagnitude(magnitude, exponent);
            if -18 <= exponent <= 0
            then IsFloor(r, magnitude * 10_000_000_000, Pow(10, -exponent))
            else r == Failure(UnexpectedExponent)
  {
    if MIN_EXPONENT <= exponent <= MAX_EXPONENT {
      var shift := exponent + PRICE_SCALE_EXPONENT;
      TenToValues();
      if shift >= 0 {
        PowSum(10, shift, -exponent);
        ScaledUp(magnitude, Pow(10, shift), Pow(10, -exponent));
      } else {
        PowSum(10, -shift, 10);
        ScaledDown(magnitude, Pow(10, -shift));
      }
    }
  }

  lemma ScaledUp(m: nat, up: int, down: int)
    requires 0 < up && 0 < down && up * down == PRICE_SCALE
    ensures m * up * down == m * PRICE_SCALE
    ensures m * up < U128_LIMIT <==> m * PRICE_SCALE < U128_LIMIT * down
    ensures m * PRICE_SCALE < (m * up + 1) * down
    ensures 0 <= m * up
  {
    assert m * up * down == m * (up * down);
    assert (m * up + 1) * down == m * up * down + down;
    MulMono(0, m, up);
    if m * up < U128_LIMIT {
      MulStrict(m * up, U128_LIMIT, down);
    } else {
      MulMono(U128_LIMIT, m * up, down);
    }
  }

  lemma ScaledDown(m: u128, down: int)
    requires 0 < down
    ensures 0 <= m / down < U128_LIMIT
    ensures var (q, d) := (m / down, down * PRICE_SCALE);
            && m * PRICE_SCALE < U128_LIMIT * d
            && q * d <= m * PRICE_SCALE < (q + 1) * d
  {
    DivBounds(m, down);
    DivGalois(0, m, down);
    var q := m / down;
    MulMono(1, down, m);
    MulMono(q * down, m, PRICE_SCALE);
    MulMono(m + 1, (q + 1) * down, PRICE_SCALE);
    assert (q + 1) * down == q * down + down;
    assert q * down * PRICE_SCALE == q * (down * PRICE_SCALE);
    assert (q + 1) * down * PRICE_SCALE == (q + 1) * (down * PRICE_SCALE);
    if U128_LIMIT <= q {
      MulMono(U128_LIMIT, q, down);
    }
    MulStrict(m, U128_LIMIT, PRICE_SCALE);
    MulMono(1, down, U128_LIMIT * PRICE_SCALE);
    assert U128_LIMIT * (down * PRICE_SCALE) == down * (U128_LIMIT * PRICE_SCALE);
  }

  /** A price takes a positive mantissa; an average without one reads as zero. */
  lemma MantissasExact(mantissa: i64, exponent: int)
    ensures NormalizePrice(mantissa, exponent)
            == if 0 < mantissa then NormalizeMagnitude(mantissa, exponent) else Failure(InvalidPrice)
    ensures LoadEma(mantissa, exponent)
            == if 0 < mantissa then NormalizeMagnitude(mantissa, exponent) else Success(0)
  {
  }

  /** Published and posted recently enough, and not ahead of either clock. */
  predicate Fresh(raw: RawPrice, guards: OracleGuards, nowUnix: int, nowSlot: int) {
    && raw.publishTime - guards.maxFutureSkewSeconds <= nowUnix <= raw.publishTime + guards.maxAgeSeconds
    && raw.postedSlot <= nowSlot <= raw.postedSlot + guards.maxAgeSlots
  }

  /**
   * A quote is accepted exactly when its exponent is the qualified one, both clocks find it fresh, its price is
   * positive and inside the band, and its confidence is within its fraction of the price. No product of the check
   * overflows.
   */
  lemma ValidateAcceptsIff(raw: RawPrice, guards: OracleGuards, nowUnix: i64, nowSlot: u64)
    ensures var r := ValidatePrice(raw, guards, nowUnix, nowSlot);
            var (price, confidence) := (NormalizeMagnitude(Max(raw.mantissa, 0), raw.exponent),
                                        NormalizeMagnitude(raw.confidence, raw.exponent));
            if raw.exponent == guards.expectedExponent && -18 <= raw.exponent <= 0
               && Fresh(raw, guards, nowUnix, nowSlot)
               && price.Success? && 0 < price.value && guards.minPrice <= price.value <= guards.maxPrice
               && confidence.Success?
               && confidence.value * 10_000 <= price.value * guards.maxConfidenceBps
            then r == Success(ValidatedPrice(price.value, confidence.value, raw.publishTime, raw.postedSlot))
            else r.Failure?
  {
    hide NormalizeMagnitude;
    if MIN_EXPONENT <= raw.exponent <= MAX_EXPONENT {
      NormalizedFits(Max(raw.mantissa, 0), raw.exponent);
      NormalizedFits(raw.confidence, raw.exponent);
      var price := NormalizeMagnitude(Max(raw.mantissa, 0), raw.exponent).value;
      MulMono(guards.maxConfidenceBps, U16_LIMIT, price);
      MulMono(0, guards.maxConfidenceBps, price);
      if raw.mantissa <= 0 {
        ZeroNormalizes(raw.exponent);
      }
    } else {
      UnqualifiedExponent(Max(raw.mantissa, 0), raw.exponent);
    }
  }

  lemma ZeroNormalizes(exponent: int)
    requires MIN_EXPONENT <= exponent <= MAX_EXPONENT
    ensures NormalizeMagnitude(0, exponent) == Success(0)
  {
    NormalizedExact(0, exponent);
    var r := NormalizeMagnitude(0, exponent);
    if 0 < r.value {
      MulMono(1, r.value, Pow(10, -exponent));
    }
  }

  lemma UnqualifiedExponent(magnitude: u128, exponent: int)
    requires !(MIN_EXPONENT <= exponent <= MAX_EXPONENT)
    ensures NormalizeMagnitude(magnitude, exponent).Failure?
  {
  }

  /** What the trading guards accept the liquidation guards of the same feed accept, at the same price. */
  lemma TradableIsLiquidatable(trading: OracleGuards, liquidation: OracleGuards, raw: RawPrice, nowUnix: i64,
                               nowSlot: u64)
    requires ValidateGuardOrdering(trading, liquidation).Pass?
    ensures ValidatePrice(raw, trading, nowUnix, nowSlot).Success? ==>
              ValidatePrice(raw, liquidation, nowUnix, nowSlot) == ValidatePrice(raw, trading, nowUnix, nowSlot)
  {
    hide NormalizeMagnitude, ValidatePrice;
    ValidateAcceptsIff(raw, trading, nowUnix, nowSlot);
    ValidateAcceptsIff(raw, liquidation, nowUnix, nowSlot);
    if ValidatePrice(raw, trading, nowUnix, nowSlot).Success? {
      var price := ValidatePrice(raw, trading, nowUnix, nowSlot).value.price;
      MulMono(trading.maxConfidenceBps, liquidation.maxConfidenceBps, price);
    }
  }

  /** Guards are ordered exactly when liquidation is nowhere the stricter, over the same band and exponent. */
  lemma OrderedIff(t: OracleGuards, l: OracleGuards)
    ensures ValidateGuardOrdering(t, l).Pass? <==>
              && t.maxAgeSeconds <= l.maxAgeSeconds && t.maxAgeSlots <= l.maxAgeSlots
              && t.maxFutureSkewSeconds <= l.maxFutureSkewSeconds && t.maxConfidenceBps <= l.maxConfidenceBps
              && t.minPrice == l.minPrice && t.maxPrice == l.maxPrice && t.expectedExponent == l.expectedExponent
  {
  }

  /**
   * What a feed needs to back a market: an exponent the scale covers, a band, an average held to less than the whole
   * price, a confidence that leaves room for the widest spread, and ordered guards.
   */
  lemma QualifiedIff(feed: Feed)
    ensures Qualified(feed) <==>
              && -18 <= feed.trading.expectedExponent <= 0 && 0 < feed.trading.minPrice < feed.trading.maxPrice
              && feed.assetDecimals <= 18 && 0 < feed.maxDivergenceBps < 10_000
              && feed.liquidation.maxConfidenceBps < 9_500
              && ValidateGuardOrdering(feed.trading, feed.liquidation).Pass?
  {
  }

  /** The clamp keeps a positive mid and the confidence inequality, whatever the average says. */
  lemma ClampKeepsConfidence(price: ValidatedPrice, ema: u128, maxDivergenceBps: u16, maxConfidenceBps: u16)
    requires WithinConfidence(price.price, price.confidence, maxConfidenceBps)
    requires ClampToEmaBand(price, ema, maxDivergenceBps).Success?
    ensures var c := ClampToEmaBand(price, ema, maxDivergenceBps).value;
            WithinConfidence(c.mid, c.confidence, maxConfidenceBps)
  {
    var c := ClampToEmaBand(price, ema, maxDivergenceBps).value;
    if ema != 0 && c.mid != price.price {
      MulDivExact(ema, BPS_DENOMINATOR + maxDivergenceBps, BPS_DENOMINATOR);
      MulDivExact(price.confidence, c.mid, price.price);
      var hi := CeilMulDiv(ema, BPS_DENOMINATOR + maxDivergenceBps, BPS_DENOMINATOR).value;
      MulMono(1, ema, BPS_DENOMINATOR + maxDivergenceBps);
      assert 0 < hi;
      Rescaled(price.price, price.confidence, c.mid, c.confidence, maxConfidenceBps);
    }
  }

  /**
   * The clamp moves a price only as far as the nearer edge of the band around the average, edges rounded
   * outward, and leaves a price inside the band alone.
   */
  lemma ClampLandsInBand(price: ValidatedPrice, ema: u128, maxDivergenceBps: u16)
    requires ema != 0 && price.price != 0 && maxDivergenceBps < BPS_DENOMINATOR
    requires ClampToEmaBand(price, ema, maxDivergenceBps).Success?
    ensures var c := ClampToEmaBand(price, ema, maxDivergenceBps).value;
            var (down, up) := (ema * (BPS_DENOMINATOR - maxDivergenceBps), ema * (BPS_DENOMINATOR + maxDivergenceBps));
            && down < (c.mid + 1) * BPS_DENOMINATOR && (c.mid - 1) * BPS_DENOMINATOR < up
            && (down <= price.price * BPS_DENOMINATOR <= up ==> c == ClampedPrice(price.price, price.confidence))
            && (c.mid > price.price ==> c.mid * BPS_DENOMINATOR <= down)
            && (c.mid < price.price ==> up <= c.mid * BPS_DENOMINATOR)
  {
    MulDivExact(ema, BPS_DENOMINATOR - maxDivergenceBps, BPS_DENOMINATOR);
    MulDivExact(ema, BPS_DENOMINATOR + maxDivergenceBps, BPS_DENOMINATOR);
    MulMono(BPS_DENOMINATOR - maxDivergenceBps, BPS_DENOMINATOR + maxDivergenceBps, ema);
  }

  /**
   * A price inside its band, or without an average to hold it to, is left alone with its confidence; one that moves
   * takes its confidence along in proportion, floored.
   */
  lemma ClampExact(price: ValidatedPrice, ema: u128, maxDivergenceBps: u16)
    ensures var r := ClampToEmaBand(price, ema, maxDivergenceBps);
            if ema == 0 || price.price == 0 then r == Success(ClampedPrice(price.price, price.confidence))
            else
              && (maxDivergenceBps > 10_000 ==> r == Failure(MathOverflow))
              && (r.Success? ==>
                    && (r.value.mid == price.price ==> r.value.confidence == price.confidence)
                    && (r.value.mid != price.price ==>
                          IsFloor(Success(r.value.confidence), price.confidence * r.value.mid, price.price)))
  {
    hide IsFloor;
    var r := ClampToEmaBand(price, ema, maxDivergenceBps);
    if ema != 0 && price.price != 0 && r.Success? && r.value.mid != price.price {
      MulDivRounds(price.confidence, r.value.mid, price.price);
    }
  }

  lemma Rescaled(price: int, confidence: int, mid: int, confidence': int, bps: int)
    requires WithinConfidence(price, confidence, bps) && 0 < mid && 0 <= bps
    requires confidence' * price <= confidence * mid
    ensures WithinConfidence(mid, confidence', bps)
  {
    MulMono(confidence' * price, confidence * mid, BPS_DENOMINATOR);
    MulMono(confidence * BPS_DENOMINATOR, price * bps, mid);
    assert confidence * mid * BPS_DENOMINATOR == confidence * BPS_DENOMINATOR * mid;
    assert confidence' * price * BPS_DENOMINATOR == confidence' * BPS_DENOMINATOR * price;
    assert price * bps * mid == mid * bps * price;
    MulCancelLeq(confidence' * BPS_DENOMINATOR, mid * bps, price);
  }

  /** Paying up, a trade is charged the confidence and the spread, rounded up. */
  lemma ChargedExact(side: Side, direction: PriceDirection, mid: u128, confidence: u128, spreadBps: u16)
    requires 0 < mid && spreadBps <= 10_000 && side.Long? == direction.Open?
    ensures var r := ExecutionPrice(side, direction, mid, confidence, spreadBps);
            if r.Success?
            then IsCeil(Success(r.value - mid - confidence), mid * spreadBps, 10_000)
            else r.error == MathOverflow
                 && (U128_LIMIT - 1 - mid - confidence) * 10_000 < mid * spreadBps
  {
    hide CeilMulDiv;
    MulDivRounds(mid, spreadBps, BPS_DENOMINATOR);
    MulMono(spreadBps, BPS_DENOMINATOR, mid);
    MulMono(0, spreadBps, mid);
    MulStrict(mid, U128_LIMIT, BPS_DENOMINATOR);
  }

  /** Receiving, a trade gives up the confidence and the spread, rounded down, and must have something left. */
  lemma GivenUpExact(side: Side, direction: PriceDirection, mid: u128, confidence: u128, spreadBps: u16)
    requires 0 < mid && spreadBps <= 10_000 && side.Long? != direction.Open?
    ensures var r := ExecutionPrice(side, direction, mid, confidence, spreadBps);
            if r.Success?
            then 0 < r.value
                 && mid - confidence - r.value >= 0
                 && IsFloor(Success(mid - confidence - r.value), mid * spreadBps, 10_000)
            else (mid - confidence) * 10_000 <= mid * spreadBps
  {
    hide FloorMulDiv;
    MulDivRounds(mid, spreadBps, BPS_DENOMINATOR);
    MulMono(spreadBps, BPS_DENOMINATOR, mid);
    MulMono(0, spreadBps, mid);
    MulStrict(mid, U128_LIMIT, BPS_DENOMINATOR);
  }

  /** No price is struck from a mid of zero or for a spread above 100%. */
  lemma ExecutionRefusals(side: Side, direction: PriceDirection, mid: u128, confidence: u128, spreadBps: u16)
    ensures mid == 0 ==> ExecutionPrice(side, direction, mid, confidence, spreadBps) == Failure(InvalidPrice)
    ensures 0 < mid && 10_000 < spreadBps ==>
              ExecutionPrice(side, direction, mid, confidence, spreadBps) == Failure(InvalidBasisPoints)
  {
  }

  /** Under the gate, the trade is struck, never better than mid, and never for `InvalidPrice`. */
  lemma ExecutionPriceIsTotal(side: Side, direction: PriceDirection, mid: u128, confidence: u128, spreadBps: u16,
                              maxConfidenceBps: u16)
    requires WithinConfidence(mid, confidence, maxConfidenceBps)
    requires spreadBps <= MAX_SPREAD_BPS && maxConfidenceBps + MAX_SPREAD_BPS < BPS_DENOMINATOR
    ensures var r := ExecutionPrice(side, direction, mid, confidence, spreadBps);
            if r.Success? then 0 < r.value && (if PaysUp(side, direction) then mid <= r.value else r.value <= mid)
            else PaysUp(side, direction) && r.error == MathOverflow && U128_LIMIT <= 3 * mid
  {
    MulDivExact(mid, spreadBps, BPS_DENOMINATOR);
    MulMono(spreadBps, MAX_SPREAD_BPS, mid);
    MulMono(maxConfidenceBps, BPS_DENOMINATOR - MAX_SPREAD_BPS - 1, mid);
    MulMono(0, mid, spreadBps);
    assert mid * (BPS_DENOMINATOR - MAX_SPREAD_BPS - 1) + mid * MAX_SPREAD_BPS == mid * (BPS_DENOMINATOR - 1);
    var floor := FloorMulDiv(mid, spreadBps, BPS_DENOMINATOR);
    if floor.Failure? {
      assert false;
    }
    var ceil := CeilMulDiv(mid, spreadBps, BPS_DENOMINATOR);
    if ceil.Failure? {
      assert false;
    }
  }

  lemma ValidatedIsWithinConfidence(raw: RawPrice, guards: OracleGuards, nowUnix: i64, nowSlot: u64)
    requires ValidatePrice(raw, guards, nowUnix, nowSlot).Success?
    ensures var p := ValidatePrice(raw, guards, nowUnix, nowSlot).value;
            && WithinConfidence(p.price, p.confidence, guards.maxConfidenceBps)
            && NormalizePrice(raw.mantissa, guards.expectedExponent) == Success(p.price)
            && guards.minPrice <= p.price <= guards.maxPrice
            && nowUnix - guards.maxAgeSeconds <= p.publishTime <= nowUnix + guards.maxFutureSkewSeconds
            && nowSlot - guards.maxAgeSlots <= p.postedSlot <= nowSlot
  {
  }

  /** A product bounded by a whole number of divisors rounds, either way, to at most that number. */
  lemma RoundsWithin(a: u128, b: u128, c: u128, bound: u128)
    requires 0 < c && a * b <= bound * c
    ensures FloorMulDiv(a, b, c).Success? && FloorMulDiv(a, b, c).value <= bound
    ensures CeilMulDiv(a, b, c).Success? && CeilMulDiv(a, b, c).value <= bound
  {
    ProductNat(a, b, c);
    QuotientsWithin(a * b, c, bound);
  }

  lemma QuotientsWithin(n: int, c: int, bound: int)
    requires 0 < c && 0 <= n <= bound * c
    ensures 0 <= n / c <= CeilDiv(n, c) <= bound
  {
    DivGalois(0, n, c);
    DivGalois(-bound, -n, c);
    assert -bound * c == -(bound * c);
    CeilDivBounds(n, c);
  }

  /** Small averages cannot overflow the band. */
  lemma ClampIsTotal(price: ValidatedPrice, ema: u128, maxDivergenceBps: u16)
    requires price.price < NORMALIZED_LIMIT && price.confidence <= price.price
    requires ema < NORMALIZED_LIMIT && maxDivergenceBps < BPS_DENOMINATOR
    ensures ClampToEmaBand(price, ema, maxDivergenceBps).Success?
    ensures ClampToEmaBand(price, ema, maxDivergenceBps).value.mid <= 2 * NORMALIZED_LIMIT
  {
    hide FloorMulDiv, CeilMulDiv;
    if ema != 0 && price.price != 0 {
      var (down, up) := (BPS_DENOMINATOR - maxDivergenceBps, BPS_DENOMINATOR + maxDivergenceBps);
      MulMono(down, BPS_DENOMINATOR, ema);
      MulMono(up, 2 * BPS_DENOMINATOR, ema);
      RoundsWithin(ema, down, BPS_DENOMINATOR, ema);
      RoundsWithin(ema, up, BPS_DENOMINATOR, 2 * ema);
      var lo, hi := FloorMulDiv(ema, down, BPS_DENOMINATOR).value, CeilMulDiv(ema, up, BPS_DENOMINATOR).value;
      var mid: u128 := if price.price < lo then lo else if price.price > hi then hi else price.price;
      MulMono(price.confidence, price.price, mid);
      RoundsWithin(price.confidence, mid, price.price, mid);
    }
  }

  /**
   * Exits are always priceable: whatever a qualified feed publishes and validation accepts, under
   * either guard set, for any moving average, side, direction and legal spread.
   */
  lemma ExitsAreAlwaysPriceable(feed: Feed, guards: OracleGuards, raw: RawPrice, emaMantissa: i64, nowUnix: i64,
                                nowSlot: u64,
                                side: Side, direction: PriceDirection, spreadBps: u16)
    requires Qualified(feed) && (guards == feed.trading || guards == feed.liquidation)
    requires ValidatePrice(raw, guards, nowUnix, nowSlot).Success? && spreadBps <= MAX_SPREAD_BPS
    ensures LoadEma(emaMantissa, raw.exponent).Success?
    ensures var ema := LoadEma(emaMantissa, raw.exponent).value;
            var clamped := ClampToEmaBand(ValidatePrice(raw, guards, nowUnix, nowSlot).value, ema,
                                          feed.maxDivergenceBps);
            && clamped.Success?
            && var struck := ExecutionPrice(side, direction, clamped.value.mid, clamped.value.confidence, spreadBps);
               && struck.Success? && 0 < struck.value
               && (if PaysUp(side, direction) then clamped.value.mid <= struck.value
                   else struck.value <= clamped.value.mid)
  {
    ValidatedIsWithinConfidence(raw, guards, nowUnix, nowSlot);
    var p := ValidatePrice(raw, guards, nowUnix, nowSlot).value;
    NormalizedFits(raw.mantissa, raw.exponent);
    if emaMantissa > 0 {
      NormalizedFits(emaMantissa, raw.exponent);
    }
    var ema := LoadEma(emaMantissa, raw.exponent).value;
    MulMono(guards.maxConfidenceBps, BPS_DENOMINATOR, p.price);
    ClampIsTotal(p, ema, feed.maxDivergenceBps);
    ClampKeepsConfidence(p, ema, feed.maxDivergenceBps, guards.maxConfidenceBps);
    var c := ClampToEmaBand(p, ema, feed.maxDivergenceBps).value;
    ExecutionPriceIsTotal(side, direction, c.mid, c.confidence, spreadBps, guards.maxConfidenceBps);
  }
}

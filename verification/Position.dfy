/** Position valuation: notional, profit and loss, margin, liquidation price, settlement. */
module Position {
  import opened Numbers
  import opened Nonlinear
  import opened WideMath

  const USD_SCALE: int := 1_000_000
  const PRICE_SCALE: int := 10_000_000_000
  const BPS_DENOMINATOR: int := 10_000
  const MAX_POW10: int := 38

  datatype Side = Long | Short

  // ---- Scales ----

  lemma {:induction false} TenToMono(j: nat, k: nat)
    requires j <= k
    ensures Pow(10, j) <= Pow(10, k)
  {
    if j < k {
      TenToMono(j, k - 1);
    }
  }

  lemma TenToValues()
    ensures Pow(10, 4) == 10_000 && Pow(10, 6) == USD_SCALE && Pow(10, 10) == PRICE_SCALE
    ensures Pow(10, 38) == 100_000_000_000_000_000_000_000_000_000_000_000_000
  {
    PowSum(10, 2, 2);
    PowSum(10, 4, 2);
    PowSum(10, 6, 4);
    PowSum(10, 9, 10);
    PowSum(10, 10, 9);
    PowSum(10, 19, 19);
    PowSum(10, 8, 1);
    PowSum(10, 4, 4);
  }

  function Pow10(exp: nat): (r: Result<u128, RiskError>)
    ensures r.Success? ==> 0 < r.value
  {
    if exp > MAX_POW10 then
      Failure(MathOverflow)
    else
      TenToMono(exp, MAX_POW10);
      TenToValues();
      Success(Pow(10, exp))
  }

  /** The most base units a dollar amount buys. */
  function UsdToQuoteFloor(amountUsd: u128, collateralDecimals: u8): Result<u128, RiskError> {
    var unit :- Pow10(collateralDecimals);
    FloorMulDiv(amountUsd, unit, USD_SCALE)
  }

  /** The fewest base units that cover a dollar amount. */
  function UsdToQuoteCeil(amountUsd: u128, collateralDecimals: u8): Result<u128, RiskError> {
    var unit :- Pow10(collateralDecimals);
    CeilMulDiv(amountUsd, unit, USD_SCALE)
  }

  lemma SixDecimalsIsIdentity(amount: u128)
    ensures UsdToQuoteFloor(amount, 6) == Success(amount)
    ensures UsdToQuoteCeil(amount, 6) == Success(amount)
  {
    TenToValues();
    assert Pow10(6) == Success(USD_SCALE);
    RoundedFromRemainder(amount, USD_SCALE, USD_SCALE, amount, 0);
  }

  /**
   * The conversions are the floor and the ceiling of the exact amount of units, for every scale up to thirty-eight
   * decimals.
   */
  lemma QuoteExact(amountUsd: u128, decimals: u8)
    ensures decimals <= 38 ==>
              && IsFloor(UsdToQuoteFloor(amountUsd, decimals), amountUsd * Pow(10, decimals), 1_000_000)
              && IsCeil(UsdToQuoteCeil(amountUsd, decimals), amountUsd * Pow(10, decimals), 1_000_000)
    ensures 38 < decimals ==>
              && UsdToQuoteFloor(amountUsd, decimals) == Failure(MathOverflow)
              && UsdToQuoteCeil(amountUsd, decimals) == Failure(MathOverflow)
  {
    hide FloorMulDiv, CeilMulDiv, IsFloor, IsCeil;
    if decimals <= 38 {
      var unit := Pow10(decimals).value;
      MulDivRounds(amountUsd, unit, USD_SCALE);
    }
  }

  // ---- Valuation ----

  function SizePriceDivisor(assetDecimals: u8): (r: Result<u128, RiskError>)
    ensures r.Success? ==> 0 < r.value
  {
    var factor :- Pow10(assetDecimals);
    CheckedU128(factor * (PRICE_SCALE / USD_SCALE))
  }

  /** A size times a price is worth its product over this many, for assets of up to thirty-four decimals. */
  lemma ScaleExact(assetDecimals: u8)
    ensures SizePriceDivisor(assetDecimals)
            == if assetDecimals <= 34 then Success(10_000 * Pow(10, assetDecimals)) else Failure(MathOverflow)
  {
    TenToValues();
    PowSum(10, 34, 4);
    if assetDecimals <= 34 {
      TenToMono(assetDecimals, 34);
    } else if assetDecimals <= 38 {
      TenToMono(35, assetDecimals);
      PowSum(10, 35, 3);
    }
  }

  function NotionalUsdCeil(sizeBase: u128, price: u128, assetDecimals: u8): Result<u128, RiskError> {
    if price == 0 then
      Failure(InvalidPrice)
    else
      var divisor :- SizePriceDivisor(assetDecimals);
      CeilMulDiv(sizeBase, price, divisor)
  }

  /** A notional is the ceiling of size times price. */
  lemma NotionalExact(sizeBase: u128, price: u128, assetDecimals: u8)
    ensures var r := NotionalUsdCeil(sizeBase, price, assetDecimals);
            if price == 0 then r == Failure(InvalidPrice)
            else if assetDecimals <= 34 then IsCeil(r, sizeBase * price, 10_000 * Pow(10, assetDecimals))
            else r == Failure(MathOverflow)
  {
    hide CeilMulDiv, IsCeil;
    ScaleExact(assetDecimals);
    if assetDecimals <= 34 {
      MulDivRounds(sizeBase, price, 10_000 * Pow(10, assetDecimals));
    }
  }

  function UnrealizedPnl(side: Side, sizeBase: u128, entryPrice: u128, price: u128, assetDecimals: u8)
    : Result<i128, RiskError>
  {
    if price == 0 || entryPrice == 0 then
      Failure(InvalidPrice)
    else if sizeBase == 0 then
      Success(0)
    else
      var divisor :- SizePriceDivisor(assetDecimals);
      var gap: u128 := Abs(price - entryPrice);
      var inProfit := if side.Long? then price >= entryPrice else entryPrice >= price;
      var magnitude :- if inProfit
                       then FloorMulDiv(sizeBase, gap, divisor)
                       else CeilMulDiv(sizeBase, gap, divisor);
      var magnitude: i128 :- CheckedI128(magnitude);
      Success(if inProfit then magnitude else -magnitude)
  }

  /** How far the price moved in the position's favour. */
  function Move(side: Side, entryPrice: int, price: int): int {
    if side.Long? then price - entryPrice else entryPrice - price
  }

  /** The magnitude `UnrealizedPnl` computes, with its sign, for a signed dividend `n`. */
  lemma SignedRounding(size: u128, gap: u128, d: u128, n: int)
    requires 0 < d && (n == size * gap || n == -(size * gap))
    ensures n == size * gap ==> FloorMulDiv(size, gap, d) == CheckedU128(n / d) && 0 <= n / d
    ensures n == -(size * gap) ==> CeilMulDiv(size, gap, d) == CheckedU128(-(n / d)) && n / d <= 0
  {
    ProductNat(size, gap, d);
    DivMono(-(size * gap), 0, d);
  }

  /** Gains round down and losses round up in magnitude: both are the floor of the signed move. */
  lemma PnlIsFloorOfMove(side: Side, size: u128, entry: u128, price: u128, decimals: u8)
    requires 0 < price && 0 < entry && 0 < size && SizePriceDivisor(decimals).Success?
    ensures var v := size * Move(side, entry, price) / SizePriceDivisor(decimals).value;
            UnrealizedPnl(side, size, entry, price, decimals)
            == if -I128_LIMIT < v < I128_LIMIT then Success(v) else Failure(MathOverflow)
  {
    var gap: u128 := Abs(price - entry);
    var move := Move(side, entry, price);
    assert size * move == if move == gap then size * gap else -(size * gap);
    SignedRounding(size, gap, SizePriceDivisor(decimals).value, size * move);
  }

  /** Where there is no move to round: prices of zero are refused, and nothing held gains nothing. */
  lemma PnlOtherwise(side: Side, size: u128, entry: u128, price: u128, decimals: u8)
    ensures price == 0 || entry == 0 ==> UnrealizedPnl(side, size, entry, price, decimals) == Failure(InvalidPrice)
    ensures price != 0 && entry != 0 && size == 0 ==> UnrealizedPnl(side, size, entry, price, decimals) == Success(0)
    ensures price != 0 && entry != 0 && size != 0 && SizePriceDivisor(decimals).Failure? ==>
              UnrealizedPnl(side, size, entry, price, decimals) == Failure(MathOverflow)
  {
    ScaleExact(decimals);
  }

  lemma PnlMonotone(side: Side, size: u128, entry: u128, p: u128, q: u128, d: u128)
    requires 0 < d && Move(side, entry, p) <= Move(side, entry, q)
    ensures size * Move(side, entry, p) / d <= size * Move(side, entry, q) / d
  {
    MulMono(Move(side, entry, p), Move(side, entry, q), size);
    DivMono(size * Move(side, entry, p), size * Move(side, entry, q), d);
  }

  function Equity(collateralUsd: u128, pnlUsd: i128, fundingOwedUsd: i128, borrowOwedUsd: u128)
    : Result<i128, RiskError>
  {
    var collateral: i128 :- CheckedI128(collateralUsd);
    var borrow: i128 :- CheckedI128(borrowOwedUsd);
    var withPnl: i128 :- CheckedI128(collateral + pnlUsd);
    var lessFunding: i128 :- CheckedI128(withPnl - fundingOwedUsd);
    CheckedI128(lessFunding - borrow)
  }

  /** A 128-bit signed number. */
  predicate Signed128(x: int) {
    -I128_LIMIT <= x < I128_LIMIT
  }

  /** Equity is collateral and profit less what is owed, and exists exactly while no partial sum leaves the range. */
  lemma EquityExact(collateral: u128, pnl: i128, funding: i128, borrow: u128)
    ensures Equity(collateral, pnl, funding, borrow)
            == if Signed128(collateral) && Signed128(borrow) && Signed128(collateral + pnl)
                  && Signed128(collateral + pnl - funding) && Signed128(collateral + pnl - funding - borrow)
               then Success(collateral + pnl - funding - borrow)
               else Failure(MathOverflow)
  {
  }

  function MarginRequirement(notionalUsd: u128, marginBps: u16): Result<u128, RiskError> {
    if marginBps > BPS_DENOMINATOR then
      Failure(InvalidBasisPoints)
    else
      CeilMulDiv(notionalUsd, marginBps, BPS_DENOMINATOR)
  }

  /** A requirement is the ceiling of its share of the notional. */
  lemma MarginExact(notionalUsd: u128, marginBps: u16)
    ensures var r := MarginRequirement(notionalUsd, marginBps);
            if marginBps > 10_000 then r == Failure(InvalidBasisPoints)
            else IsCeil(r, notionalUsd * marginBps, 10_000)
  {
    MulDivRounds(notionalUsd, marginBps, BPS_DENOMINATOR);
  }

  function IsLiquidatable(equityUsd: i128, notionalUsd: u128, maintenanceMarginBps: u16): Result<bool, RiskError> {
    if equityUsd < 0 then
      Success(true)
    else
      var requirement :- MarginRequirement(notionalUsd, maintenanceMarginBps);
      var requirement: i128 :- CheckedI128(requirement);
      Success(equityUsd <= requirement)
  }

  function LiquidationPrice(side: Side, sizeBase: u128, entryPrice: u128, collateralUsd: u128,
                            maintenanceMarginBps: u16, assetDecimals: u8): Result<Option<u128>, RiskError>
  {
    if sizeBase == 0 then Failure(ZeroSize)
    else if entryPrice == 0 then Failure(InvalidPrice)
    else if maintenanceMarginBps >= BPS_DENOMINATOR then Failure(InvalidBasisPoints)
    else
      var divisor :- SizePriceDivisor(assetDecimals);
      var entryTerm :- CheckedU128(entryPrice * sizeBase);
      var collateralTerm :- CheckedU128(collateralUsd * divisor);
      match side
      case Long =>
        if collateralTerm >= entryTerm then
          Success(None)
        else
          var denominator :- CheckedU128(sizeBase * (BPS_DENOMINATOR - maintenanceMarginBps));
          var price :- CeilMulDiv(entryTerm - collateralTerm, BPS_DENOMINATOR, denominator);
          Success(Some(price))
      case Short =>
        var numerator :- CheckedU128(entryTerm + collateralTerm);
        var denominator :- CheckedU128(sizeBase * (BPS_DENOMINATOR + maintenanceMarginBps));
        var price :- FloorMulDiv(numerator, BPS_DENOMINATOR, denominator);
        Success(Some(price))
  }

  // ---- The liquidation price brackets the liquidation test ----

  /**
   * Exact equity less exact maintenance requirement at `price`, in units of
   * 1 / (divisor * 10_000) micro-dollars: no rounding anywhere.
   */
  function ExactSurplus(side: Side, size: int, entry: int, collateral: int, marginBps: int, divisor: int,
                        price: int): int {
    (collateral * divisor + size * Move(side, entry, price)) * BPS_DENOMINATOR - size * price * marginBps
  }

  /** The verdict the program reaches at `price`: value the position, then test its margin. */
  function LiquidatableAt(side: Side, size: u128, entry: u128, collateral: u128, marginBps: u16, decimals: u8,
                          price: u128)
    : Result<bool, RiskError>
  {
    var pnl :- UnrealizedPnl(side, size, entry, price, decimals);
    var equity :- Equity(collateral, pnl, 0, 0);
    var notional :- NotionalUsdCeil(size, price, decimals);
    IsLiquidatable(equity, notional, marginBps)
  }

  /** Adding a whole number of divisors to a dividend adds it to the floored quotient. */
  lemma DivShift(n: int, k: int, d: int)
    requires 0 < d
    ensures (k * d + n) / d == k + n / d
  {
    DivBounds(n, d);
    assert (k + n / d) * d == k * d + n / d * d;
    DivUnique(k * d + n, d, k + n / d, n % d);
  }

  lemma VerdictValues(side: Side, size: u128, entry: u128, collateral: u128, m: u16, decimals: u8, p: u128)
    requires 0 < size && 0 < entry && LiquidatableAt(side, size, entry, collateral, m, decimals, p).Success?
    ensures 0 < p && SizePriceDivisor(decimals).Success?
    ensures var d := SizePriceDivisor(decimals).value;
            var equity := (collateral * d + size * Move(side, entry, p)) / d;
            var requirement := CeilDiv(CeilDiv(size * p, d) * m, BPS_DENOMINATOR);
            LiquidatableAt(side, size, entry, collateral, m, decimals, p).value
            == (equity < 0 || equity <= requirement)
  {
    PnlIsFloorOfMove(side, size, entry, p, decimals);
    var d := SizePriceDivisor(decimals).value;
    DivShift(size * Move(side, entry, p), collateral, d);
  }

  /**
   * The verdict: liquidatable exactly when equity, floored, is at most the requirement, rounded up twice. A tie is
   * liquidatable. It exists exactly while the move, the equity, the notional and the requirement are representable.
   */
  lemma VerdictExact(side: Side, size: u128, entry: u128, collateral: u128, m: u16, decimals: u8, p: u128)
    requires 0 < size && 0 < entry && 0 < p && decimals <= 34 && m <= 10_000
    ensures var d := 10_000 * Pow(10, decimals);
            var (gain, notional) := (size * Move(side, entry, p) / d, CeilDiv(size * p, d));
            var requirement := CeilDiv(notional * m, 10_000);
            LiquidatableAt(side, size, entry, collateral, m, decimals, p)
            == if -I128_LIMIT < gain < I128_LIMIT && Signed128(collateral) && Signed128(collateral + gain)
                  && notional < U128_LIMIT && (0 <= collateral + gain ==> Signed128(requirement))
               then Success(collateral + gain < 0 || collateral + gain <= requirement)
               else Failure(MathOverflow)
  {
    hide UnrealizedPnl, Equity, NotionalUsdCeil, IsLiquidatable, CeilDiv;
    ScaleExact(decimals);
    PnlIsFloorOfMove(side, size, entry, p, decimals);
    RoundedNotional(size, p, decimals);
    var pnl := UnrealizedPnl(side, size, entry, p, decimals);
    if pnl.Success? {
      EquityExact(collateral, pnl.value, 0, 0);
      var (equity, notional) := (Equity(collateral, pnl.value, 0, 0), NotionalUsdCeil(size, p, decimals));
      if equity.Success? && notional.Success? {
        VerdictOf(equity.value, notional.value, m);
      }
    }
  }

  lemma RoundedNotional(size: u128, p: u128, decimals: u8)
    requires 0 < p && decimals <= 34
    ensures var notional := CeilDiv(size * p, 10_000 * Pow(10, decimals));
            && 0 <= notional
            && NotionalUsdCeil(size, p, decimals)
               == if notional < U128_LIMIT then Success(notional) else Failure(MathOverflow)
  {
    ScaleExact(decimals);
    var d := 10_000 * Pow(10, decimals);
    MulMono(0, size, p);
    CeilDivBounds(size * p, d);
    NotNegative(CeilDiv(size * p, d), size * p, d);
  }

  lemma VerdictOf(equity: i128, notional: u128, m: u16)
    requires m <= 10_000
    ensures var requirement := CeilDiv(notional * m, 10_000);
            IsLiquidatable(equity, notional, m)
            == if equity < 0 then Success(true)
               else if Signed128(requirement) then Success(equity <= requirement)
               else Failure(MathOverflow)
  {
    MulMono(0, notional, m);
    CeilDivBounds(notional * m, 10_000);
    NotNegative(CeilDiv(notional * m, 10_000), notional * m, 10_000);
    MulMono(m, 10_000, notional);
  }

  lemma NotNegative(q: int, n: int, d: int)
    requires 0 < d && 0 <= n <= q * d
    ensures 0 <= q
  {
    if q < 0 {
      MulMono(q, -1, d);
    }
  }

  /** Whenever the exact account is short of its requirement, the program agrees it is liquidatable. */
  lemma UnderwaterIsLiquidatable(side: Side, size: u128, entry: u128, collateral: u128, m: u16, decimals: u8, p: u128)
    requires 0 < size && 0 < entry && LiquidatableAt(side, size, entry, collateral, m, decimals, p).Success?
    requires SizePriceDivisor(decimals).Success?
    requires ExactSurplus(side, size, entry, collateral, m, SizePriceDivisor(decimals).value, p) < 0
    ensures LiquidatableAt(side, size, entry, collateral, m, decimals, p).value
  {
    VerdictValues(side, size, entry, collateral, m, decimals, p);
    var d, B := SizePriceDivisor(decimals).value, BPS_DENOMINATOR;
    var n := collateral * d + size * Move(side, entry, p);
    var notional := CeilDiv(size * p, d);
    var requirement := CeilDiv(notional * m, B);
    CeilDivBounds(size * p, d);
    CeilDivBounds(notional * m, B);
    ShortfallSurvivesRounding(size * p, n, d, m, notional, requirement);
    MulCancel(n / d, requirement, d);
  }

  lemma ShortfallSurvivesRounding(v: int, n: int, d: int, m: int, notional: int, requirement: int)
    requires 0 < d && 0 <= m && n * BPS_DENOMINATOR < v * m
    requires v <= notional * d && notional * m <= requirement * BPS_DENOMINATOR
    ensures n / d * d < requirement * d
  {
    // n * B < v * m <= notional * d * m <= requirement * B * d
    MulMono(v, notional * d, m);
    MulMono(notional * m, requirement * BPS_DENOMINATOR, d);
    assert notional * d * m == notional * m * d;
    MulCancel(n, requirement * d, BPS_DENOMINATOR) by {
      assert requirement * BPS_DENOMINATOR * d == requirement * d * BPS_DENOMINATOR;
    }
    DivBounds(n, d);
  }

  /** A surplus of three micro-dollars outweighs every rounding step. */
  lemma SolventIsNotLiquidatable(side: Side, size: u128, entry: u128, collateral: u128, m: u16, decimals: u8, p: u128)
    requires 0 < size && 0 < entry && LiquidatableAt(side, size, entry, collateral, m, decimals, p).Success?
    requires m <= BPS_DENOMINATOR && SizePriceDivisor(decimals).Success?
    requires var d := SizePriceDivisor(decimals).value;
             ExactSurplus(side, size, entry, collateral, m, d, p) >= 3 * d * BPS_DENOMINATOR
    ensures !LiquidatableAt(side, size, entry, collateral, m, decimals, p).value
  {
    VerdictValues(side, size, entry, collateral, m, decimals, p);
    var d, B := SizePriceDivisor(decimals).value, BPS_DENOMINATOR;
    var n := collateral * d + size * Move(side, entry, p);
    var notional := CeilDiv(size * p, d);
    var requirement := CeilDiv(notional * m, B);
    CeilDivBounds(size * p, d);
    CeilDivBounds(notional * m, B);
    DivBounds(n, d);
    SurplusAbsorbsRounding(size * p, n, d, m, notional, requirement);
    MulCancel(requirement, n / d, d);
    MulMono(0, size, p);
    MulMono(0, notional, m);
  }

  lemma SurplusAbsorbsRounding(v: int, n: int, d: int, m: int, notional: int, requirement: int)
    requires 0 < d && 0 <= m <= BPS_DENOMINATOR && 0 <= v
    requires n * BPS_DENOMINATOR - v * m >= 3 * d * BPS_DENOMINATOR
    requires notional * d < v + d && v <= notional * d
    requires requirement * BPS_DENOMINATOR < notional * m + BPS_DENOMINATOR
    requires notional * m <= requirement * BPS_DENOMINATOR
    ensures requirement * d < n / d * d
    ensures 0 <= requirement
  {
    var B := BPS_DENOMINATOR;
    // requirement * B * d < notional * m * d + B * d <= (v + d) * m + B * d <= v * m + 2 * B * d
    MulStrict(requirement * B, notional * m + B, d);
    MulMono(notional * d, v + d, m);
    assert notional * m * d == notional * d * m;
    assert (v + d) * m == v * m + d * m;
    MulMono(m, B, d);
    assert (notional * m + B) * d == notional * m * d + B * d;
    assert (requirement * d + d) * B == requirement * B * d + B * d;
    MulCancel(requirement * d + d, n, B) by {
      assert (requirement * d + d) * B < n * B;
    }
    DivBounds(n, d);
    if notional < 0 {
      MulMono(notional, -1, d);
    }
    MulMono(0, notional, m);
  }

  /** The returned price is exactly where the unrounded surplus changes sign. */
  lemma LiquidationPriceSplitsExactly(side: Side, size: u128, entry: u128, collateral: u128, m: u16, decimals: u8,
                                      p: u128)
    requires LiquidationPrice(side, size, entry, collateral, m, decimals).Success?
    requires SizePriceDivisor(decimals).Success?
    ensures var surplus := ExactSurplus(side, size, entry, collateral, m, SizePriceDivisor(decimals).value, p);
            match LiquidationPrice(side, size, entry, collateral, m, decimals).value
            case None => surplus >= 0
            case Some(price) => surplus < 0 <==> (if side.Long? then p < price else p > price)
  {
    var d, B := SizePriceDivisor(decimals).value, BPS_DENOMINATOR;
    var E, C := entry * size, collateral * d;
    match side
    case Long =>
      SurplusLong(size, entry, C, m, p);
      if C >= E {
        MulMono(0, size, p);
        MulMono(m, B, size * p);
      } else {
        var denominator := size * (B - m);
        CeilDivBounds((E - C) * B, denominator);
        LessThanCeil(p, (E - C) * B, denominator);
      }
    case Short =>
      SurplusShort(size, entry, C, m, p);
      DivGalois(p, (E + C) * B, size * (B + m));
      MulMono(1, size, B + m);
      assert p * (size * (B + m)) == size * p * (B + m);
  }

  /** When there is a price to return: its terms are 128-bit, and so is the quotient. */
  predicate Priceable(side: Side, size: int, entry: int, collateral: int, m: int, divisor: int) {
    var (worth, held) := (entry * size, collateral * divisor);
    && worth < U128_LIMIT && held < U128_LIMIT
    && match side
       case Long => held >= worth
         || (&& size * (BPS_DENOMINATOR - m) < U128_LIMIT
             && (worth - held) * BPS_DENOMINATOR <= (U128_LIMIT - 1) * (size * (BPS_DENOMINATOR - m)))
       case Short =>
         && worth + held < U128_LIMIT && size * (BPS_DENOMINATOR + m) < U128_LIMIT
         && (worth + held) * BPS_DENOMINATOR < U128_LIMIT * (size * (BPS_DENOMINATOR + m))
  }

  /** Exactly when there is a liquidation price, and why there is none otherwise. */
  lemma LiquidationPriceExists(side: Side, size: u128, entry: u128, collateral: u128, m: u16, decimals: u8)
    ensures var r := LiquidationPrice(side, size, entry, collateral, m, decimals);
            if size == 0 then r == Failure(ZeroSize)
            else if entry == 0 then r == Failure(InvalidPrice)
            else if m >= 10_000 then r == Failure(InvalidBasisPoints)
            else if decimals <= 34 && Priceable(side, size, entry, collateral, m, 10_000 * Pow(10, decimals))
            then r.Success?
                 && (r.value.None? <==>
                       side.Long? && collateral * (10_000 * Pow(10, decimals)) >= entry * size)
            else r == Failure(MathOverflow)
  {
    hide Priceable, Pow;
    ScaleExact(decimals);
    if size != 0 && entry != 0 && m < BPS_DENOMINATOR && decimals <= 34 {
      PriceExistsAt(side, size, entry, collateral, m, decimals, 10_000 * Pow(10, decimals));
    }
  }

  lemma PriceExistsAt(side: Side, size: u128, entry: u128, collateral: u128, m: u16, decimals: u8, d: u128)
    requires size != 0 && entry != 0 && m < BPS_DENOMINATOR && SizePriceDivisor(decimals) == Success(d)
    ensures var r := LiquidationPrice(side, size, entry, collateral, m, decimals);
            if Priceable(side, size, entry, collateral, m, d)
            then r.Success? && (r.value.None? <==> side.Long? && collateral * d >= entry * size)
            else r == Failure(MathOverflow)
  {
    hide FloorMulDiv, CeilMulDiv, SizePriceDivisor;
    var (worth, held) := (entry * size, collateral * d);
    MulMono(0, entry, size);
    MulMono(0, collateral, d);
    if worth < U128_LIMIT && held < U128_LIMIT {
      match side
      case Long =>
        if held < worth {
          Divided(size, BPS_DENOMINATOR - m, worth - held);
        }
      case Short =>
        Divided(size, BPS_DENOMINATOR + m, worth + held);
    }
  }

  lemma Divided(size: u128, share: int, amount: nat)
    requires 0 < size && 0 < share
    ensures 0 < size * share
    ensures size * share < U128_LIMIT && amount < U128_LIMIT ==>
              && IsFloor(FloorMulDiv(amount, BPS_DENOMINATOR, size * share), amount * BPS_DENOMINATOR, size * share)
              && IsCeil(CeilMulDiv(amount, BPS_DENOMINATOR, size * share), amount * BPS_DENOMINATOR, size * share)
  {
    MulMono(1, size, share);
    if size * share < U128_LIMIT && amount < U128_LIMIT {
      MulDivRounds(amount, BPS_DENOMINATOR, size * share);
    }
  }

  lemma LessThanCeil(p: int, n: int, d: int)
    requires 0 < d
    ensures p < CeilDiv(n, d) <==> p * d < n
  {
    DivGalois(-p, -n, d);
    assert -p * d == -(p * d);
  }

  lemma SurplusLong(size: int, entry: int, C: int, m: int, p: int)
    ensures (C + size * Move(Long, entry, p)) * BPS_DENOMINATOR - size * p * m
            == (C - entry * size) * BPS_DENOMINATOR + p * (size * (BPS_DENOMINATOR - m))
    ensures p * (size * (BPS_DENOMINATOR - m)) == size * p * BPS_DENOMINATOR - size * p * m
  {
    assert size * (p - entry) == size * p - entry * size;
    assert p * (size * (BPS_DENOMINATOR - m)) == size * p * (BPS_DENOMINATOR - m);
  }

  lemma SurplusShort(size: int, entry: int, C: int, m: int, p: int)
    ensures (C + size * Move(Short, entry, p)) * BPS_DENOMINATOR - size * p * m
            == (C + entry * size) * BPS_DENOMINATOR - size * p * (BPS_DENOMINATOR + m)
  {
    assert size * (entry - p) == entry * size - size * p;
    assert size * p * (BPS_DENOMINATOR + m) == size * p * BPS_DENOMINATOR + size * p * m;
  }

  /**
   * Every price strictly beyond the liquidation price is liquidatable, and no price is
   * whose exact surplus is three micro-dollars or more.
   */
  lemma LiquidationPriceBrackets(side: Side, size: u128, entry: u128, collateral: u128, m: u16, decimals: u8, p: u128)
    requires LiquidationPrice(side, size, entry, collateral, m, decimals).Success?
    requires SizePriceDivisor(decimals).Success?
    requires LiquidatableAt(side, size, entry, collateral, m, decimals, p).Success?
    ensures var price := LiquidationPrice(side, size, entry, collateral, m, decimals).value;
            price.Some? && (if side.Long? then p < price.value else p > price.value)
            ==> LiquidatableAt(side, size, entry, collateral, m, decimals, p).value
    ensures var d := SizePriceDivisor(decimals).value;
            ExactSurplus(side, size, entry, collateral, m, d, p) >= 3 * d * BPS_DENOMINATOR
            ==> !LiquidatableAt(side, size, entry, collateral, m, decimals, p).value
  {
    LiquidationPriceSplitsExactly(side, size, entry, collateral, m, decimals, p);
    var d := SizePriceDivisor(decimals).value;
    var surplus := ExactSurplus(side, size, entry, collateral, m, d, p);
    if surplus < 0 {
      UnderwaterIsLiquidatable(side, size, entry, collateral, m, decimals, p);
    }
    if surplus >= 3 * d * BPS_DENOMINATOR {
      SolventIsNotLiquidatable(side, size, entry, collateral, m, decimals, p);
    }
  }

  /**
   * The gap between the two thresholds is inhabited on both sides: a unit position of $100 with $10 of collateral at
   * 5% margin is liquidatable one micro-dollar of equity on the safe side of the price returned for it.
   */
  lemma LiquidationGapIsInhabited()
    ensures LiquidationPrice(Long, 1_000_000, 1_000_000_000_000, 10_000_000, 500, 6) == Success(Some(947_368_421_053))
    ensures LiquidatableAt(Long, 1_000_000, 1_000_000_000_000, 10_000_000, 500, 6, 947_368_431_053) == Success(true)
    ensures LiquidationPrice(Short, 1_000_000, 1_000_000_000_000, 10_000_000, 500, 6)
        == Success(Some(1_047_619_047_619))
    ensures LiquidatableAt(Short, 1_000_000, 1_000_000_000_000, 10_000_000, 500, 6, 1_047_619_037_619) == Success(true)
  {
    TenToValues();
    assert SizePriceDivisor(6) == Success(10_000_000_000);
  }
}

/** Closing a position: payout, fees, and why releasing its reserve never worsens utilisation. */
module Settlement {
  import opened Numbers
  import opened Nonlinear
  import opened WideMath
  import opened Position

  datatype FeeSplit = FeeSplit(protocol: u128, lp: u128)

  datatype CloseSettlement = CloseSettlement(
    grossPayout: u128, closeFee: u128, netPayout: u128, badDebtUsd: u128, profitCapped: bool)

  datatype LiquidatedSettlement = LiquidatedSettlement(
    grossPayout: u128, closeFee: u128, liquidationFee: u128, netPayout: u128, badDebtUsd: u128, profitCapped: bool)

  function SplitFee(fee: u128, protocolShareBps: u16): Result<FeeSplit, RiskError> {
    if protocolShareBps > BPS_DENOMINATOR then
      Failure(InvalidBasisPoints)
    else
      var protocol :- FloorMulDiv(fee, protocolShareBps, BPS_DENOMINATOR);
      var lp :- CheckedU128(fee - protocol);
      Success(FeeSplit(protocol, lp))
  }

  function SettleClose(collateral: u128, reserve: u128, equityUsd: i128, closeFeeUsd: u128, decimals: u8)
    : Result<CloseSettlement, RiskError>
  {
    if equityUsd <= 0 then
      Success(CloseSettlement(0, 0, 0, Abs(equityUsd), false))
    else
      var equityQuote :- UsdToQuoteFloor(equityUsd, decimals);
      var cap :- CheckedU128(collateral + reserve);
      var gross: u128 := Min(equityQuote, cap);
      var fee :- UsdToQuoteCeil(closeFeeUsd, decimals);
      var closeFee: u128 := Min(fee, gross);
      var net :- CheckedU128(gross - closeFee);
      Success(CloseSettlement(gross, closeFee, net, 0, equityQuote > cap))
  }

  function ApplyLiquidationFee(s: CloseSettlement, feeUsd: u128, decimals: u8)
    : Result<LiquidatedSettlement, RiskError>
  {
    var afterCloseFee :- CheckedU128(s.grossPayout - s.closeFee);
    var fee :- UsdToQuoteCeil(feeUsd, decimals);
    var liquidationFee: u128 := Min(fee, afterCloseFee);
    var net :- CheckedU128(afterCloseFee - liquidationFee);
    Success(LiquidatedSettlement(s.grossPayout, s.closeFee, liquidationFee, net, s.badDebtUsd, s.profitCapped))
  }

  /** Dust is neither minted nor lost, and the split fails only for a share above 100%. */
  lemma FeeSplitResums(fee: u128, shareBps: u16)
    ensures shareBps <= 10_000 <==> SplitFee(fee, shareBps).Success?
    ensures SplitFee(fee, shareBps).Success? ==>
              var s := SplitFee(fee, shareBps).value;
              && s.protocol + s.lp == fee
              && s.protocol * 10_000 <= fee * shareBps < (s.protocol + 1) * 10_000
  {
    if shareBps <= BPS_DENOMINATOR {
      MulDivExact(fee, shareBps, BPS_DENOMINATOR);
      MulMono(shareBps, BPS_DENOMINATOR, fee);
      if FloorMulDiv(fee, shareBps, BPS_DENOMINATOR).Success? {
        var protocol := FloorMulDiv(fee, shareBps, BPS_DENOMINATOR).value;
        MulCancelLeq(protocol, fee, BPS_DENOMINATOR);
      }
    }
  }

  /** A close pays its equity, floored into quote units and clamped between nothing and its own funds. */
  lemma CloseIsClamped(collateral: u128, reserve: u128, equityUsd: i128, closeFeeUsd: u128, decimals: u8)
    requires SettleClose(collateral, reserve, equityUsd, closeFeeUsd, decimals).Success?
    ensures var s := SettleClose(collateral, reserve, equityUsd, closeFeeUsd, decimals).value;
            && s.grossPayout == s.closeFee + s.netPayout
            && s.grossPayout == (if equityUsd <= 0 then 0
                                 else Min(UsdToQuoteFloor(equityUsd, decimals).value, collateral + reserve))
            && s.badDebtUsd == (if equityUsd < 0 then Abs(equityUsd) else 0)
            && (s.profitCapped ==> s.grossPayout == collateral + reserve)
  {
  }

  /** The greatest number of units at most `most` that an exact amount of `n / USD_SCALE` units covers. */
  predicate PaidFrom(units: int, most: int, n: int) {
    units <= most && units * 1_000_000 <= n && (units < most ==> n < (units + 1) * 1_000_000)
  }

  /** The fewest units that cover an exact fee of `n / USD_SCALE` units, or all there is. */
  predicate FeeOf(units: int, most: int, n: int) {
    units <= most && (units - 1) * 1_000_000 < n && (units < most ==> n <= units * 1_000_000)
  }

  /**
   * The whole settlement: gross is what the equity is worth, up to the position's own funds; the fee is the fewest
   * units that cover it, up to the gross; bad debt is negative equity. It exists exactly while each of the three
   * amounts has 128 bits.
   */
  lemma CloseExact(collateral: u128, reserve: u128, equityUsd: i128, closeFeeUsd: u128, decimals: u8)
    ensures var r := SettleClose(collateral, reserve, equityUsd, closeFeeUsd, decimals);
            var (worth, owed) := (equityUsd * Pow(10, decimals), closeFeeUsd * Pow(10, decimals));
            if equityUsd <= 0 then r == Success(CloseSettlement(0, 0, 0, Abs(equityUsd), false))
            else if decimals <= 38 && worth < U128_LIMIT * 1_000_000 && collateral + reserve < U128_LIMIT
                    && owed <= (U128_LIMIT - 1) * 1_000_000
            then r.Success?
                 && PaidFrom(r.value.grossPayout, collateral + reserve, worth)
                 && FeeOf(r.value.closeFee, r.value.grossPayout, owed)
                 && r.value.netPayout == r.value.grossPayout - r.value.closeFee
                 && r.value.badDebtUsd == 0
                 && (r.value.profitCapped <==> (collateral + reserve + 1) * 1_000_000 <= worth)
            else r == Failure(MathOverflow)
  {
    hide UsdToQuoteFloor, UsdToQuoteCeil;
    if 0 < equityUsd {
      QuoteExact(equityUsd, decimals);
      QuoteExact(closeFeeUsd, decimals);
    }
  }

  /** The liquidation fee is the fewest units that cover it, up to what the close fee left. */
  lemma LiquidationFeeExact(close: CloseSettlement, feeUsd: u128, decimals: u8)
    requires close.closeFee <= close.grossPayout && decimals <= 38
    ensures var (r, owed) := (ApplyLiquidationFee(close, feeUsd, decimals), feeUsd * Pow(10, decimals));
            if owed <= (U128_LIMIT - 1) * 1_000_000
            then r.Success?
                 && FeeOf(r.value.liquidationFee, close.grossPayout - close.closeFee, owed)
                 && r.value == LiquidatedSettlement(
                      close.grossPayout, close.closeFee, r.value.liquidationFee,
                      close.grossPayout - close.closeFee - r.value.liquidationFee, close.badDebtUsd,
                      close.profitCapped)
            else r == Failure(MathOverflow)
  {
    hide UsdToQuoteCeil;
    QuoteExact(feeUsd, decimals);
  }

  /** Everything a liquidated close pays out comes from its gross, which its own funds cover. */
  lemma SettlementConserves(collateral: u128, reserve: u128, equityUsd: i128, closeFeeUsd: u128, liqFeeUsd: u128,
                            shareBps: u16, decimals: u8, close: CloseSettlement, paid: LiquidatedSettlement)
    requires SettleClose(collateral, reserve, equityUsd, closeFeeUsd, decimals) == Success(close)
    requires ApplyLiquidationFee(close, liqFeeUsd, decimals) == Success(paid)
    requires shareBps <= BPS_DENOMINATOR
    ensures paid.grossPayout <= collateral + reserve
    ensures paid.grossPayout == paid.closeFee + paid.liquidationFee + paid.netPayout
    ensures var (c, l) := (SplitFee(paid.closeFee, shareBps), SplitFee(paid.liquidationFee, shareBps));
            && c.Success? && l.Success?
            && paid.grossPayout == c.value.protocol + c.value.lp + l.value.protocol + l.value.lp + paid.netPayout
    ensures 0 < paid.badDebtUsd ==> paid.grossPayout == 0 && paid.badDebtUsd == Abs(equityUsd) && equityUsd < 0
  {
    CloseIsClamped(collateral, reserve, equityUsd, closeFeeUsd, decimals);
    FeesComeFromGross(close, liqFeeUsd, decimals, shareBps);
  }

  lemma FeesComeFromGross(close: CloseSettlement, liqFeeUsd: u128, decimals: u8, shareBps: u16)
    requires shareBps <= BPS_DENOMINATOR
    requires ApplyLiquidationFee(close, liqFeeUsd, decimals).Success?
    ensures var paid := ApplyLiquidationFee(close, liqFeeUsd, decimals).value;
            var (c, l) := (SplitFee(paid.closeFee, shareBps), SplitFee(paid.liquidationFee, shareBps));
            && paid.badDebtUsd == close.badDebtUsd
            && paid.grossPayout == close.grossPayout == paid.closeFee + paid.liquidationFee + paid.netPayout
            && c.Success? && l.Success?
            && c.value.protocol + c.value.lp == paid.closeFee
            && l.value.protocol + l.value.lp == paid.liquidationFee
  {
    var paid := ApplyLiquidationFee(close, liqFeeUsd, decimals).value;
    FeeSplitResums(paid.closeFee, shareBps);
    FeeSplitResums(paid.liquidationFee, shareBps);
  }

  /** A settlement `SettleClose` produced is never rejected for its close fee. */
  lemma LiquidationFeeIsTotal(collateral: u128, reserve: u128, equityUsd: i128, closeFeeUsd: u128, liqFeeUsd: u128,
                              decimals: u8)
    requires SettleClose(collateral, reserve, equityUsd, closeFeeUsd, decimals).Success?
    ensures var close := SettleClose(collateral, reserve, equityUsd, closeFeeUsd, decimals).value;
            ApplyLiquidationFee(close, liqFeeUsd, decimals).Success? <==> UsdToQuoteCeil(liqFeeUsd, decimals).Success?
  {
  }

  // ---- Utilisation ----

  /** `reserved / deposited` has not risen, compared as exact cross products. */
  function NotWorsened(reservedAfter: u64, depositedAfter: u64, reservedBefore: u64, depositedBefore: u64): bool {
    CmpProducts(reservedAfter, depositedBefore, reservedBefore, depositedAfter) != Greater
  }

  /**
   * Closing a position releases its reserve and costs the pool's equity at most the payout
   * beyond the collateral; from any pool whose reserves are covered, the check then passes.
   */
  lemma CloseNeverWorsensUtilisation(collateral: u128, reserve: u64, equityUsd: i128, closeFeeUsd: u128, decimals: u8,
                                     reserved: u64, deposited: u64, depositedAfter: u64)
    requires SettleClose(collateral, reserve, equityUsd, closeFeeUsd, decimals).Success?
    requires reserve <= reserved <= deposited
    requires var gross := SettleClose(collateral, reserve, equityUsd, closeFeeUsd, decimals).value.grossPayout;
             depositedAfter >= deposited - Max(0, gross - collateral)
    ensures NotWorsened(reserved - reserve, depositedAfter, reserved, deposited)
  {
    ReleaseKeepsRatio(reserve, reserved, deposited);
    MulMono(deposited - reserve, depositedAfter, reserved);
  }

  /** Releasing `r` against an equity loss of exactly `r` passes only if reserves were covered. */
  lemma ReleaseKeepsRatio(r: u64, reserved: u64, deposited: u64)
    requires r <= reserved && r <= deposited
    ensures NotWorsened(reserved - r, deposited - r, reserved, deposited) <==> r == 0 || reserved <= deposited
    ensures (reserved - r) * deposited == reserved * deposited - r * deposited
    ensures reserved * (deposited - r) == reserved * deposited - r * reserved
  {
    assert (reserved - r) * deposited == reserved * deposited - r * deposited;
    assert reserved * (deposited - r) == reserved * deposited - r * reserved;
    if reserved <= deposited {
      MulMono(reserved, deposited, r);
    } else if r > 0 {
      MulStrict(deposited, reserved, r);
    }
  }
}

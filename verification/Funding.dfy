/** Borrow and funding accrual steps: whole index units now, the undivided remainder carried. */
module Funding {
  import opened Numbers
  import opened Nonlinear
  import opened WideMath
  import opened Position

  const SECONDS_PER_HOUR: int := 3_600
  const RATE_SCALE: int := 1_000_000_000
  /** Basis points times seconds per hour: one index unit's worth of rate times bps-seconds. */
  const BORROW_DENOMINATOR: int := 36_000_000

  datatype BorrowAccrual = BorrowAccrual(indexDelta: u128, remainder: u128)
  datatype FundingAccrual = FundingAccrual(indexDelta: i128, remainder: i64)

  function BorrowIndexDelta(ratePerHour: u128, utilizationBps: u128, elapsedSeconds: u64, carried: u128)
    : Result<BorrowAccrual, RiskError>
  {
    if ratePerHour == 0 || utilizationBps == 0 || elapsedSeconds == 0 then
      Success(BorrowAccrual(0, carried))
    else
      var utilizationSeconds :- CheckedU128(utilizationBps * elapsedSeconds);
      BorrowIndexDeltaFromIntegral(ratePerHour, utilizationSeconds, carried)
  }

  function BorrowIndexDeltaFromIntegral(ratePerHour: u128, utilizationSeconds: u128, carried: u128)
    : Result<BorrowAccrual, RiskError>
  {
    if utilizationSeconds == 0 || ratePerHour == 0 then
      Success(BorrowAccrual(0, carried))
    else
      var product :- CheckedU128(ratePerHour * utilizationSeconds);
      var numerator :- CheckedU128(product + carried);
      Success(BorrowAccrual(numerator / BORROW_DENOMINATOR, numerator % BORROW_DENOMINATOR))
  }

  function FundingRatePerHour(longOiUsd: u128, shortOiUsd: u128, sensitivity: u128, capPerHour: u128)
    : Result<i128, RiskError>
  {
    var total :- CheckedU128(longOiUsd + shortOiUsd);
    if total == 0 then
      Success(0)
    else
      var scaled :- FloorMulDiv(sensitivity, Abs(longOiUsd - shortOiUsd), total);
      var magnitude: i128 :- CheckedI128(Min(scaled, capPerHour));
      Success(if longOiUsd >= shortOiUsd then magnitude else -magnitude)
  }

  /** Legacy drain-only accrual: truncates, and drops the fraction. */
  function FundingIndexDelta(ratePerHour: i128, elapsedSeconds: u64): Result<i128, RiskError> {
    if elapsedSeconds == 0 || ratePerHour == 0 then
      Success(0)
    else
      TruncMulDiv(ratePerHour, elapsedSeconds, SECONDS_PER_HOUR)
  }

  function FundingIndexDeltaWithCarry(ratePerHour: i128, elapsedSeconds: u64, carried: i64)
    : Result<FundingAccrual, RiskError>
  {
    if !(0 <= carried < SECONDS_PER_HOUR) then
      Failure(MathOverflow)
    else
      var product :- CheckedI128(ratePerHour * elapsedSeconds);
      var numerator :- CheckedI128(product + carried);
      DivBounds(numerator, SECONDS_PER_HOUR);
      Success(FundingAccrual(numerator / SECONDS_PER_HOUR, numerator % SECONDS_PER_HOUR))
  }

  /**
   * Longs pay when they are the heavier side, by the same rate shorts would in the mirrored book: the greatest rate at
   * most the cap that the sensitivity times the skew covers.
   */
  lemma FundingRateMirrors(longs: u128, shorts: u128, sensitivity: u128, cap: u128)
    requires FundingRatePerHour(longs, shorts, sensitivity, cap).Success?
    ensures var r := FundingRatePerHour(longs, shorts, sensitivity, cap).value;
            && FundingRatePerHour(shorts, longs, sensitivity, cap) == Success(-r)
            && Abs(r) <= Min(cap, sensitivity)
            && (longs >= shorts ==> 0 <= r) && (longs <= shorts ==> r <= 0)
            && Abs(r) * (longs + shorts) <= sensitivity * Abs(longs - shorts)
            && (Abs(r) < cap && 0 < longs + shorts ==>
                  sensitivity * Abs(longs - shorts) < (Abs(r) + 1) * (longs + shorts))
            && (longs + shorts == 0 ==> r == 0)
  {
    if longs + shorts != 0 {
      MulDivExact(sensitivity, Abs(longs - shorts), longs + shorts);
      var scaled := FloorMulDiv(sensitivity, Abs(longs - shorts), longs + shorts).value;
      MulMono(Abs(longs - shorts), longs + shorts, sensitivity);
      MulCancelLeq(scaled, sensitivity, longs + shorts);
      MulMono(Min(scaled, cap), scaled, longs + shorts);
      if longs == shorts {
        MulCancelLeq(scaled, 0, longs + shorts);
      }
    }
  }

  /** There is a rate exactly while the whole book has 128 bits and the rate itself is a signed one. */
  lemma FundingRateExists(longs: u128, shorts: u128, sensitivity: u128, cap: u128)
    ensures var r := FundingRatePerHour(longs, shorts, sensitivity, cap);
            if longs + shorts < U128_LIMIT
               && (longs + shorts == 0 || cap < I128_LIMIT
                   || sensitivity * Abs(longs - shorts) < I128_LIMIT * (longs + shorts))
            then r.Success? else r == Failure(MathOverflow)
  {
    var (total, skew) := (longs + shorts, Abs(longs - shorts));
    if 0 < total < U128_LIMIT {
      MulDivExact(sensitivity, skew, total);
      MulMono(skew, total, sensitivity);
      MulMono(sensitivity, U128_LIMIT - 1, total);
      var scaled := FloorMulDiv(sensitivity, skew, total).value;
      DivGalois(I128_LIMIT, sensitivity * skew, total);
    }
  }

  /** A borrow step exists exactly while its numerator has 128 bits. */
  lemma BorrowStepExists(rate: u128, integral: u128, carried: u128)
    ensures var r := BorrowIndexDeltaFromIntegral(rate, integral, carried);
            if rate * integral == 0 then r == Success(BorrowAccrual(0, carried))
            else if rate * integral + carried < U128_LIMIT then r.Success?
            else r == Failure(MathOverflow)
  {
    if rate != 0 && integral != 0 {
      MulMono(1, rate, integral);
    }
  }

  /** A legacy borrow step is the migrated one over utilisation times seconds. */
  lemma LegacyBorrowExact(rate: u128, utilization: u128, elapsed: u64, carried: u128)
    ensures var r := BorrowIndexDelta(rate, utilization, elapsed, carried);
            if rate == 0 then r == Success(BorrowAccrual(0, carried))
            else if utilization * elapsed < U128_LIMIT
            then 0 <= utilization * elapsed
                 && r == BorrowIndexDeltaFromIntegral(rate, utilization * elapsed, carried)
            else r == Failure(MathOverflow)
  {
    MulMono(0, utilization, elapsed);
    if utilization == 0 || elapsed == 0 {
      assert utilization * elapsed == 0;
    }
  }

  /** A legacy funding step is rate times seconds over an hour, truncated. */
  lemma LegacyFundingExact(rate: i128, elapsed: u64)
    ensures IsTrunc(FundingIndexDelta(rate, elapsed), rate * elapsed, SECONDS_PER_HOUR)
  {
    hide TruncMulDiv;
    MulDivTruncates(rate, elapsed, SECONDS_PER_HOUR);
    if rate == 0 || elapsed == 0 {
      assert rate * elapsed == 0;
    }
  }

  /** A funding step exists exactly while its carry is canonical and its numerator is a signed 128-bit number. */
  lemma FundingStepExists(rate: i128, elapsed: u64, carried: i64)
    ensures var r := FundingIndexDeltaWithCarry(rate, elapsed, carried);
            if 0 <= carried < SECONDS_PER_HOUR && Signed128(rate * elapsed) && Signed128(rate * elapsed + carried)
            then r.Success? else r == Failure(MathOverflow)
  {
  }

  /** One borrow step loses nothing: index units and carry together grow by rate times integral. */
  lemma BorrowStepExact(rate: u128, integral: u128, carried: u128)
    requires BorrowIndexDeltaFromIntegral(rate, integral, carried).Success?
    ensures var a := BorrowIndexDeltaFromIntegral(rate, integral, carried).value;
            && 36_000_000 * a.indexDelta + a.remainder == rate * integral + carried
            && (carried < 36_000_000 ==> a.remainder < 36_000_000)
  {
  }

  /** One funding step loses nothing, whatever the sign of the rate. */
  lemma FundingStepExact(rate: i128, elapsed: u64, carried: i64)
    requires FundingIndexDeltaWithCarry(rate, elapsed, carried).Success?
    ensures var a := FundingIndexDeltaWithCarry(rate, elapsed, carried).value;
            && 3_600 * a.indexDelta + a.remainder == rate * elapsed + carried
            && 0 <= a.remainder < 3_600
  {
    DivBounds(rate * elapsed + carried, SECONDS_PER_HOUR);
  }

  /** The whole units and the carry are determined by their combined value. */
  lemma CarryIsCanonical(unit: int, index: int, carry: int, index': int, carry': int)
    requires 0 < unit && 0 <= carry < unit && 0 <= carry' < unit
    requires unit * index + carry == unit * index' + carry'
    ensures index == index' && carry == carry'
  {
    DivUnique(unit * index + carry, unit, index, carry);
    DivUnique(unit * index' + carry', unit, index', carry');
  }

  // ---- What a position owes ----

  /** Rounded up; an index that went backwards is refused rather than refunded. */
  function BorrowOwed(notionalUsd: u128, current: u128, entry: u128): Result<u128, RiskError> {
    if current < entry then Failure(MathOverflow)
    else if current == entry then Success(0)
    else CeilMulDiv(notionalUsd, current - entry, RATE_SCALE)
  }

  function FundingOwed(entryNotionalUsd: u128, current: i128, entry: i128): Result<i128, RiskError> {
    var delta :- CheckedI128(current - entry);
    if delta == 0 then Success(0)
    else
      var notional :- CheckedI128(entryNotionalUsd);
      TruncMulDiv(notional, delta, RATE_SCALE)
  }

  /** What a position owes: the long's amount, or its negation for a short. */
  function FundingOwedSigned(side: Side, entryNotionalUsd: u128, current: i128, entry: i128): Result<i128, RiskError> {
    var owedAsLong: int :- FundingOwed(entryNotionalUsd, current, entry);
    CheckedI128(if side.Long? then owedAsLong else -owedAsLong)
  }

  /** Borrow owed is the ceiling of notional times what the index gained, and an index never runs backwards. */
  lemma BorrowOwedExact(notional: u128, current: u128, entry: u128)
    ensures var r := BorrowOwed(notional, current, entry);
            if current < entry then r == Failure(MathOverflow)
            else IsCeil(r, notional * (current - entry), 1_000_000_000)
  {
    hide CeilMulDiv;
    if entry < current {
      MulDivRounds(notional, current - entry, RATE_SCALE);
    }
  }

  /** What a long owes is notional times what the index gained, truncated; a short owes its negation. */
  lemma FundingOwedExact(notional: u128, current: i128, entry: i128)
    ensures var r := FundingOwed(notional, current, entry);
            if !Signed128(current - entry) then r == Failure(MathOverflow)
            else if current == entry then r == Success(0)
            else if !Signed128(notional) then r == Failure(MathOverflow)
            else IsTrunc(r, notional * (current - entry), 1_000_000_000)
    ensures var r := FundingOwed(notional, current, entry);
            && FundingOwedSigned(Long, notional, current, entry) == r
            && FundingOwedSigned(Short, notional, current, entry)
               == if r.Success? && r.value != -I128_LIMIT then Success(-r.value) else Failure(MathOverflow)
  {
    hide TruncMulDiv, IsTrunc;
    if Signed128(current - entry) && Signed128(notional) {
      MulDivTruncates(notional, current - entry, RATE_SCALE);
    }
    FundingOwedErrors(notional, current, entry);
  }

  lemma FundingOwedErrors(notional: u128, current: i128, entry: i128)
    ensures FundingOwed(notional, current, entry).Failure? ==>
              FundingOwed(notional, current, entry) == Failure(MathOverflow)
  {
  }

  lemma CeilSplits(a: nat, b: nat, d: int)
    requires 0 < d
    ensures CeilDiv(a + b, d) <= CeilDiv(a, d) + CeilDiv(b, d) <= CeilDiv(a + b, d) + 1
  {
    CeilDivBounds(a, d);
    CeilDivBounds(b, d);
    CeilDivBounds(a + b, d);
    var (x, y, z) := (CeilDiv(a, d), CeilDiv(b, d), CeilDiv(a + b, d));
    Between(x, y, z, d);
  }

  lemma Between(x: int, y: int, z: int, d: int)
    requires 0 < d && z * d < x * d + y * d + d && x * d + y * d < z * d + 2 * d
    ensures z <= x + y <= z + 1
  {
    assert (x + y + 1 - z) * d == x * d + y * d + d - z * d;
    assert (z + 2 - x - y) * d == z * d + 2 * d - x * d - y * d;
    MulCancel(0, x + y + 1 - z, d);
    MulCancel(0, z + 2 - x - y, d);
  }

  /** Settling borrow early never saves anything, and costs at most one micro-dollar. */
  lemma BorrowOwedSplits(notional: u128, i0: u128, i1: u128, i2: u128)
    requires i0 <= i1 <= i2
    requires BorrowOwed(notional, i1, i0).Success? && BorrowOwed(notional, i2, i1).Success?
        && BorrowOwed(notional, i2, i0).Success?
    ensures var whole := BorrowOwed(notional, i2, i0).value;
            var parts := BorrowOwed(notional, i1, i0).value + BorrowOwed(notional, i2, i1).value;
            whole <= parts <= whole + 1
  {
    BorrowOwedIsCeil(notional, i1, i0);
    BorrowOwedIsCeil(notional, i2, i1);
    BorrowOwedIsCeil(notional, i2, i0);
    ProductNat(notional, i1 - i0, RATE_SCALE);
    ProductNat(notional, i2 - i1, RATE_SCALE);
    assert notional * (i2 - i0) == notional * (i1 - i0) + notional * (i2 - i1);
    CeilSplits(notional * (i1 - i0), notional * (i2 - i1), RATE_SCALE);
  }

  lemma BorrowOwedIsCeil(notional: u128, current: u128, entry: u128)
    requires BorrowOwed(notional, current, entry).Success?
    ensures entry <= current && BorrowOwed(notional, current, entry).value
        == CeilDiv(notional * (current - entry), RATE_SCALE)
  {
  }

  /** What a long pays a short of the same notional receives, and rounding only ever shrinks it. */
  lemma FundingSidesMirror(notional: u128, current: i128, entry: i128)
    requires FundingOwedSigned(Long, notional, current, entry).Success?
    ensures var v := FundingOwedSigned(Long, notional, current, entry).value;
            && FundingOwedSigned(Short, notional, current, entry)
                == (if v == -I128_LIMIT then Failure(MathOverflow) else Success(-v))
            && Abs(v) * RATE_SCALE <= Abs(notional * (current - entry)) < (Abs(v) + 1) * RATE_SCALE
            && (current >= entry ==> 0 <= v) && (current <= entry ==> v <= 0)
  {
    var v := FundingOwedSigned(Long, notional, current, entry).value;
    if current != entry {
      TruncBounds(notional * (current - entry), RATE_SCALE);
      SignOfProduct(notional, current - entry);
    }
  }

  lemma SignOfProduct(n: nat, delta: int)
    ensures 0 <= delta ==> 0 <= n * delta
    ensures delta <= 0 ==> n * delta <= 0
  {
    if 0 <= delta { MulMono(0, delta, n); } else { MulMono(delta, 0, n); }
  }

  lemma TruncBounds(n: int, d: int)
    requires 0 < d
    ensures var v := TruncDiv(n, d);
            && Abs(v) * d <= Abs(n) < (Abs(v) + 1) * d
            && (0 <= n ==> 0 <= v) && (n <= 0 ==> v <= 0)
  {
    DivBounds(Abs(n), d);
    DivGalois(0, Abs(n), d);
  }
}

/**
 * One checkpoint, one settlement and one sample, on every path: legacy books that may only drain, the boundary at
 * which an empty one migrates, and migrated books.
 */
module AccrualSteps {
  import opened Numbers
  import opened WideMath
  import opened Position
  import opened Funding
  import opened Accrual
  import opened AccrualRuns

  // ---- The pool's clock ----

  /** A pool without an integral starts one at zero once it is flat, and until then is left alone. */
  lemma CheckpointStarts(p: PoolState, now: i64)
    requires !p.utilizationInitialized
    ensures var flat := p.lockedQuote == 0 && p.reservedQuote == 0;
            var p' := if flat
                      then p.(utilizationIntegral := 0, utilizationLastTs := now, utilizationInitialized := true)
                      else p;
            Checkpointed(p, now) == Success((p', flat))
  {
  }

  /** A running integral fails to advance exactly when the time or the sum no longer fits. */
  lemma CheckpointExists(p: PoolState, now: i64)
    requires p.utilizationInitialized
    ensures var gap := Max(now - p.utilizationLastTs, 0);
            if gap == 0 then Checkpointed(p, now) == Success((p, true))
            else if gap < I64_LIMIT && Utilization(p) * gap + p.utilizationIntegral < U128_LIMIT
            then Checkpointed(p, now).Success?
            else Checkpointed(p, now) == Failure(Risk(MathOverflow))
  {
    var gap := Max(now - p.utilizationLastTs, 0);
    UtilizationIsRatio(p.reservedQuote, p.quoteDeposited);
    Grows(Utilization(p), gap);
  }

  lemma Grows(level: int, gap: int)
    ensures 0 <= level && 0 <= gap ==> 0 <= level * gap
  {
  }

  /** The utilisation in basis points is the floor of reserves over equity, zero without equity. */
  lemma UtilizationIsRatio(reserved: u64, deposited: u64)
    ensures UtilizationBps(reserved, deposited) == Success(UtilizationOf(reserved, deposited))
    ensures var u := UtilizationOf(reserved, deposited);
            if deposited == 0 then u == 0
            else u * deposited <= reserved * 10_000 < (u + 1) * deposited
  {
    if deposited != 0 {
      MulDivRounds(reserved, BPS_DENOMINATOR, deposited);
      MulDivExact(reserved, BPS_DENOMINATOR, deposited);
    }
  }

  // ---- Samples ----

  /** A sample is the rate the book calls for, at a time that never goes back. */
  lemma SampleExact(m: MarketState, effectiveTs: i64)
    ensures Sampled(m, effectiveTs)
            == var rate := BookRate(m);
               if rate.Failure? then Failure(rate.error)
               else Success(m.(sampledFundingRatePerHour := rate.value,
                               lastRateSampleTs := Max(m.lastRateSampleTs, effectiveTs)))
  {
  }

  /** A settlement samples again exactly when the last sample is at least the market's interval old. */
  lemma ResampleIff(m: MarketState, now: i64)
    requires now - m.lastRateSampleTs < I64_LIMIT && -I64_LIMIT <= now - m.lastRateSampleTs
    ensures Resampled(m, now) == if m.lastRateSampleTs + m.minSettleIntervalSeconds <= now then Sampled(m, now)
                                 else Success(m)
  {
  }

  /** A book change samples at the settled time, unless a legacy book is still draining. */
  lemma BookChangeSamples(m: MarketState)
    ensures SampledAfterBookChange(m)
            == if m.borrowIntegralInitialized || m.book.longOiUsd + m.book.shortOiUsd == 0
               then Sampled(m, m.lastSettleTs) else Success(m)
  {
  }

  // ---- Settlements ----

  /** A market that has not migrated may only do so empty, and starts at the pool's integral and clock. */
  lemma MigrationNeedsAnEmptyBook(m: MarketState, p: PoolState, now: i64)
    requires !m.borrowIntegralInitialized
    ensures var settled := Max(m.lastSettleTs, now);
            Settled(m, p, true, now)
            == if m.book == Book(0, 0, 0, 0, 0, 0)
               then Success((m.(borrowUtilizationCheckpoint := p.utilizationIntegral,
                                borrowIntegralInitialized := true, lastSettleTs := settled,
                                lastRateSampleTs := settled),
                             None))
               else Failure(MarketMigrationRequired)
  {
  }

  /** A migrated market has nothing to settle exactly when neither its clock nor the pool's integral moved. */
  lemma NothingToSettleIff(m: MarketState, p: PoolState, now: i64)
    requires m.borrowIntegralInitialized && Settled(m, p, true, now).Success?
    ensures var (m', charged) := Settled(m, p, true, now).value;
            if now <= m.lastSettleTs && p.utilizationIntegral == m.borrowUtilizationCheckpoint
            then m' == m && charged == None
            else charged == Some(Max(now - m.lastSettleTs, 0))
  {
    hide Charged;
  }

  /**
   * A legacy book is charged for at most its settlement window: borrow at the ratio of the moment, carried exactly, and
   * funding truncated. A clock that does not advance charges nothing.
   */
  lemma LegacySettles(m: MarketState, p: PoolState, now: i64)
    requires Settled(m, p, false, now).Success?
    ensures var (m', charged) := Settled(m, p, false, now).value;
            if now <= m.lastSettleTs then m' == m && charged == None
            else
              var dt := Min(now - m.lastSettleTs, m.maxSettleWindowSeconds);
              && charged == Some(dt)
              && BorrowCharged(m') == BorrowCharged(m) + m.borrowRatePerHour * (Utilization(p) * dt)
              && IsTrunc(Success(m'.cumFundingIndex - m.cumFundingIndex), m.sampledFundingRatePerHour * dt,
                         SECONDS_PER_HOUR)
              && m'.lastSettleTs == now
              && m' == m.(cumBorrowIndex := m'.cumBorrowIndex, borrowRemainderCarry := m'.borrowRemainderCarry,
                          cumFundingIndex := m'.cumFundingIndex, lastSettleTs := now,
                          sampledFundingRatePerHour := m'.sampledFundingRatePerHour,
                          lastRateSampleTs := m'.lastRateSampleTs)
  {
    hide Charged, IsTrunc;
    if m.lastSettleTs < now {
      LegacyCharge(m, p, Min(now - m.lastSettleTs, m.maxSettleWindowSeconds), now);
    }
  }

  lemma LegacyCharge(m: MarketState, p: PoolState, dt: u64, now: i64)
    requires Charged(m, p, false, dt, now).Success? && m.lastSettleTs < now
    ensures var m' := Charged(m, p, false, dt, now).value;
            && BorrowCharged(m') == BorrowCharged(m) + m.borrowRatePerHour * (Utilization(p) * dt)
            && IsTrunc(Success(m'.cumFundingIndex - m.cumFundingIndex), m.sampledFundingRatePerHour * dt,
                       SECONDS_PER_HOUR)
            && m' == m.(cumBorrowIndex := m'.cumBorrowIndex, borrowRemainderCarry := m'.borrowRemainderCarry,
                        cumFundingIndex := m'.cumFundingIndex, lastSettleTs := now,
                        sampledFundingRatePerHour := m'.sampledFundingRatePerHour,
                        lastRateSampleTs := m'.lastRateSampleTs)
  {
    hide BorrowAccrued, FundingAccrued, IsTrunc, FundingRatePerHour, BorrowCharged;
    var m1 := BorrowAccrued(m, p, false, dt).value;
    LegacyBorrow(m, p, dt);
    var m2 := FundingAccrued(m1, false, dt).value;
    LegacyFunding(m1, dt);
    var m3 := Resampled(m2, now).value;
    SameBorrow(m1, m3.(lastSettleTs := now));
  }

  lemma SameBorrow(m: MarketState, m': MarketState)
    requires m'.cumBorrowIndex == m.cumBorrowIndex && m'.borrowRemainderCarry == m.borrowRemainderCarry
    ensures BorrowCharged(m') == BorrowCharged(m)
  {
  }

  lemma LegacyBorrow(m: MarketState, p: PoolState, dt: u64)
    requires BorrowAccrued(m, p, false, dt).Success?
    ensures var m' := BorrowAccrued(m, p, false, dt).value;
            && BorrowCharged(m') == BorrowCharged(m) + m.borrowRatePerHour * (Utilization(p) * dt)
            && m' == m.(cumBorrowIndex := m'.cumBorrowIndex, borrowRemainderCarry := m'.borrowRemainderCarry)
  {
    hide UtilizationBps, Utilization, BorrowIndexDelta, BorrowIndexDeltaFromIntegral;
    RatioOfPool(p);
    var (rate, u, carried) := (m.borrowRatePerHour, Utilization(p), m.borrowRemainderCarry);
    LegacyBorrowExact(rate, u, dt, carried);
    if rate != 0 {
      BorrowStepExact(rate, u * dt, carried);
    }
  }

  lemma RatioOfPool(p: PoolState)
    ensures 0 <= Utilization(p) < U128_LIMIT
    ensures UtilizationBps(p.reservedQuote, p.quoteDeposited) == Success(Utilization(p))
  {
    UtilizationIsRatio(p.reservedQuote, p.quoteDeposited);
  }

  lemma LegacyFunding(m: MarketState, dt: u64)
    requires FundingAccrued(m, false, dt).Success?
    ensures var m' := FundingAccrued(m, false, dt).value;
            && IsTrunc(Success(m'.cumFundingIndex - m.cumFundingIndex), m.sampledFundingRatePerHour * dt,
                       SECONDS_PER_HOUR)
            && m' == m.(cumFundingIndex := m'.cumFundingIndex)
  {
    hide IsTrunc, FundingIndexDelta;
    LegacyFundingExact(m.sampledFundingRatePerHour, dt);
    TruncOfSuccess(FundingIndexDelta(m.sampledFundingRatePerHour, dt), m.sampledFundingRatePerHour * dt);
  }

  lemma TruncOfSuccess(r: Result<i128, RiskError>, n: int)
    requires r.Success? && IsTrunc(r, n, SECONDS_PER_HOUR)
    ensures IsTrunc(Success(r.value), n, SECONDS_PER_HOUR)
  {
  }

  /** While the pool cannot migrate, accrual settles at the caller's own clock and leaves the pool alone. */
  lemma LegacyAccrues(m: MarketState, p: PoolState, clock: i64)
    requires !p.utilizationInitialized && (p.lockedQuote != 0 || p.reservedQuote != 0)
    ensures Accrued(m, p, clock)
            == var settled := Settled(m, p, false, clock);
               if settled.Failure? then Failure(settled.error)
               else Success((settled.value.0, p, settled.value.1))
  {
    hide Settled;
  }

  // ---- Parameters ----

  /** One percent an hour for either rate, a sensitivity of one, and a settlement window of at most seven days. */
  lemma RatesAcceptedIff(r: Rates)
    ensures CheckRates(r).Pass? <==>
              && r.borrowRatePerHour <= 10_000_000 && r.fundingCapPerHour <= 10_000_000
              && r.fundingSensitivity <= 1_000_000_000 && 0 < r.maxSettleWindowSeconds <= 604_800
  {
  }
}

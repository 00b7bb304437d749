/** The pool's utilisation clock and the markets that consume it. */
module Accrual {
  import opened Numbers
  import opened WideMath
  import opened Position
  import opened Funding

  datatype PerpsError =
    | Risk(error: RiskError)
    | MarketMigrationRequired
    | LpValuationUnavailable
    | DepositsPaused
    | WithdrawalsPaused
    | ZeroAmount
    | PoolCapReached
    | SlippageExceeded
    | ZeroSharesMinted
    | WithdrawTooSoon
    | InsufficientPoolEquity
    | UtilizationTooHigh
    | UtilizationCeilingTooHigh
    | VaultInsolvent
    | InsufficientTokens
    | RequestExists
    | NoRequest
    | EscrowNotEmpty
    | WithdrawRequestStillOpen
    | UnknownMarket
    | InvalidRiskParameters
    | SettleWindowTooLong
    | BorrowRateTooHigh
    | FundingRateTooHigh
    | FundingSensitivityTooHigh

  function MapRiskError(e: RiskError): PerpsError {
    Risk(if e.DivisionByZero? then MathOverflow else e)
  }

  function Mapped<T>(r: Result<T, RiskError>): Result<T, PerpsError> {
    if r.Success? then Success(r.value) else Failure(MapRiskError(r.error))
  }

  function CheckedI64(x: int): Result<i64, PerpsError> {
    if -I64_LIMIT <= x < I64_LIMIT then Success(x) else Failure(Risk(MathOverflow))
  }

  function CheckedU64(x: int): Result<u64, PerpsError> {
    if 0 <= x < U64_LIMIT then Success(x) else Failure(Risk(MathOverflow))
  }

  // ---- State ----

  /** The pool account's accounting fields. */
  datatype PoolState = PoolState(
    totalShares: u64, quoteDeposited: u64, lockedQuote: u64, pendingProtocolFees: u64, reservedQuote: u64,
    depositFeeBps: u16, withdrawFeeBps: u16, withdrawDelaySeconds: u32, maxUtilizationBps: u16, maxAumQuote: u64,
    utilizationIntegral: u128, utilizationLastTs: i64, utilizationInitialized: bool)

  /** The market account's accrual fields. */
  datatype MarketState = MarketState(
    borrowRatePerHour: u128, fundingSensitivity: u128, fundingCapPerHour: u128,
    maxSettleWindowSeconds: u32, minSettleIntervalSeconds: u32,
    cumBorrowIndex: u128, borrowRemainderCarry: u128,
    cumFundingIndex: i128, fundingRemainderCarry: i64, sampledFundingRatePerHour: i128,
    lastSettleTs: i64, lastRateSampleTs: i64,
    book: Book, borrowUtilizationCheckpoint: u128, borrowIntegralInitialized: bool)

  datatype Book = Book(longOiUsd: u128, shortOiUsd: u128, longPositions: u32, shortPositions: u32, lockedQuote: u64,
                       reservedQuote: u64)

  const EMPTY_BOOK: Book := Book(0, 0, 0, 0, 0, 0)

  // ---- Specification ----

  /** The reserved fraction of the pool's equity in basis points, floored, and zero for an empty pool. */
  function UtilizationBps(reserved: u128, aum: u128): Result<u128, RiskError> {
    if aum == 0 then Success(0) else FloorMulDiv(reserved, BPS_DENOMINATOR, aum)
  }

  function Checkpointed(p: PoolState, now: i64): Result<(PoolState, bool), PerpsError> {
    if !p.utilizationInitialized then
      if p.lockedQuote != 0 || p.reservedQuote != 0 then
        Success((p, false))
      else
        Success((p.(utilizationIntegral := 0, utilizationLastTs := now, utilizationInitialized := true), true))
    else if now <= p.utilizationLastTs then
      Success((p, true))
    else
      var elapsed :- CheckedI64(now - p.utilizationLastTs);
      var utilization :- Mapped(UtilizationBps(p.reservedQuote, p.quoteDeposited));
      var delta :- Mapped(CheckedU128(utilization * elapsed));
      var integral :- Mapped(CheckedU128(p.utilizationIntegral + delta));
      Success((p.(utilizationIntegral := integral, utilizationLastTs := now), true))
  }

  function Sampled(m: MarketState, effectiveTs: i64): Result<MarketState, PerpsError> {
    var rate :- Mapped(FundingRatePerHour(m.book.longOiUsd, m.book.shortOiUsd, m.fundingSensitivity,
                                          m.fundingCapPerHour));
    Success(m.(sampledFundingRatePerHour := rate, lastRateSampleTs := Max(m.lastRateSampleTs, effectiveTs)))
  }

  function SampledAfterBookChange(m: MarketState): Result<MarketState, PerpsError> {
    if m.borrowIntegralInitialized || (m.book.longOiUsd == 0 && m.book.shortOiUsd == 0) then
      Sampled(m, m.lastSettleTs)
    else
      Success(m)
  }

  function BorrowAccrued(m: MarketState, p: PoolState, migrated: bool, dt: u64): Result<MarketState, PerpsError> {
    var accrual :-
      if migrated then
        (var consumed :- Mapped(CheckedU128(p.utilizationIntegral - m.borrowUtilizationCheckpoint));
         Mapped(BorrowIndexDeltaFromIntegral(m.borrowRatePerHour, consumed, m.borrowRemainderCarry)))
      else
        (var utilization :- Mapped(UtilizationBps(p.reservedQuote, p.quoteDeposited));
         Mapped(BorrowIndexDelta(m.borrowRatePerHour, utilization, dt, m.borrowRemainderCarry)));
    var index :- Mapped(CheckedU128(m.cumBorrowIndex + accrual.indexDelta));
    Success(m.(cumBorrowIndex := index, borrowRemainderCarry := accrual.remainder,
               borrowUtilizationCheckpoint := if migrated then p.utilizationIntegral
                   else m.borrowUtilizationCheckpoint))
  }

  function FundingAccrued(m: MarketState, migrated: bool, dt: u64): Result<MarketState, PerpsError> {
    var accrual :-
      if migrated then
        Mapped(FundingIndexDeltaWithCarry(m.sampledFundingRatePerHour, dt, m.fundingRemainderCarry))
      else
        (var delta :- Mapped(FundingIndexDelta(m.sampledFundingRatePerHour, dt));
         Success(FundingAccrual(delta, m.fundingRemainderCarry)));
    var index :- Mapped(CheckedI128(m.cumFundingIndex + accrual.indexDelta));
    Success(m.(cumFundingIndex := index, fundingRemainderCarry := accrual.remainder))
  }

  function Resampled(m: MarketState, now: i64): Result<MarketState, PerpsError> {
    var sinceSample :- CheckedI64(now - m.lastRateSampleTs);
    if sinceSample >= m.minSettleIntervalSeconds then Sampled(m, now) else Success(m)
  }

  /** Charge one interval ending at `now`, under the rates in force before it. */
  function Charged(m: MarketState, p: PoolState, migrated: bool, dt: u64, now: i64): Result<MarketState, PerpsError> {
    var m :- BorrowAccrued(m, p, migrated, dt);
    var m :- FundingAccrued(m, migrated, dt);
    var m :- Resampled(m, now);
    Success(m.(lastSettleTs := Max(m.lastSettleTs, now)))
  }

  /** The market after settling against an already checkpointed pool, and the seconds charged, if any. */
  function Settled(m: MarketState, p: PoolState, migrated: bool, now: i64)
    : Result<(MarketState, Option<u64>), PerpsError>
  {
    if migrated && !m.borrowIntegralInitialized then
      if m.book != EMPTY_BOOK then
        Failure(MarketMigrationRequired)
      else
        var settled: i64 := Max(m.lastSettleTs, now);
        Success((m.(borrowUtilizationCheckpoint := p.utilizationIntegral, borrowIntegralInitialized := true,
                    lastSettleTs := settled, lastRateSampleTs := settled), None))
    else
      var raw :- CheckedI64(now - m.lastSettleTs);
      if raw <= 0 && (!migrated || p.utilizationIntegral == m.borrowUtilizationCheckpoint) then
        Success((m, None))
      else
        var elapsed: u64 := Max(raw, 0);
        var dt: u64 := if migrated then elapsed else Min(elapsed, m.maxSettleWindowSeconds);
        var m :- Charged(m, p, migrated, dt, now);
        Success((m, Some(dt)))
  }

  function SettlementTime(p: PoolState, migrated: bool, clock: i64): i64 {
    if migrated then Max(clock, p.utilizationLastTs) else clock
  }

  /** `accrue`: checkpoint the pool, then settle the market at the pool's high-water time. */
  function Accrued(m: MarketState, p: PoolState, clock: i64)
    : Result<(MarketState, PoolState, Option<u64>), PerpsError>
  {
    var checkpointed :- Checkpointed(p, clock);
    var (p, migrated) := checkpointed;
    var settled :- Settled(m, p, migrated, SettlementTime(p, migrated, clock));
    Success((settled.0, p, settled.1))
  }

  // ---- The program's accounts, updated in place ----

  class Pool {
    var totalShares: u64
    var quoteDeposited: u64
    var lockedQuote: u64
    var pendingProtocolFees: u64
    var reservedQuote: u64
    var depositFeeBps: u16
    var withdrawFeeBps: u16
    var withdrawDelaySeconds: u32
    var maxUtilizationBps: u16
    var maxAumQuote: u64
    var utilizationIntegral: u128
    var utilizationLastTs: i64
    var utilizationInitialized: bool

    function View(): PoolState
      reads this
    {
      PoolState(totalShares, quoteDeposited, lockedQuote, pendingProtocolFees, reservedQuote,
                depositFeeBps, withdrawFeeBps, withdrawDelaySeconds, maxUtilizationBps, maxAumQuote,
                utilizationIntegral, utilizationLastTs, utilizationInitialized)
    }

    /** A failed call reverts its transaction, so only the successful state is promised. */
    method CheckpointUtilization(now: i64) returns (r: Result<bool, PerpsError>)
      modifies this
      ensures var spec := Checkpointed(old(View()), now);
              if spec.Failure? then r == Failure(spec.error)
              else r == Success(spec.value.1) && View() == spec.value.0
    {
      if !utilizationInitialized {
        if lockedQuote != 0 || reservedQuote != 0 {
          return Success(false);
        }
        utilizationIntegral := 0;
        utilizationLastTs := now;
        utilizationInitialized := true;
        return Success(true);
      }
      if now <= utilizationLastTs {
        return Success(true);
      }
      var elapsed :- CheckedI64(now - utilizationLastTs);
      var utilization: u128 :- Mapped(UtilizationBps(reservedQuote, quoteDeposited));
      var delta: u128 :- Mapped(CheckedU128(utilization * elapsed));
      var integral :- Mapped(CheckedU128(utilizationIntegral + delta));
      utilizationIntegral := integral;
      utilizationLastTs := now;
      return Success(true);
    }
  }

  class Market {
    var borrowRatePerHour: u128
    var fundingSensitivity: u128
    var fundingCapPerHour: u128
    var maxSettleWindowSeconds: u32
    var minSettleIntervalSeconds: u32
    var cumBorrowIndex: u128
    var borrowRemainderCarry: u128
    var cumFundingIndex: i128
    var fundingRemainderCarry: i64
    var sampledFundingRatePerHour: i128
    var lastSettleTs: i64
    var lastRateSampleTs: i64
    var book: Book
    var borrowUtilizationCheckpoint: u128
    var borrowIntegralInitialized: bool

    function View(): MarketState
      reads this
    {
      MarketState(borrowRatePerHour, fundingSensitivity, fundingCapPerHour, maxSettleWindowSeconds,
                  minSettleIntervalSeconds, cumBorrowIndex, borrowRemainderCarry, cumFundingIndex,
                  fundingRemainderCarry, sampledFundingRatePerHour, lastSettleTs, lastRateSampleTs, book,
                  borrowUtilizationCheckpoint, borrowIntegralInitialized)
    }

    method SampleFundingRate(effectiveTs: i64) returns (r: Result<(), PerpsError>)
      modifies this
      ensures var spec := Sampled(old(View()), effectiveTs);
              if spec.Failure? then r == Failure(spec.error) else r.Success? && View() == spec.value
    {
      var rate :- Mapped(FundingRatePerHour(book.longOiUsd, book.shortOiUsd, fundingSensitivity, fundingCapPerHour));
      sampledFundingRatePerHour := rate;
      lastRateSampleTs := Max(lastRateSampleTs, effectiveTs);
      return Success(());
    }

    method SampleFundingAfterBookChange() returns (r: Result<(), PerpsError>)
      modifies this
      ensures var spec := SampledAfterBookChange(old(View()));
              if spec.Failure? then r == Failure(spec.error) else r.Success? && View() == spec.value
    {
      if borrowIntegralInitialized || (book.longOiUsd == 0 && book.shortOiUsd == 0) {
        r := SampleFundingRate(lastSettleTs);
        return;
      }
      return Success(());
    }

    method AccrueBorrow(pool: Pool, migrated: bool, dt: u64) returns (r: Result<(), PerpsError>)
      modifies this
      ensures var spec := BorrowAccrued(old(View()), pool.View(), migrated, dt);
              if spec.Failure? then r == Failure(spec.error) else r.Success? && View() == spec.value
    {
      var accrual: BorrowAccrual;
      if migrated {
        var consumed :- Mapped(CheckedU128(pool.utilizationIntegral - borrowUtilizationCheckpoint));
        accrual :- Mapped(BorrowIndexDeltaFromIntegral(borrowRatePerHour, consumed, borrowRemainderCarry));
      } else {
        var utilization :- Mapped(UtilizationBps(pool.reservedQuote, pool.quoteDeposited));
        accrual :- Mapped(BorrowIndexDelta(borrowRatePerHour, utilization, dt, borrowRemainderCarry));
      }
      var index :- Mapped(CheckedU128(cumBorrowIndex + accrual.indexDelta));
      cumBorrowIndex := index;
      borrowRemainderCarry := accrual.remainder;
      if migrated {
        borrowUtilizationCheckpoint := pool.utilizationIntegral;
      }
      return Success(());
    }

    method AccrueFunding(migrated: bool, dt: u64) returns (r: Result<(), PerpsError>)
      modifies this
      ensures var spec := FundingAccrued(old(View()), migrated, dt);
              if spec.Failure? then r == Failure(spec.error) else r.Success? && View() == spec.value
    {
      var delta: i128;
      if migrated {
        var accrual :- Mapped(FundingIndexDeltaWithCarry(sampledFundingRatePerHour, dt, fundingRemainderCarry));
        delta := accrual.indexDelta;
        fundingRemainderCarry := accrual.remainder;
      } else {
        delta :- Mapped(FundingIndexDelta(sampledFundingRatePerHour, dt));
      }
      var index :- Mapped(CheckedI128(cumFundingIndex + delta));
      cumFundingIndex := index;
      return Success(());
    }

    /** Takes a new sample only if the last one is at least the minimum interval old. */
    method Resample(now: i64) returns (r: Result<(), PerpsError>)
      modifies this
      ensures var spec := Resampled(old(View()), now);
              if spec.Failure? then r == Failure(spec.error) else r.Success? && View() == spec.value
    {
      var sinceSample :- CheckedI64(now - lastRateSampleTs);
      if sinceSample >= minSettleIntervalSeconds {
        r := SampleFundingRate(now);
        return;
      }
      return Success(());
    }

    method Charge(pool: Pool, migrated: bool, dt: u64, now: i64) returns (r: Result<(), PerpsError>)
      modifies this
      ensures var spec := Charged(old(View()), pool.View(), migrated, dt, now);
              if spec.Failure? then r == Failure(spec.error) else r.Success? && View() == spec.value
    {
      var _ :- AccrueBorrow(pool, migrated, dt);
      var _ :- AccrueFunding(migrated, dt);
      var _ :- Resample(now);
      lastSettleTs := Max(lastSettleTs, now);
      return Success(());
    }

    method Settle(pool: Pool, migrated: bool, now: i64) returns (r: Result<Option<u64>, PerpsError>)
      modifies this
      ensures var spec := Settled(old(View()), pool.View(), migrated, now);
              if spec.Failure? then r == Failure(spec.error) else r == Success(spec.value.1) && View() == spec.value.0
    {
      hide Charged;
      if migrated && !borrowIntegralInitialized {
        if book != EMPTY_BOOK {
          return Failure(MarketMigrationRequired);
        }
        borrowUtilizationCheckpoint := pool.utilizationIntegral;
        borrowIntegralInitialized := true;
        lastSettleTs := Max(lastSettleTs, now);
        lastRateSampleTs := lastSettleTs;
        return Success(None);
      }
      var raw :- CheckedI64(now - lastSettleTs);
      if raw <= 0 && (!migrated || pool.utilizationIntegral == borrowUtilizationCheckpoint) {
        return Success(None);
      }
      var elapsed: u64 := Max(raw, 0);
      var dt: u64 := if migrated then elapsed else Min(elapsed, maxSettleWindowSeconds);
      var _ :- Charge(pool, migrated, dt, now);
      return Success(Some(dt));
    }

    method Accrue(pool: Pool, clock: i64) returns (r: Result<Option<u64>, PerpsError>)
      modifies this, pool
      ensures var spec := Accrued(old(View()), old(pool.View()), clock);
              if spec.Failure? then r == Failure(spec.error)
              else r == Success(spec.value.2) && View() == spec.value.0 && pool.View() == spec.value.1
    {
      var migrated :- pool.CheckpointUtilization(clock);
      r := Settle(pool, migrated, if migrated then Max(clock, pool.utilizationLastTs) else clock);
    }
  }
}

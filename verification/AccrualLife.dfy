/**
 * Pools and markets from their creation on: every market is either untouched or live at the rate its book calls for,
 * and within the ceilings on rates no history makes accrual fail.
 */
module AccrualLife {
  import opened Numbers
  import opened Nonlinear
  import opened WideMath
  import opened Position
  import opened Funding
  import opened Accrual
  import opened AccrualRuns
  import opened AccrualTimelines

  // ---- Creation ----

  /** A pool checkpointed by its own initialisation, before any deposit or position. */
  predicate NewPool(p: PoolState) {
    && p.utilizationInitialized && p.utilizationIntegral == 0
    && p.quoteDeposited == 0 && p.lockedQuote == 0 && p.reservedQuote == 0
  }

  /** A market is listed with every parameter zero. */
  function NewMarket(created: i64): MarketState {
    MarketState(0, 0, 0, 0, 0, 0, 0, 0, 0, 0, created, created, EMPTY_BOOK, 0, false)
  }

  predicate Untouched(m: MarketState) {
    m == NewMarket(m.lastSettleTs)
  }

  /** Markets may have been listed at any time; nothing happens to one until it is first touched. */
  ghost predicate Genesis(s: System) {
    NewPool(s.pool) && forall i :: i in s.markets ==> Untouched(s.markets[i])
  }

  // ---- Every market is untouched, or live and current ----

  predicate Tended(s: System, i: nat) {
    && s.pool.utilizationInitialized
    && i in s.markets
    && if s.markets[i].borrowIntegralInitialized then Live(s, i) && Current(s.markets[i]) else Untouched(s.markets[i])
  }

  lemma TendedStep(s: System, e: Event, i: nat)
    requires Tended(s, i) && Step(s, e).Success?
    ensures Tended(Step(s, e).value, i)
    ensures Touches(e, i) ==> Step(s, e).value.markets[i].borrowIntegralInitialized
  {
    if s.markets[i].borrowIntegralInitialized {
      hide Step, Current;
      StepExact(s, e, i);
      TermsStep(s, e, i);
    } else {
      hide Settled, Checkpointed;
      PoolStep(s, e);
      if Touches(e, i) {
        CheckpointExact(s.pool, e.now);
        FirstTouch(s.markets[i], s.pool, e.now);
      }
    }
  }

  /** The first settlement of a market migrates it and charges nothing. */
  lemma FirstTouch(m: MarketState, p: PoolState, clock: i64)
    requires p.utilizationInitialized && Untouched(m) && Checkpointed(p, clock).Success?
    ensures Accrued(m, p, clock).Success?
    ensures var (m', p', _) := Accrued(m, p, clock).value;
            && p' == Checkpointed(p, clock).value.0
            && var settled := Max(m.lastSettleTs, p'.utilizationLastTs);
               m' == NewMarket(settled).(borrowUtilizationCheckpoint := p'.utilizationIntegral,
                                         borrowIntegralInitialized := true)
  {
    CheckpointExact(p, clock);
  }

  lemma {:induction false} TendedRun(s: System, events: seq<Event>, i: nat)
    requires Tended(s, i) && Run(s, events).Success?
    ensures Tended(Run(s, events).value, i)
  {
    hide Step, Tended;
    if events != [] {
      TendedRun(s, events[..|events| - 1], i);
      TendedStep(Run(s, events[..|events| - 1]).value, events[|events| - 1], i);
    }
  }

  /** In everything a new system can become, a market that was ever touched is live and samples its book's own rate. */
  lemma AlwaysTended(s: System, events: seq<Event>, i: nat)
    requires Genesis(s) && i in s.markets && Run(s, events).Success?
    ensures Tended(Run(s, events).value, i)
  {
    hide Run;
    TendedRun(s, events, i);
  }

  // ---- Within the ceilings nothing overflows ----

  predicate PoolBounded(p: PoolState) {
    && p.utilizationInitialized
    && p.reservedQuote <= p.quoteDeposited
    && 0 <= p.utilizationLastTs
    && p.utilizationIntegral <= BPS_DENOMINATOR * p.utilizationLastTs
  }

  predicate WithinCeilings(m: MarketState) {
    && m.borrowRatePerHour <= MAX_RATE_PER_HOUR && m.fundingCapPerHour <= MAX_RATE_PER_HOUR
    && m.fundingSensitivity <= MAX_FUNDING_SENSITIVITY
    && Abs(m.sampledFundingRatePerHour) <= MAX_RATE_PER_HOUR
    && m.book.longOiUsd + m.book.shortOiUsd < U128_LIMIT
  }

  /** What a market can have been charged by now at the highest rates there are. */
  predicate ChargesBounded(m: MarketState) {
    && 0 <= m.lastSettleTs && 0 <= m.lastRateSampleTs
    && m.borrowRemainderCarry < BORROW_DENOMINATOR && 0 <= m.fundingRemainderCarry < SECONDS_PER_HOUR
    && BorrowCharged(m) <= MAX_RATE_PER_HOUR * m.borrowUtilizationCheckpoint
    && Abs(FundingCharged(m)) <= MAX_RATE_PER_HOUR * m.lastSettleTs
  }

  predicate MarketBounded(m: MarketState, p: PoolState) {
    && WithinCeilings(m) && ChargesBounded(m)
    && m.borrowUtilizationCheckpoint <= p.utilizationIntegral
    && (!m.borrowIntegralInitialized ==> Untouched(m))
  }

  ghost predicate Bounded(s: System) {
    PoolBounded(s.pool) && forall i :: i in s.markets ==> MarketBounded(s.markets[i], s.pool)
  }

  lemma CheckpointBounded(p: PoolState, now: i64)
    requires PoolBounded(p) && 0 <= now
    ensures Checkpointed(p, now).Success?
    ensures var (p', migrated) := Checkpointed(p, now).value;
            && migrated && PoolBounded(p')
            && p.utilizationIntegral <= p'.utilizationIntegral
            && p'.reservedQuote == p.reservedQuote && p'.quoteDeposited == p.quoteDeposited
  {
    if p.utilizationLastTs < now {
      var elapsed := now - p.utilizationLastTs;
      FullAtMost(p.reservedQuote, p.quoteDeposited);
      var level := UtilizationBps(p.reservedQuote, p.quoteDeposited).value;
      MulMono(level, BPS_DENOMINATOR, elapsed);
      MulMono(0, level, elapsed);
    }
  }

  /** A covered reserve is at most the whole of the equity. */
  lemma FullAtMost(reserved: u64, deposited: u64)
    requires reserved <= deposited
    ensures UtilizationBps(reserved, deposited).Success? && UtilizationBps(reserved, deposited).value <= BPS_DENOMINATOR
  {
    if deposited != 0 {
      MulDivExact(reserved, BPS_DENOMINATOR, deposited);
      MulMono(reserved, deposited, BPS_DENOMINATOR);
      var f := FloorMulDiv(reserved, BPS_DENOMINATOR, deposited);
      MulMono(1, deposited, U128_LIMIT);
      if f.Success? {
        MulCancelLeq(f.value, BPS_DENOMINATOR, deposited);
      }
    }
  }

  /** A rate exists for every book whose total is a 128-bit number, and for no other. */
  lemma RateExistsIff(book: Book, sensitivity: u128, cap: u128)
    requires sensitivity <= MAX_FUNDING_SENSITIVITY && cap <= MAX_RATE_PER_HOUR
    ensures var r := FundingRatePerHour(book.longOiUsd, book.shortOiUsd, sensitivity, cap);
            && (r.Success? <==> book.longOiUsd + book.shortOiUsd < U128_LIMIT)
            && (r.Success? ==> Abs(r.value) <= MAX_RATE_PER_HOUR)
  {
    var (total, skew) := (book.longOiUsd + book.shortOiUsd, Abs(book.longOiUsd - book.shortOiUsd));
    if 0 < total < U128_LIMIT {
      MulDivExact(sensitivity, skew, total);
      MulMono(skew, total, sensitivity);
      MulMono(sensitivity, U128_LIMIT - 1, total);
    }
  }

  lemma BorrowStepSucceeds(rate: u128, consumed: u128, carried: u128)
    requires rate <= MAX_RATE_PER_HOUR && consumed <= BPS_DENOMINATOR * I64_LIMIT && carried < BORROW_DENOMINATOR
    ensures BorrowIndexDeltaFromIntegral(rate, consumed, carried).Success?
  {
    MulMono(rate, MAX_RATE_PER_HOUR, consumed);
    MulMono(0, rate, consumed);
    DivBounds(rate * consumed + carried, BORROW_DENOMINATOR);
  }

  lemma BorrowBounded(m: MarketState, p: PoolState, dt: u64)
    requires MarketBounded(m, p) && PoolBounded(p)
    ensures BorrowAccrued(m, p, true, dt).Success?
  {
    hide BorrowIndexDeltaFromIntegral, FundingRatePerHour, FundingCharged;
    var (rate, consumed) := (m.borrowRatePerHour, p.utilizationIntegral - m.borrowUtilizationCheckpoint);
    BorrowStepSucceeds(rate, consumed, m.borrowRemainderCarry);
    BorrowStepExact(rate, consumed, m.borrowRemainderCarry);
    var a := BorrowIndexDeltaFromIntegral(rate, consumed, m.borrowRemainderCarry).value;
    MulMono(rate, MAX_RATE_PER_HOUR, consumed);
    IndexFits(m.cumBorrowIndex, m.borrowRemainderCarry, m.borrowUtilizationCheckpoint, rate * consumed, consumed,
              a.indexDelta, a.remainder);
  }

  lemma IndexFits(index: nat, carried: nat, checkpoint: nat, charge: int, consumed: nat, delta: nat, left: nat)
    requires BORROW_DENOMINATOR * index + carried <= MAX_RATE_PER_HOUR * checkpoint
    requires BORROW_DENOMINATOR * delta + left == charge + carried && charge <= MAX_RATE_PER_HOUR * consumed
    requires checkpoint + consumed <= BPS_DENOMINATOR * I64_LIMIT
    ensures index + delta < U128_LIMIT
  {
  }

  lemma FundingStepSucceeds(rate: i128, elapsed: u64, carried: i64)
    requires Abs(rate) <= MAX_RATE_PER_HOUR && elapsed < I64_LIMIT && 0 <= carried < SECONDS_PER_HOUR
    ensures FundingIndexDeltaWithCarry(rate, elapsed, carried).Success?
  {
    RateTimes(rate, elapsed);
  }

  lemma FundingBounded(m: MarketState, dt: u64)
    requires WithinCeilings(m) && ChargesBounded(m) && dt < I64_LIMIT
    ensures FundingAccrued(m, true, dt).Success?
  {
    hide FundingIndexDeltaWithCarry, FundingRatePerHour, BorrowCharged;
    var rate := m.sampledFundingRatePerHour;
    RateTimes(rate, dt);
    FundingStepSucceeds(rate, dt, m.fundingRemainderCarry);
    FundingStepExact(rate, dt, m.fundingRemainderCarry);
    var a := FundingIndexDeltaWithCarry(rate, dt, m.fundingRemainderCarry).value;
    FundingFits(m.cumFundingIndex, m.fundingRemainderCarry, m.lastSettleTs, rate * dt, dt, a.indexDelta, a.remainder);
  }

  lemma FundingFits(index: int, carried: nat, settled: nat, charge: int, elapsed: nat, delta: int, left: nat)
    requires Abs(SECONDS_PER_HOUR * index + carried) <= MAX_RATE_PER_HOUR * settled && settled < I64_LIMIT
    requires SECONDS_PER_HOUR * delta + left == charge + carried && Abs(charge) <= MAX_RATE_PER_HOUR * elapsed
    requires elapsed < I64_LIMIT && carried < SECONDS_PER_HOUR && left < SECONDS_PER_HOUR
    ensures -I128_LIMIT <= index + delta < I128_LIMIT
  {
  }

  /** A rate within the ceiling over any time is within the ceiling times that time. */
  lemma RateTimes(rate: int, time: nat)
    requires Abs(rate) <= MAX_RATE_PER_HOUR
    ensures Abs(rate * time) <= MAX_RATE_PER_HOUR * time
  {
    MulMono(rate, MAX_RATE_PER_HOUR, time);
    MulMono(-MAX_RATE_PER_HOUR, rate, time);
  }

  lemma ResampledBounded(m: MarketState, now: i64)
    requires WithinCeilings(m) && 0 <= m.lastRateSampleTs && 0 <= now
    ensures Resampled(m, now).Success?
    ensures var m' := Resampled(m, now).value; WithinCeilings(m') && 0 <= m'.lastRateSampleTs
  {
    RateExistsIff(m.book, m.fundingSensitivity, m.fundingCapPerHour);
  }

  lemma ChargeSucceeds(m: MarketState, p: PoolState, dt: u64, now: i64)
    requires PoolBounded(p) && MarketBounded(m, p) && dt < I64_LIMIT && 0 <= now
    ensures Charged(m, p, true, dt, now).Success?
    ensures var m' := Charged(m, p, true, dt, now).value; WithinCeilings(m') && 0 <= m'.lastRateSampleTs
  {
    hide FundingRatePerHour, BorrowAccrued, FundingAccrued;
    BorrowBounded(m, p, dt);
    var m1 := BorrowAccrued(m, p, true, dt).value;
    BorrowLeaves(m, p, dt);
    FundingBounded(m, dt);
    FundingAlike(m, m1, dt);
    var m2 := FundingAccrued(m1, true, dt).value;
    ResampledBounded(m2, now);
  }

  lemma BorrowLeaves(m: MarketState, p: PoolState, dt: u64)
    requires BorrowAccrued(m, p, true, dt).Success?
    ensures var m1 := BorrowAccrued(m, p, true, dt).value;
            m1 == m.(cumBorrowIndex := m1.cumBorrowIndex, borrowRemainderCarry := m1.borrowRemainderCarry,
                     borrowUtilizationCheckpoint := p.utilizationIntegral)
  {
  }

  lemma FundingAlike(m: MarketState, m1: MarketState, dt: u64)
    requires m1 == m.(cumBorrowIndex := m1.cumBorrowIndex, borrowRemainderCarry := m1.borrowRemainderCarry,
                      borrowUtilizationCheckpoint := m1.borrowUtilizationCheckpoint)
    requires FundingAccrued(m, true, dt).Success?
    ensures FundingAccrued(m1, true, dt).Success?
    ensures var m2 := FundingAccrued(m1, true, dt).value;
            m2 == m1.(cumFundingIndex := m2.cumFundingIndex, fundingRemainderCarry := m2.fundingRemainderCarry)
  {
  }

  lemma SettleSucceeds(m: MarketState, p: PoolState, now: i64)
    requires PoolBounded(p) && MarketBounded(m, p) && m.borrowIntegralInitialized && 0 <= now
    ensures Settled(m, p, true, now).Success?
    ensures var m' := Settled(m, p, true, now).value.0; WithinCeilings(m') && 0 <= m'.lastRateSampleTs
  {
    hide Charged, FundingRatePerHour, BorrowCharged, FundingCharged;
    ChargeSucceeds(m, p, Max(now - m.lastSettleTs, 0), now);
  }

  /** A settlement charges no more than the ceilings allow for what it consumed. */
  lemma SettleStaysBounded(m: MarketState, p: PoolState, now: i64)
    requires PoolBounded(p) && MarketBounded(m, p) && m.borrowIntegralInitialized && 0 <= now
    ensures Settled(m, p, true, now).Success?
    ensures var m' := Settled(m, p, true, now).value.0; MarketBounded(m', p) && m'.borrowIntegralInitialized
  {
    hide Settled, FundingRatePerHour, BorrowCharged, FundingCharged, WithinCeilings, PoolBounded;
    SettleSucceeds(m, p, now);
    SettledExact(m, p, now);
    var m' := Settled(m, p, true, now).value.0;
    RatesOfBounded(m);
    BorrowStaysBounded(BorrowCharged(m), m.borrowRatePerHour, m.borrowUtilizationCheckpoint, p.utilizationIntegral);
    FundingStaysBounded(FundingCharged(m), m.sampledFundingRatePerHour, m.lastSettleTs, m'.lastSettleTs);
  }

  lemma RatesOfBounded(m: MarketState)
    requires WithinCeilings(m)
    ensures m.borrowRatePerHour <= MAX_RATE_PER_HOUR && Abs(m.sampledFundingRatePerHour) <= MAX_RATE_PER_HOUR
  {
  }

  lemma BorrowStaysBounded(charged: int, rate: nat, checkpoint: nat, integral: nat)
    requires charged <= MAX_RATE_PER_HOUR * checkpoint && rate <= MAX_RATE_PER_HOUR && checkpoint <= integral
    ensures charged + rate * (integral - checkpoint) <= MAX_RATE_PER_HOUR * integral
  {
    MulMono(rate, MAX_RATE_PER_HOUR, integral - checkpoint);
  }

  lemma FundingStaysBounded(charged: int, rate: int, settled: nat, later: nat)
    requires Abs(charged) <= MAX_RATE_PER_HOUR * settled && Abs(rate) <= MAX_RATE_PER_HOUR && settled <= later
    ensures Abs(charged + rate * (later - settled)) <= MAX_RATE_PER_HOUR * later
  {
    RateTimes(rate, later - settled);
  }

  /** Accrual cannot fail within the ceilings, whatever clock a settlement runs under. */
  lemma AccrualNeverFails(m: MarketState, p: PoolState, clock: i64)
    requires PoolBounded(p) && MarketBounded(m, p) && 0 <= clock
    ensures Accrued(m, p, clock).Success?
    ensures var (m', p', _) := Accrued(m, p, clock).value;
            && p' == Checkpointed(p, clock).value.0 && PoolBounded(p') && MarketBounded(m', p')
            && m'.borrowIntegralInitialized
  {
    hide Checkpointed, Settled, FundingRatePerHour;
    CheckpointBounded(p, clock);
    CheckpointExact(p, clock);
    var p' := Checkpointed(p, clock).value.0;
    if m.borrowIntegralInitialized {
      SettleStaysBounded(m, p', p'.utilizationLastTs);
    } else {
      FirstTouch(m, p, clock);
    }
  }

  // ---- Which events are refused ----

  /** What an event needs besides the clock: its market listed, its rates within the ceilings, a book of 128 bits. */
  predicate Admitted(markets: set<nat>, e: Event) {
    && (e.Settle? || e.Retune? || e.Trade? ==> e.market in markets)
    && (e.Retune? ==> CheckRates(e.rates).Pass?)
    && (e.Trade? ==> e.book.longOiUsd + e.book.shortOiUsd < U128_LIMIT)
  }

  /** The event leaves the pool's reserves covered by its equity. */
  predicate Covers(reserved: u64, e: Event) {
    && (e.Trade? ==> e.reserved <= e.deposited)
    && (e.Flow? ==> reserved <= e.deposited)
  }

  lemma RetunedBounded(m: MarketState, p: PoolState, r: Rates)
    requires MarketBounded(m, p) && m.borrowIntegralInitialized && CheckRates(r).Pass?
    ensures var m1 := m.(borrowRatePerHour := r.borrowRatePerHour, fundingSensitivity := r.fundingSensitivity,
                         fundingCapPerHour := r.fundingCapPerHour, maxSettleWindowSeconds := r.maxSettleWindowSeconds,
                         minSettleIntervalSeconds := r.minSettleIntervalSeconds);
            var m' := Sampled(m1, m1.lastSettleTs);
            m'.Success? && MarketBounded(m'.value, p)
  {
    RateExistsIff(m.book, r.fundingSensitivity, r.fundingCapPerHour);
  }

  lemma TradedBounded(m: MarketState, p: PoolState, book: Book)
    requires MarketBounded(m, p) && m.borrowIntegralInitialized
    ensures var m' := SampledAfterBookChange(m.(book := book));
            && (m'.Success? <==> book.longOiUsd + book.shortOiUsd < U128_LIMIT)
            && (m'.Success? ==> MarketBounded(m'.value, p))
  {
    RateExistsIff(book, m.fundingSensitivity, m.fundingCapPerHour);
  }

  /**
   * On a bounded system an event at a non-negative clock fails exactly when it is not admitted: accrual itself never
   * refuses, and the system stays bounded while its reserves stay covered.
   */
  lemma StepSucceedsIff(s: System, e: Event)
    requires Bounded(s) && 0 <= e.now
    ensures Step(s, e).Success? <==> Admitted(s.markets.Keys, e)
    ensures Step(s, e).Success? && Covers(s.pool.reservedQuote, e) ==> Bounded(Step(s, e).value)
  {
    hide Accrued, Checkpointed, Sampled, SampledAfterBookChange, WithinCeilings, ChargesBounded, CheckRates;
    CheckpointBounded(s.pool, e.now);
    if !e.Checkpoint? && !e.Flow? && e.market in s.markets {
      var i := e.market;
      AccrualNeverFails(s.markets[i], s.pool, e.now);
      var (m, p) := (Accrued(s.markets[i], s.pool, e.now).value.0, Accrued(s.markets[i], s.pool, e.now).value.1);
      if e.Retune? && CheckRates(e.rates).Pass? {
        RetunedBounded(m, p, e.rates);
      } else if e.Trade? {
        TradedBounded(m, p, e.book);
      }
    }
  }

  /** Every event at a non-negative clock, admitted, and leaving reserves covered. */
  predicate Sane(events: seq<Event>, markets: set<nat>, reserved: u64) {
    events == []
    || (var (before, e) := (events[..|events| - 1], events[|events| - 1]);
        && Sane(before, markets, reserved)
        && 0 <= e.now && Admitted(markets, e) && Covers(ReservedAfter(reserved, before), e))
  }

  lemma GenesisBounded(s: System)
    requires Genesis(s) && 0 <= s.pool.utilizationLastTs
        && forall i :: i in s.markets ==> 0 <= s.markets[i].lastSettleTs
    ensures Bounded(s)
  {
  }

  lemma SameMarkets(s: System, e: Event)
    requires Step(s, e).Success?
    ensures Step(s, e).value.markets.Keys == s.markets.Keys
    ensures s.pool.utilizationInitialized ==>
              Step(s, e).value.pool.reservedQuote == ReservedAfter(s.pool.reservedQuote, [e])
  {
    hide Accrued, Sampled, SampledAfterBookChange, CheckRates, Checkpointed;
    if s.pool.utilizationInitialized {
      PoolStep(s, e);
    }
    assert [e][..0] == [];
  }

  /** No sane history of a new system makes any accrual fail. */
  lemma {:induction false} NothingFreezes(s: System, events: seq<Event>)
    requires Bounded(s) && Sane(events, s.markets.Keys, s.pool.reservedQuote)
    ensures Run(s, events).Success?
    ensures var s' := Run(s, events).value;
            && Bounded(s') && s'.markets.Keys == s.markets.Keys
            && s'.pool.reservedQuote == ReservedAfter(s.pool.reservedQuote, events)
  {
    hide Step, PoolBounded, MarketBounded, Admitted, Covers;
    if events != [] {
      var (before, e) := (events[..|events| - 1], events[|events| - 1]);
      NothingFreezes(s, before);
      var mid := Run(s, before).value;
      StepSucceedsIff(mid, e);
      SameMarkets(mid, e);
      BoundedIsInitialized(mid);
      assert [e][..0] == [];
    }
  }

  lemma BoundedIsInitialized(s: System)
    requires Bounded(s)
    ensures s.pool.utilizationInitialized
  {
  }

  // ---- What closes are billed ----

  /** 2 to the 80 micro-dollars. */
  const LARGEST_NOTIONAL: int := 0x1_0000_0000_0000_0000_0000

  /** What the ceilings allow over the whole range of the clock. */
  lemma IndicesBounded(m: MarketState, p: PoolState)
    requires PoolBounded(p) && MarketBounded(m, p)
    ensures m.cumBorrowIndex <= 2_778 * I64_LIMIT && Abs(m.cumFundingIndex) <= 2_778 * I64_LIMIT
  {
    hide FundingRatePerHour, WithinCeilings, Untouched;
  }

  /**
   * Whatever a position entered at, its bills exist: nothing charged within the ceilings can make a close overflow.
   */
  lemma BillsExist(side: Side, notional: u128, borrow: u128, borrowEntry: u128, funding: i128, fundingEntry: i128)
    requires notional <= LARGEST_NOTIONAL
    requires borrowEntry <= borrow <= 2_778 * I64_LIMIT
    requires Abs(funding) <= 2_778 * I64_LIMIT && Abs(fundingEntry) <= 2_778 * I64_LIMIT
    ensures BorrowOwed(notional, borrow, borrowEntry).Success?
    ensures FundingOwedSigned(side, notional, funding, fundingEntry).Success?
  {
    hide TruncMulDiv, CeilMulDiv;
    ProductBounded(notional, borrow - borrowEntry);
    MulDivExact(notional, borrow - borrowEntry, RATE_SCALE);
    ProductBounded(notional, Abs(funding - fundingEntry));
    TruncFits(notional, funding - fundingEntry);
  }

  lemma ProductBounded(notional: nat, delta: nat)
    requires notional <= LARGEST_NOTIONAL && delta <= 5_556 * I64_LIMIT
    ensures notional * delta <= LARGEST_NOTIONAL * 5_556 * I64_LIMIT
  {
    MulMono(notional, LARGEST_NOTIONAL, delta);
  }

  lemma TruncFits(notional: i128, delta: i128)
    requires 0 <= notional <= LARGEST_NOTIONAL && Abs(delta) <= 5_556 * I64_LIMIT
    ensures TruncMulDiv(notional, delta, RATE_SCALE).Success?
    ensures Abs(TruncMulDiv(notional, delta, RATE_SCALE).value) < I128_LIMIT
  {
    ProductBounded(notional, Abs(delta));
    TruncBounds(notional * delta, RATE_SCALE);
  }

  lemma IndexStep(s: System, e: Event, i: nat)
    requires Bounded(s) && Tended(s, i) && Step(s, e).Success?
    ensures Tended(Step(s, e).value, i)
    ensures s.markets[i].cumBorrowIndex <= Step(s, e).value.markets[i].cumBorrowIndex
  {
    hide Step, FundingRatePerHour, Current, FundingCharged;
    TendedStep(s, e, i);
    var (m, m') := (s.markets[i], Step(s, e).value.markets[i]);
    if m.borrowIntegralInitialized {
      StepExact(s, e, i);
      PoolStep(s, e);
      IntegralGrows(Utilization(s.pool), Step(s, e).value.pool.utilizationLastTs - s.pool.utilizationLastTs);
      IntegralGrows(m.borrowRatePerHour, m'.borrowUtilizationCheckpoint - m.borrowUtilizationCheckpoint);
    }
  }

  lemma IntegralGrows(level: int, time: int)
    ensures 0 <= level && 0 <= time ==> 0 <= level * time
  {
  }

  /** The borrow index never falls, so an entry taken earlier is never ahead of it. */
  lemma {:induction false} IndexNeverFalls(s: System, events: seq<Event>, k: nat, i: nat)
    requires Bounded(s) && Sane(events, s.markets.Keys, s.pool.reservedQuote) && i in s.markets && k <= |events|
    requires Tended(s, i)
    ensures Run(s, events).Success? && Run(s, events[..k]).Success?
    ensures Bounded(Run(s, events).value) && Bounded(Run(s, events[..k]).value)
    ensures i in Run(s, events[..k]).value.markets && Tended(Run(s, events).value, i)
    ensures Run(s, events[..k]).value.markets[i].cumBorrowIndex <= Run(s, events).value.markets[i].cumBorrowIndex
  {
    hide Step, Bounded, Tended;
    NothingFreezes(s, events);
    if k == |events| {
      assert events[..k] == events;
      TendedRun(s, events, i);
    } else {
      var (before, e) := (events[..|events| - 1], events[|events| - 1]);
      assert before[..k] == events[..k];
      IndexNeverFalls(s, before, k, i);
      IndexStep(Run(s, before).value, e, i);
    }
  }

  /**
   * A position opened at any point of a sane history can be billed at every later one: its borrow and its funding are
   * both computable, up to 2 to the 80 micro-dollars of notional.
   */
  lemma ClosesAlwaysBilled(s: System, events: seq<Event>, k: nat, i: nat, side: Side, notional: u128)
    requires Bounded(s) && Sane(events, s.markets.Keys, s.pool.reservedQuote) && i in s.markets && k <= |events|
    requires Tended(s, i) && notional <= LARGEST_NOTIONAL
    ensures Run(s, events).Success? && Run(s, events[..k]).Success?
    ensures i in Run(s, events).value.markets && i in Run(s, events[..k]).value.markets
    ensures var (m0, m) := (Run(s, events[..k]).value.markets[i], Run(s, events).value.markets[i]);
            && BorrowOwed(notional, m.cumBorrowIndex, m0.cumBorrowIndex).Success?
            && FundingOwedSigned(side, notional, m.cumFundingIndex, m0.cumFundingIndex).Success?
  {
    hide Run, Step, Sane, PoolBounded, MarketBounded, BorrowOwed, FundingOwedSigned;
    IndexNeverFalls(s, events, k, i);
    var (s0, s1) := (Run(s, events[..k]).value, Run(s, events).value);
    IndicesBounded(s0.markets[i], s0.pool);
    IndicesBounded(s1.markets[i], s1.pool);
    BillsExist(side, notional, s1.markets[i].cumBorrowIndex, s0.markets[i].cumBorrowIndex,
               s1.markets[i].cumFundingIndex, s0.markets[i].cumFundingIndex);
  }
}

/**
 * Whole histories of a pool and its markets: what is charged depends on the exposure
 * and on the high-water clock, never on who settled, when or how often.
 */
module AccrualRuns {
  import opened Numbers
  import opened Nonlinear
  import opened WideMath
  import opened Position
  import opened Funding
  import opened Accrual

  datatype System = System(pool: PoolState, markets: map<nat, MarketState>)

  datatype Rates = Rates(borrowRatePerHour: u128, fundingSensitivity: u128, fundingCapPerHour: u128,
                         maxSettleWindowSeconds: u32, minSettleIntervalSeconds: u32)

  /** Every event carries the clock reading it ran under; readings may go backwards. */
  datatype Event =
    | Checkpoint(now: i64)
    | Settle(market: nat, now: i64)
    | Retune(market: nat, now: i64, rates: Rates)
    /** A position change: the market accrues, then its book and the pool's exposure take new values. */
    | Trade(market: nat, now: i64, book: Book, locked: u64, reserved: u64, deposited: u64)
    /** A liquidity or fee flow: the pool checkpoints, then its equity takes a new value. */
    | Flow(now: i64, deposited: u64)

  /** One percent an hour, the ceiling on both rates. */
  const MAX_RATE_PER_HOUR: int := 10_000_000
  const MAX_FUNDING_SENSITIVITY: int := RATE_SCALE
  /** Seven days. */
  const MAX_SETTLE_WINDOW_SECONDS: int := 604_800

  /** The ceilings a retune must respect. */
  function CheckRates(r: Rates): Check<PerpsError> {
    if r.maxSettleWindowSeconds == 0 then Fail(InvalidRiskParameters)
    else if r.maxSettleWindowSeconds > MAX_SETTLE_WINDOW_SECONDS then Fail(SettleWindowTooLong)
    else if r.borrowRatePerHour > MAX_RATE_PER_HOUR then Fail(BorrowRateTooHigh)
    else if r.fundingCapPerHour > MAX_RATE_PER_HOUR then Fail(FundingRateTooHigh)
    else Need(r.fundingSensitivity <= MAX_FUNDING_SENSITIVITY, FundingSensitivityTooHigh)
  }

  function Step(s: System, e: Event): Result<System, PerpsError> {
    match e
    case Checkpoint(now) =>
      var checkpointed :- Checkpointed(s.pool, now);
      Success(s.(pool := checkpointed.0))
    case Settle(i, now) =>
      :- Need(i in s.markets, UnknownMarket);
      var accrued :- Accrued(s.markets[i], s.pool, now);
      Success(System(accrued.1, s.markets[i := accrued.0]))
    case Retune(i, now, rates) =>
      :- CheckRates(rates);
      :- Need(i in s.markets, UnknownMarket);
      var accrued :- Accrued(s.markets[i], s.pool, now);
      var m := accrued.0.(borrowRatePerHour := rates.borrowRatePerHour,
                          fundingSensitivity := rates.fundingSensitivity, fundingCapPerHour := rates.fundingCapPerHour,
                          maxSettleWindowSeconds := rates.maxSettleWindowSeconds,
                          minSettleIntervalSeconds := rates.minSettleIntervalSeconds);
      var m :- Sampled(m, m.lastSettleTs);
      Success(System(accrued.1, s.markets[i := m]))
    case Trade(i, now, book, locked, reserved, deposited) =>
      :- Need(i in s.markets, UnknownMarket);
      var accrued :- Accrued(s.markets[i], s.pool, now);
      var m :- SampledAfterBookChange(accrued.0.(book := book));
      Success(System(accrued.1.(lockedQuote := locked, reservedQuote := reserved, quoteDeposited := deposited),
                     s.markets[i := m]))
    case Flow(now, deposited) =>
      var checkpointed :- Checkpointed(s.pool, now);
      Success(s.(pool := checkpointed.0.(quoteDeposited := deposited)))
  }

  function Run(s: System, events: seq<Event>): Result<System, PerpsError> {
    if events == [] then
      Success(s)
    else
      var before :- Run(s, events[..|events| - 1]);
      Step(before, events[|events| - 1])
  }

  // ---- What a market has been charged ----

  function BorrowCharged(m: MarketState): int {
    BORROW_DENOMINATOR * m.cumBorrowIndex + m.borrowRemainderCarry
  }

  function FundingCharged(m: MarketState): int {
    SECONDS_PER_HOUR * m.cumFundingIndex + m.fundingRemainderCarry
  }

  function Utilization(p: PoolState): int {
    UtilizationOf(p.reservedQuote, p.quoteDeposited)
  }

  function UtilizationOf(reserved: u64, deposited: u64): int {
    if deposited == 0 then 0 else reserved * BPS_DENOMINATOR / deposited
  }

  /** A migrated market of an initialised pool, with both carries canonical. */
  predicate Live(s: System, i: nat) {
    && s.pool.utilizationInitialized
    && i in s.markets
    && s.markets[i].borrowIntegralInitialized
    && s.markets[i].borrowRemainderCarry < BORROW_DENOMINATOR
    && 0 <= s.markets[i].fundingRemainderCarry < SECONDS_PER_HOUR
  }

  lemma CheckpointExact(p: PoolState, now: i64)
    requires p.utilizationInitialized && Checkpointed(p, now).Success?
    ensures var (p', migrated) := Checkpointed(p, now).value;
            && migrated
            && p'.utilizationLastTs == Max(p.utilizationLastTs, now)
            && p'.utilizationIntegral == p.utilizationIntegral
                + Utilization(p) * (p'.utilizationLastTs - p.utilizationLastTs)
            && p' == p.(utilizationIntegral := p'.utilizationIntegral, utilizationLastTs := p'.utilizationLastTs)
  {
  }

  /** One settlement charges exactly the unconsumed integral, and exactly the unsettled time. */
  lemma SettledExact(m: MarketState, p: PoolState, now: i64)
    requires m.borrowIntegralInitialized && Settled(m, p, true, now).Success?
    requires m.borrowRemainderCarry < BORROW_DENOMINATOR && 0 <= m.fundingRemainderCarry < SECONDS_PER_HOUR
    ensures var m' := Settled(m, p, true, now).value.0;
            && m'.lastSettleTs == Max(m.lastSettleTs, now)
            && m'.borrowUtilizationCheckpoint == p.utilizationIntegral
            && BorrowCharged(m') == BorrowCharged(m)
               + m.borrowRatePerHour * (p.utilizationIntegral - m.borrowUtilizationCheckpoint)
            && FundingCharged(m') == FundingCharged(m)
               + m.sampledFundingRatePerHour * (m'.lastSettleTs - m.lastSettleTs)
            && m'.borrowIntegralInitialized
            && m'.borrowRemainderCarry < BORROW_DENOMINATOR && 0 <= m'.fundingRemainderCarry < SECONDS_PER_HOUR
            && m'.borrowRatePerHour == m.borrowRatePerHour
  {
    if Settled(m, p, true, now).value.1.Some? {
      var dt: u64 := Max(now - m.lastSettleTs, 0);
      var m1 := BorrowAccrued(m, p, true, dt).value;
      BorrowStepExact(m.borrowRatePerHour, p.utilizationIntegral - m.borrowUtilizationCheckpoint,
                      m.borrowRemainderCarry);
      FundingStepExact(m1.sampledFundingRatePerHour, dt, m1.fundingRemainderCarry);
      ChargedFrame(m, p, dt, now);
    }
  }

  /** A settlement through the pool: checkpoint, then charge at the high-water time. */
  lemma AccruedExact(m: MarketState, p: PoolState, clock: i64)
    requires p.utilizationInitialized && m.borrowIntegralInitialized && Accrued(m, p, clock).Success?
    requires m.borrowRemainderCarry < BORROW_DENOMINATOR && 0 <= m.fundingRemainderCarry < SECONDS_PER_HOUR
    ensures Checkpointed(p, clock).Success?
    ensures var (m', p', _) := Accrued(m, p, clock).value;
            && p' == Checkpointed(p, clock).value.0
            && p'.utilizationLastTs == Max(p.utilizationLastTs, clock)
            && Settled(m, p', true, p'.utilizationLastTs).Success?
            && m' == Settled(m, p', true, p'.utilizationLastTs).value.0
            && m'.lastSettleTs == Max(m.lastSettleTs, p'.utilizationLastTs)
            && m'.borrowUtilizationCheckpoint == p'.utilizationIntegral
            && BorrowCharged(m') == BorrowCharged(m)
               + m.borrowRatePerHour * (p'.utilizationIntegral - m.borrowUtilizationCheckpoint)
            && FundingCharged(m') == FundingCharged(m)
               + m.sampledFundingRatePerHour * (m'.lastSettleTs - m.lastSettleTs)
            && m'.borrowIntegralInitialized
            && m'.borrowRemainderCarry < BORROW_DENOMINATOR && 0 <= m'.fundingRemainderCarry < SECONDS_PER_HOUR
            && m'.borrowRatePerHour == m.borrowRatePerHour
  {
    hide Settled;
    CheckpointExact(p, clock);
    SettledExact(m, Checkpointed(p, clock).value.0, Max(p.utilizationLastTs, clock));
  }

  lemma ChargedFrame(m: MarketState, p: PoolState, dt: u64, now: i64)
    requires Charged(m, p, true, dt, now).Success?
    ensures var m1 := BorrowAccrued(m, p, true, dt);
            && m1.Success?
            && var m2 := FundingAccrued(m1.value, true, dt);
               && m2.Success?
               && var m' := Charged(m, p, true, dt, now).value;
                  && m' == m2.value.(sampledFundingRatePerHour := m'.sampledFundingRatePerHour,
                                     lastRateSampleTs := m'.lastRateSampleTs,
                                     lastSettleTs := Max(m.lastSettleTs, now))
                  && (m'.sampledFundingRatePerHour == m.sampledFundingRatePerHour
                      || Success(m'.sampledFundingRatePerHour) == BookRate(m))
  {
  }

  /** The funding rate a market's book calls for now. */
  function BookRate(m: MarketState): Result<i128, PerpsError> {
    Mapped(FundingRatePerHour(m.book.longOiUsd, m.book.shortOiUsd, m.fundingSensitivity, m.fundingCapPerHour))
  }

  /** What one event does to the pool: the old utilisation is charged up to the new high-water mark. */
  lemma PoolStep(s: System, e: Event)
    requires s.pool.utilizationInitialized && Step(s, e).Success?
    ensures var (p, p') := (s.pool, Step(s, e).value.pool);
            && p'.utilizationInitialized
            && p'.utilizationLastTs == Max(p.utilizationLastTs, e.now)
            && p'.utilizationIntegral == p.utilizationIntegral
                + Utilization(p) * (p'.utilizationLastTs - p.utilizationLastTs)
            && p'.reservedQuote == (if e.Trade? then e.reserved else p.reservedQuote)
            && Utilization(p') == (if e.Trade? || e.Flow? then UtilizationOf(p'.reservedQuote, e.deposited)
                                   else Utilization(p))
  {
    hide Settled;
    CheckpointExact(s.pool, e.now);
  }

  predicate Touches(e: Event, i: nat) {
    !e.Checkpoint? && !e.Flow? && e.market == i
  }

  /** Every event advances each live market's charges by its rates over what it newly consumed. */
  lemma StepExact(s: System, e: Event, i: nat)
    requires Live(s, i) && Step(s, e).Success?
    ensures var s' := Step(s, e).value;
            && Live(s', i)
            && var (m, m') := (s.markets[i], s'.markets[i]);
               && BorrowCharged(m') == BorrowCharged(m)
                  + m.borrowRatePerHour * (m'.borrowUtilizationCheckpoint - m.borrowUtilizationCheckpoint)
               && FundingCharged(m') == FundingCharged(m)
                  + m.sampledFundingRatePerHour * (m'.lastSettleTs - m.lastSettleTs)
               && (!(e.Retune? && e.market == i) ==> m'.borrowRatePerHour == m.borrowRatePerHour)
               && (Touches(e, i) ==> m'.lastSettleTs == Max(m.lastSettleTs, s'.pool.utilizationLastTs)
                                     && m'.borrowUtilizationCheckpoint == s'.pool.utilizationIntegral)
               && (!Touches(e, i) ==> m' == m)
  {
    hide Accrued, Checkpointed;
    if Touches(e, i) {
      AccruedExact(s.markets[i], s.pool, e.now);
      CheckpointExact(s.pool, e.now);
    } else {
      PoolStep(s, e);
    }
  }

  // ---- The pool's integral is the area under its utilisation ----

  datatype Segment = Segment(start: int, level: int)

  function HighWater(start: int, events: seq<Event>): int {
    if events == [] then start else Max(HighWater(start, events[..|events| - 1]), events[|events| - 1].now)
  }

  function ReservedAfter(reserved: u64, events: seq<Event>): u64 {
    if events == [] then reserved
    else if events[|events| - 1].Trade? then events[|events| - 1].reserved
    else ReservedAfter(reserved, events[..|events| - 1])
  }

  /**
   * The exposure history alone: from which high-water time each utilisation held.
   * Checkpoints, settlements and retunes leave no mark.
   */
  function Timeline(p: PoolState, events: seq<Event>): (t: seq<Segment>)
    ensures 0 < |t|
  {
    if events == [] then
      [Segment(p.utilizationLastTs, Utilization(p))]
    else
      var (before, e) := (events[..|events| - 1], events[|events| - 1]);
      if e.Trade? || e.Flow? then
        Timeline(p, before)
        + [Segment(HighWater(p.utilizationLastTs, events),
                   UtilizationOf(ReservedAfter(p.reservedQuote, events), e.deposited))]
      else
        Timeline(p, before)
  }

  /** The area under a timeline up to a given time. */
  function Area(t: seq<Segment>, until: int): int
  {
    if t == [] then 0
    else
      var last := t[|t| - 1];
      Area(t[..|t| - 1], last.start) + last.level * (until - last.start)
  }

  lemma Telescope(rate: int, a: int, b: int, c: int)
    ensures rate * (b - a) + rate * (c - b) == rate * (c - a)
  {
  }

  lemma AreaExtends(t: seq<Segment>, until: int, later: int)
    requires 0 < |t|
    ensures Area(t, later) == Area(t, until) + t[|t| - 1].level * (later - until)
  {
    var last := t[|t| - 1];
    Telescope(last.level, last.start, until, later);
  }

  lemma AreaSnoc(t: seq<Segment>, s: Segment)
    ensures Area(t + [s], s.start) == Area(t, s.start)
  {
    assert (t + [s])[..|t|] == t;
  }

  /** No interval of the high-water clock is skipped or counted twice. */
  lemma {:induction false} IntegralIsArea(s: System, events: seq<Event>)
    requires s.pool.utilizationInitialized && Run(s, events).Success?
    ensures var (p, t, hw) := (Run(s, events).value.pool, Timeline(s.pool, events),
                               HighWater(s.pool.utilizationLastTs, events));
            && p.utilizationInitialized
            && p.utilizationLastTs == hw
            && p.utilizationIntegral == s.pool.utilizationIntegral + Area(t, hw)
            && p.reservedQuote == ReservedAfter(s.pool.reservedQuote, events)
            && Utilization(p) == t[|t| - 1].level
  {
    hide Step;
    if events == [] {
      assert Area(Timeline(s.pool, events), s.pool.utilizationLastTs) == 0;
    } else {
      var (before, e) := (events[..|events| - 1], events[|events| - 1]);
      IntegralIsArea(s, before);
      PoolStep(Run(s, before).value, e);
      var (t0, hw0, hw) := (Timeline(s.pool, before), HighWater(s.pool.utilizationLastTs, before),
                            HighWater(s.pool.utilizationLastTs, events));
      AreaExtends(t0, hw0, hw);
      if e.Trade? || e.Flow? {
        var t := Timeline(s.pool, events);
        AreaSnoc(t0, t[|t| - 1]);
      }
    }
  }

  // ---- Borrow ----

  predicate RateFixed(events: seq<Event>, i: nat) {
    forall k :: 0 <= k < |events| && events[k].Retune? ==> events[k].market != i
  }

  /** At a fixed rate the whole run charges the rate times the integral consumed, to the last fraction. */
  lemma {:induction false} BorrowIsRateTimesIntegral(s: System, events: seq<Event>, i: nat)
    requires Live(s, i) && Run(s, events).Success? && RateFixed(events, i)
    ensures Live(Run(s, events).value, i)
    ensures var (m, m') := (s.markets[i], Run(s, events).value.markets[i]);
            && m'.borrowRatePerHour == m.borrowRatePerHour
            && BorrowCharged(m') == BorrowCharged(m)
               + m.borrowRatePerHour * (m'.borrowUtilizationCheckpoint - m.borrowUtilizationCheckpoint)
  {
    hide Step;
    if events != [] {
      var before := events[..|events| - 1];
      BorrowIsRateTimesIntegral(s, before, i);
      var mid := Run(s, before).value;
      StepExact(mid, events[|events| - 1], i);
      var (m, m1, m') := (s.markets[i], mid.markets[i], Run(s, events).value.markets[i]);
      var rate := m.borrowRatePerHour;
      Telescope(rate, m.borrowUtilizationCheckpoint, m1.borrowUtilizationCheckpoint, m'.borrowUtilizationCheckpoint);
    }
  }

  /** The run's last event settled market `i`. */
  predicate EndsSettled(events: seq<Event>, i: nat) {
    events != [] && Touches(events[|events| - 1], i)
  }

  lemma SettledRunCharge(s: System, events: seq<Event>, i: nat)
    requires Live(s, i) && Run(s, events).Success? && RateFixed(events, i) && EndsSettled(events, i)
    ensures Live(Run(s, events).value, i)
    ensures var m := s.markets[i];
            BorrowCharged(Run(s, events).value.markets[i]) == BorrowCharged(m)
            + m.borrowRatePerHour * (s.pool.utilizationIntegral
                                     + Area(Timeline(s.pool, events), HighWater(s.pool.utilizationLastTs, events))
                                     - m.borrowUtilizationCheckpoint)
  {
    hide Step;
    BorrowIsRateTimesIntegral(s, events, i);
    IntegralIsArea(s, events);
    var before := events[..|events| - 1];
    BorrowIsRateTimesIntegral(s, before, i);
    StepExact(Run(s, before).value, events[|events| - 1], i);
  }

  /** Extra checkpoints and settlements whose clock does not run ahead leave no mark on the history. */
  lemma {:induction false} InsertionIsInvisible(p: PoolState, before: seq<Event>, e: Event, after: seq<Event>)
    requires e.Checkpoint? || e.Settle?
    requires e.now <= HighWater(p.utilizationLastTs, before + after[..Min(1, |after|)])
    ensures HighWater(p.utilizationLastTs, before + [e] + after) == HighWater(p.utilizationLastTs, before + after)
    ensures Timeline(p, before + [e] + after) == Timeline(p, before + after)
    ensures ReservedAfter(p.reservedQuote, before + [e] + after) == ReservedAfter(p.reservedQuote, before + after)
    decreases |after|
  {
    assert (before + [e])[..|before|] == before;
    if after == [] {
      assert before + [e] + after == before + [e] && before + after == before;
      assert before + after[..0] == before;
    } else {
      var (init, last) := (after[..|after| - 1], after[|after| - 1]);
      var (with, without) := (before + [e] + after, before + after);
      assert with[..|with| - 1] == before + [e] + init && without[..|without| - 1] == before + init;
      if |after| == 1 {
        assert init == [] && before + after[..1] == without;
        assert before + [e] + init == before + [e] && before + init == before;
      } else {
        assert init[..1] == after[..1];
        InsertionIsInvisible(p, before, e, init);
      }
    }
  }

  // ---- Funding ----

  /** The signed area of the sampled rate over the market's own settled time. */
  function FundingArea(s: System, events: seq<Event>, i: nat): int
    requires Live(s, i) && Run(s, events).Success?
    decreases |events|
  {
    if events == [] then 0
    else
      var before := events[..|events| - 1];
      LiveThroughout(s, before, i);
      LiveThroughout(s, events, i);
      var (m, m') := (Run(s, before).value.markets[i], Run(s, events).value.markets[i]);
      FundingArea(s, before, i) + m.sampledFundingRatePerHour * (m'.lastSettleTs - m.lastSettleTs)
  }

  lemma {:induction false} LiveThroughout(s: System, events: seq<Event>, i: nat)
    requires Live(s, i) && Run(s, events).Success?
    ensures Live(Run(s, events).value, i)
  {
    hide Step;
    if events != [] {
      LiveThroughout(s, events[..|events| - 1], i);
      StepExact(Run(s, events[..|events| - 1]).value, events[|events| - 1], i);
    }
  }

  /** Index and carry together are the exact integral of the sampled rate, across sign changes and retunes. */
  lemma {:induction false} FundingIsExactIntegral(s: System, events: seq<Event>, i: nat)
    requires Live(s, i) && Run(s, events).Success?
    ensures Live(Run(s, events).value, i)
    ensures FundingCharged(Run(s, events).value.markets[i]) == FundingCharged(s.markets[i]) + FundingArea(s, events, i)
  {
    hide Step;
    LiveThroughout(s, events, i);
    if events != [] {
      var before := events[..|events| - 1];
      LiveThroughout(s, before, i);
      FundingIsExactIntegral(s, before, i);
      StepExact(Run(s, before).value, events[|events| - 1], i);
    }
  }

  predicate BookSteady(events: seq<Event>, i: nat) {
    forall k :: 0 <= k < |events| && Touches(events[k], i) ==> events[k].Settle?
  }

  // ---- What a position is charged ----

  /**
   * A position opened on a settled market owes its notional times the rate times the exposure it saw,
   * to within one index unit of its notional and one micro-dollar.
   */
  lemma BorrowOwedTracksExposure(s: System, events: seq<Event>, i: nat, notional: u128)
    requires Live(s, i) && Run(s, events).Success? && RateFixed(events, i) && EndsSettled(events, i)
    requires s.markets[i].borrowUtilizationCheckpoint == s.pool.utilizationIntegral
    requires Live(Run(s, events).value, i)
    requires BorrowOwed(notional, Run(s, events).value.markets[i].cumBorrowIndex, s.markets[i].cumBorrowIndex).Success?
    ensures var owed := BorrowOwed(notional, Run(s, events).value.markets[i].cumBorrowIndex,
                                   s.markets[i].cumBorrowIndex).value;
            var area := Area(Timeline(s.pool, events), HighWater(s.pool.utilizationLastTs, events));
            var exact := notional * (s.markets[i].borrowRatePerHour * area);
            exact - notional * BORROW_DENOMINATOR <= owed * (BORROW_DENOMINATOR * RATE_SCALE)
            <= exact + notional * BORROW_DENOMINATOR + BORROW_DENOMINATOR * RATE_SCALE
  {
    hide Step, Timeline, HighWater, Area, BorrowOwed;
    SettledRunCharge(s, events, i);
    var (m, m') := (s.markets[i], Run(s, events).value.markets[i]);
    BorrowOwedIsCeil(notional, m'.cumBorrowIndex, m.cumBorrowIndex);
    var area := Area(Timeline(s.pool, events), HighWater(s.pool.utilizationLastTs, events));
    IndexWithinOne(m.borrowRatePerHour * area, m'.cumBorrowIndex - m.cumBorrowIndex,
                   m'.borrowRemainderCarry - m.borrowRemainderCarry,
                   notional, BorrowOwed(notional, m'.cumBorrowIndex, m.cumBorrowIndex).value);
  }

  lemma IndexWithinOne(charge: int, delta: int, carried: int, notional: nat, owed: int)
    requires BORROW_DENOMINATOR * delta + carried == charge && -BORROW_DENOMINATOR < carried < BORROW_DENOMINATOR
    requires owed == CeilDiv(notional * delta, RATE_SCALE)
    ensures notional * charge - notional * BORROW_DENOMINATOR <= owed * (BORROW_DENOMINATOR * RATE_SCALE)
            <= notional * charge + notional * BORROW_DENOMINATOR + BORROW_DENOMINATOR * RATE_SCALE
  {
    CeilDivBounds(notional * delta, RATE_SCALE);
    MulMono(carried, BORROW_DENOMINATOR, notional);
    MulMono(-BORROW_DENOMINATOR, carried, notional);
    assert notional * charge == BORROW_DENOMINATOR * (notional * delta) + notional * carried;
  }
}

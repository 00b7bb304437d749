/**
 * Borrow and funding across trades and retunes: what a market is charged is the area under a rate history
 * that the exposure events alone determine.
 */
module AccrualTimelines {
  import opened Numbers
  import opened Position
  import opened Funding
  import opened Accrual
  import opened AccrualRuns

  // ---- The market's terms, read from the events ----

  function RatesOf(m: MarketState): Rates {
    Rates(m.borrowRatePerHour, m.fundingSensitivity, m.fundingCapPerHour, m.maxSettleWindowSeconds,
          m.minSettleIntervalSeconds)
  }

  function BookAfter(book: Book, events: seq<Event>, i: nat): Book {
    if events == [] then book
    else
      var last := events[|events| - 1];
      if last.Trade? && last.market == i then last.book else BookAfter(book, events[..|events| - 1], i)
  }

  function RatesAfter(rates: Rates, events: seq<Event>, i: nat): Rates {
    if events == [] then rates
    else
      var last := events[|events| - 1];
      if last.Retune? && last.market == i then last.rates else RatesAfter(rates, events[..|events| - 1], i)
  }

  /** The funding rate a book calls for; zero where none is defined, which no successful event leaves behind. */
  function RateFor(book: Book, rates: Rates): int {
    var rate := FundingRatePerHour(book.longOiUsd, book.shortOiUsd, rates.fundingSensitivity, rates.fundingCapPerHour);
    if rate.Success? then rate.value else 0
  }

  /** The sampled rate is the one the market's own book calls for. */
  predicate Current(m: MarketState) {
    BookRate(m) == Success(m.sampledFundingRatePerHour)
  }

  predicate Reprices(e: Event, i: nat) {
    (e.Trade? || e.Retune?) && e.market == i
  }

  // ---- Timelines of the events alone ----

  /** The funding rates of market `i`, each from the settlement time of the trade or retune that brought it. */
  function RateTimeline(s: System, events: seq<Event>, i: nat): (t: seq<Segment>)
    requires i in s.markets
    ensures 0 < |t|
  {
    var m := s.markets[i];
    if events == [] then
      [Segment(m.lastSettleTs, m.sampledFundingRatePerHour)]
    else if Reprices(events[|events| - 1], i) then
      RateTimeline(s, events[..|events| - 1], i)
      + [Segment(Max(m.lastSettleTs, HighWater(s.pool.utilizationLastTs, events)),
                 RateFor(BookAfter(m.book, events, i), RatesAfter(RatesOf(m), events, i)))]
    else
      RateTimeline(s, events[..|events| - 1], i)
  }

  /** How fast borrow is owed: the market's rate times the pool's utilisation. */
  function BorrowLevel(m: MarketState, p: PoolState): int {
    m.borrowRatePerHour * Utilization(p)
  }

  /** The borrow levels of market `i`, each from the high-water time of its change. */
  function BorrowTimeline(s: System, events: seq<Event>, i: nat): (t: seq<Segment>)
    requires i in s.markets
    ensures 0 < |t|
  {
    var (m, p) := (s.markets[i], s.pool);
    if events == [] then
      [Segment(p.utilizationLastTs, BorrowLevel(m, p))]
    else
      var last := events[|events| - 1];
      if last.Trade? || last.Flow? || Reprices(last, i) then
        BorrowTimeline(s, events[..|events| - 1], i)
        + [Segment(HighWater(p.utilizationLastTs, events),
                   RatesAfter(RatesOf(m), events, i).borrowRatePerHour * Now(Timeline(p, events)))]
      else
        BorrowTimeline(s, events[..|events| - 1], i)
  }

  /** The level a timeline ends on. */
  function Now(t: seq<Segment>): int
    requires 0 < |t|
  {
    t[|t| - 1].level
  }

  // ---- One event ----

  /** A settlement touches neither book nor parameters, and resamples only the rate the book calls for. */
  lemma SettledFrame(m: MarketState, p: PoolState, now: i64)
    requires m.borrowIntegralInitialized && Settled(m, p, true, now).Success?
    ensures var m' := Settled(m, p, true, now).value.0;
            && m'.book == m.book && RatesOf(m') == RatesOf(m)
            && (Current(m) ==> Current(m'))
  {
    var settled := Settled(m, p, true, now).value;
    if settled.1.Some? {
      ChargedFrame(m, p, settled.1.value, now);
    }
  }

  lemma TermsStep(s: System, e: Event, i: nat)
    requires Live(s, i) && Step(s, e).Success?
    ensures Live(Step(s, e).value, i)
    ensures var (m, m') := (s.markets[i], Step(s, e).value.markets[i]);
            && m'.book == BookAfter(m.book, [e], i)
            && RatesOf(m') == RatesAfter(RatesOf(m), [e], i)
            && (Current(m) ==> Current(m'))
  {
    hide Settled, Checkpointed;
    StepExact(s, e, i);
    assert [e][..0] == [];
    if Touches(e, i) {
      AccruedExact(s.markets[i], s.pool, e.now);
      var p := Checkpointed(s.pool, e.now).value.0;
      SettledFrame(s.markets[i], p, p.utilizationLastTs);
    }
  }

  lemma {:induction false} TermsRun(s: System, events: seq<Event>, i: nat)
    requires Live(s, i) && Run(s, events).Success?
    ensures Live(Run(s, events).value, i)
    ensures var (m, m') := (s.markets[i], Run(s, events).value.markets[i]);
            && m'.book == BookAfter(m.book, events, i)
            && RatesOf(m') == RatesAfter(RatesOf(m), events, i)
            && (Current(m) ==> Current(m'))
  {
    hide Step, Current;
    if events != [] {
      var (before, e) := (events[..|events| - 1], events[|events| - 1]);
      TermsRun(s, before, i);
      TermsStep(Run(s, before).value, e, i);
      assert [e][..0] == [];
    }
  }

  // ---- Funding ----

  /** While the sample is current, every trade and retune included, funding is the area under the rate timeline. */
  lemma {:induction false} FundingIsRateArea(s: System, events: seq<Event>, i: nat)
    requires Live(s, i) && Run(s, events).Success? && Current(s.markets[i])
    ensures Live(Run(s, events).value, i)
    ensures var (m, m', t) := (s.markets[i], Run(s, events).value.markets[i], RateTimeline(s, events, i));
            && m'.sampledFundingRatePerHour == Now(t)
            && FundingCharged(m') == FundingCharged(m) + Area(t, m'.lastSettleTs)
            && m.lastSettleTs <= m'.lastSettleTs <= Max(m.lastSettleTs, HighWater(s.pool.utilizationLastTs, events))
            && (EndsSettled(events, i) ==>
                  m'.lastSettleTs == Max(m.lastSettleTs, HighWater(s.pool.utilizationLastTs, events)))
  {
    hide Step, Current, RateFor, BookAfter, RatesAfter, FundingCharged;
    if events == [] {
      assert Area([], s.markets[i].lastSettleTs) == 0;
    } else {
      var (before, e) := (events[..|events| - 1], events[|events| - 1]);
      FundingIsRateArea(s, before, i);
      var mid := Run(s, before).value;
      StepExact(mid, e, i);
      IntegralIsArea(s, events);
      FundingStep(s, events, i);
      var (t0, m1, m') := (RateTimeline(s, before, i), mid.markets[i], Run(s, events).value.markets[i]);
      AreaExtends(t0, m1.lastSettleTs, m'.lastSettleTs);
      if Reprices(e, i) {
        var t := RateTimeline(s, events, i);
        AreaSnoc(t0, t[|t| - 1]);
      }
    }
  }

  /** After each event the sample is the last rate of the timeline. */
  lemma FundingStep(s: System, events: seq<Event>, i: nat)
    requires Live(s, i) && events != [] && Run(s, events).Success? && Current(s.markets[i])
    ensures Live(Run(s, events).value, i)
    ensures var (m, m') := (s.markets[i], Run(s, events).value.markets[i]);
            m'.sampledFundingRatePerHour == RateFor(BookAfter(m.book, events, i), RatesAfter(RatesOf(m), events, i))
    ensures var before := events[..|events| - 1];
            && Live(Run(s, before).value, i)
            && (!Reprices(events[|events| - 1], i) ==>
                  Run(s, events).value.markets[i].sampledFundingRatePerHour
                  == Run(s, before).value.markets[i].sampledFundingRatePerHour)
  {
    hide Step, Current;
    var before := events[..|events| - 1];
    TermsRun(s, before, i);
    TermsRun(s, events, i);
    CurrentIsRate(Run(s, before).value.markets[i]);
    CurrentIsRate(Run(s, events).value.markets[i]);
  }

  lemma CurrentIsRate(m: MarketState)
    ensures Current(m) ==> m.sampledFundingRatePerHour == RateFor(m.book, RatesOf(m))
  {
  }

  /**
   * Two histories with one rate timeline and one final clock leave the same funding index and carry, trades and retunes
   * included.
   */
  lemma FundingIsCadenceFreeThroughout(s: System, one: seq<Event>, two: seq<Event>, i: nat)
    requires Live(s, i) && Run(s, one).Success? && Run(s, two).Success? && Current(s.markets[i])
    requires EndsSettled(one, i) && EndsSettled(two, i)
    requires RateTimeline(s, one, i) == RateTimeline(s, two, i)
    requires HighWater(s.pool.utilizationLastTs, one) == HighWater(s.pool.utilizationLastTs, two)
    ensures Live(Run(s, one).value, i) && Live(Run(s, two).value, i)
    ensures var (m1, m2) := (Run(s, one).value.markets[i], Run(s, two).value.markets[i]);
            m1.cumFundingIndex == m2.cumFundingIndex && m1.fundingRemainderCarry == m2.fundingRemainderCarry
  {
    hide Step, RateTimeline, HighWater, Current;
    FundingIsRateArea(s, one, i);
    FundingIsRateArea(s, two, i);
    var (m1, m2) := (Run(s, one).value.markets[i], Run(s, two).value.markets[i]);
    CarryIsCanonical(SECONDS_PER_HOUR, m1.cumFundingIndex, m1.fundingRemainderCarry, m2.cumFundingIndex,
                     m2.fundingRemainderCarry);
  }

  // ---- Borrow ----

  /** What is charged, and what the pool's integral already owes at the market's own rate. */
  function BorrowDue(m: MarketState, p: PoolState): int {
    BorrowCharged(m) + m.borrowRatePerHour * (p.utilizationIntegral - m.borrowUtilizationCheckpoint)
  }

  /**
   * Every event, the market's own or another's, adds the old rate over the old utilisation for the time that passed.
   */
  lemma BorrowDueStep(s: System, e: Event, i: nat)
    requires Live(s, i) && Step(s, e).Success?
    ensures Live(Step(s, e).value, i)
    ensures var s' := Step(s, e).value;
            BorrowDue(s'.markets[i], s'.pool) == BorrowDue(s.markets[i], s.pool)
              + BorrowLevel(s.markets[i], s.pool) * (s'.pool.utilizationLastTs - s.pool.utilizationLastTs)
  {
    hide Step, Utilization;
    StepExact(s, e, i);
    PoolStep(s, e);
    var (m, p) := (s.markets[i], s.pool);
    var (m', p') := (Step(s, e).value.markets[i], Step(s, e).value.pool);
    var gap := p'.utilizationLastTs - p.utilizationLastTs;
    DueGrows(m.borrowRatePerHour, m.borrowUtilizationCheckpoint, p.utilizationIntegral, p'.utilizationIntegral,
             Utilization(p), gap);
  }

  lemma DueGrows(rate: int, checkpoint: int, integral: int, later: int, level: int, gap: int)
    requires later == integral + level * gap
    ensures rate * (later - checkpoint) == rate * (integral - checkpoint) + rate * level * gap
  {
    Telescope(rate, checkpoint, integral, later);
    assert rate * (level * gap) == rate * level * gap;
  }

  /**
   * The borrow level in force is read from the events, and moves only with a trade, a flow or the market's own retune.
   */
  lemma BorrowLevelStep(s: System, events: seq<Event>, i: nat)
    requires Live(s, i) && events != [] && Run(s, events).Success?
    ensures Live(Run(s, events).value, i) && Live(Run(s, events[..|events| - 1]).value, i)
    ensures var (e, now, was) := (events[|events| - 1], Run(s, events).value, Run(s, events[..|events| - 1]).value);
            if e.Trade? || e.Flow? || Reprices(e, i)
            then BorrowLevel(now.markets[i], now.pool)
                 == RatesAfter(RatesOf(s.markets[i]), events, i).borrowRatePerHour * Now(Timeline(s.pool, events))
            else BorrowLevel(now.markets[i], now.pool) == BorrowLevel(was.markets[i], was.pool)
  {
    hide Step, Utilization, Current;
    var (before, e) := (events[..|events| - 1], events[|events| - 1]);
    TermsRun(s, events, i);
    TermsRun(s, before, i);
    IntegralIsArea(s, events);
    PoolStep(Run(s, before).value, e);
  }

  /** Borrow due is the area under rate times utilisation, through every retune, trade and flow. */
  lemma {:induction false} BorrowIsRateArea(s: System, events: seq<Event>, i: nat)
    requires Live(s, i) && Run(s, events).Success?
    ensures Live(Run(s, events).value, i)
    ensures var (s', t, hw) := (Run(s, events).value, BorrowTimeline(s, events, i),
                                HighWater(s.pool.utilizationLastTs, events));
            && s'.pool.utilizationLastTs == hw
            && BorrowLevel(s'.markets[i], s'.pool) == Now(t)
            && BorrowDue(s'.markets[i], s'.pool) == BorrowDue(s.markets[i], s.pool) + Area(t, hw)
  {
    hide Step, Utilization, BorrowDue, BorrowLevel, RatesAfter;
    IntegralIsArea(s, events);
    if events == [] {
      assert Area([], s.pool.utilizationLastTs) == 0;
    } else {
      var (before, e) := (events[..|events| - 1], events[|events| - 1]);
      BorrowIsRateArea(s, before, i);
      BorrowDueStep(Run(s, before).value, e, i);
      BorrowLevelStep(s, events, i);
      var (t0, hw0, hw) := (BorrowTimeline(s, before, i), HighWater(s.pool.utilizationLastTs, before),
                            HighWater(s.pool.utilizationLastTs, events));
      AreaExtends(t0, hw0, hw);
      if e.Trade? || e.Flow? || Reprices(e, i) {
        var t := BorrowTimeline(s, events, i);
        AreaSnoc(t0, t[|t| - 1]);
      }
    }
  }

  /** A market that has just settled has been charged all that is due. */
  lemma SettledOwesNothing(s: System, events: seq<Event>, i: nat)
    requires Live(s, i) && Run(s, events).Success? && EndsSettled(events, i)
    ensures Live(Run(s, events).value, i)
    ensures var s' := Run(s, events).value; BorrowDue(s'.markets[i], s'.pool) == BorrowCharged(s'.markets[i])
  {
    hide Step;
    var before := events[..|events| - 1];
    LiveThroughout(s, before, i);
    StepExact(Run(s, before).value, events[|events| - 1], i);
  }

  /**
   * Two histories with one borrow timeline and one final clock leave the same borrow index and carry, rate changes
   * included.
   */
  lemma BorrowIsCadenceFreeThroughout(s: System, one: seq<Event>, two: seq<Event>, i: nat)
    requires Live(s, i) && Run(s, one).Success? && Run(s, two).Success?
    requires EndsSettled(one, i) && EndsSettled(two, i)
    requires BorrowTimeline(s, one, i) == BorrowTimeline(s, two, i)
    requires HighWater(s.pool.utilizationLastTs, one) == HighWater(s.pool.utilizationLastTs, two)
    ensures Live(Run(s, one).value, i) && Live(Run(s, two).value, i)
    ensures var (m1, m2) := (Run(s, one).value.markets[i], Run(s, two).value.markets[i]);
            m1.cumBorrowIndex == m2.cumBorrowIndex && m1.borrowRemainderCarry == m2.borrowRemainderCarry
  {
    hide Step, BorrowTimeline, HighWater, BorrowDue;
    BorrowIsRateArea(s, one, i);
    BorrowIsRateArea(s, two, i);
    SettledOwesNothing(s, one, i);
    SettledOwesNothing(s, two, i);
    var (m1, m2) := (Run(s, one).value.markets[i], Run(s, two).value.markets[i]);
    CarryIsCanonical(BORROW_DENOMINATOR, m1.cumBorrowIndex, m1.borrowRemainderCarry, m2.cumBorrowIndex,
                     m2.borrowRemainderCarry);
  }

  // ---- Settlements leave no mark ----

  /** An extra checkpoint or settlement whose clock does not run ahead changes neither timeline. */
  lemma {:induction false} InsertionKeepsRates(s: System, before: seq<Event>, e: Event, after: seq<Event>, i: nat)
    requires i in s.markets && (e.Checkpoint? || e.Settle?)
    requires e.now <= HighWater(s.pool.utilizationLastTs, before + after[..Min(1, |after|)])
    ensures RateTimeline(s, before + [e] + after, i) == RateTimeline(s, before + after, i)
    ensures BorrowTimeline(s, before + [e] + after, i) == BorrowTimeline(s, before + after, i)
    decreases |after|
  {
    hide Timeline, HighWater, ReservedAfter, RateFor;
    InsertionIsInvisible(s.pool, before, e, after);
    InsertionKeepsTerms(s.markets[i], before, e, after, i);
    assert (before + [e])[..|before|] == before;
    if after == [] {
      assert before + [e] + after == before + [e] && before + after == before;
    } else {
      var init := after[..|after| - 1];
      var (with, without) := (before + [e] + after, before + after);
      assert with[..|with| - 1] == before + [e] + init && without[..|without| - 1] == before + init;
      if |after| == 1 {
        assert before + [e] + init == before + [e] && before + init == before;
      } else {
        assert init[..1] == after[..1];
        InsertionKeepsRates(s, before, e, init, i);
      }
    }
  }

  lemma {:induction false} InsertionKeepsTerms(m: MarketState, before: seq<Event>, e: Event, after: seq<Event>, i: nat)
    requires e.Checkpoint? || e.Settle?
    ensures BookAfter(m.book, before + [e] + after, i) == BookAfter(m.book, before + after, i)
    ensures RatesAfter(RatesOf(m), before + [e] + after, i) == RatesAfter(RatesOf(m), before + after, i)
    decreases |after|
  {
    assert (before + [e])[..|before|] == before;
    if after == [] {
      assert before + [e] + after == before + [e] && before + after == before;
    } else {
      var (with, without, init) := (before + [e] + after, before + after, after[..|after| - 1]);
      assert with[..|with| - 1] == before + [e] + init && without[..|without| - 1] == before + init;
      InsertionKeepsTerms(m, before, e, init, i);
    }
  }

  // ---- Steady books and fixed rates are the special cases ----

  lemma {:induction false} SteadyRateTimeline(s: System, events: seq<Event>, i: nat)
    requires i in s.markets && BookSteady(events, i)
    ensures RateTimeline(s, events, i) == [Segment(s.markets[i].lastSettleTs, s.markets[i].sampledFundingRatePerHour)]
  {
    if events != [] {
      SteadyRateTimeline(s, events[..|events| - 1], i);
    }
  }

  /** While the book and parameters stand still, funding is the one rate over all settled time. */
  lemma SteadyFunding(s: System, events: seq<Event>, i: nat)
    requires Live(s, i) && Run(s, events).Success? && Current(s.markets[i]) && BookSteady(events, i)
    ensures Live(Run(s, events).value, i)
    ensures var (m, m') := (s.markets[i], Run(s, events).value.markets[i]);
            && Current(m')
            && m'.sampledFundingRatePerHour == m.sampledFundingRatePerHour
            && FundingCharged(m') == FundingCharged(m)
                + m.sampledFundingRatePerHour * (m'.lastSettleTs - m.lastSettleTs)
            && m.lastSettleTs <= m'.lastSettleTs <= Max(m.lastSettleTs, HighWater(s.pool.utilizationLastTs, events))
            && (EndsSettled(events, i) ==>
                  m'.lastSettleTs == Max(m.lastSettleTs, HighWater(s.pool.utilizationLastTs, events)))
  {
    hide Step, Current, RateTimeline;
    TermsRun(s, events, i);
    FundingIsRateArea(s, events, i);
    SteadyRateTimeline(s, events, i);
    var t := RateTimeline(s, events, i);
    assert t[..0] == [];
  }

  /** Any settlement cadence over a steady book yields the same index and the same carry. */
  lemma FundingIsCadenceFree(s: System, one: seq<Event>, two: seq<Event>, i: nat)
    requires Live(s, i) && Run(s, one).Success? && Run(s, two).Success? && Current(s.markets[i])
    requires BookSteady(one, i) && BookSteady(two, i) && EndsSettled(one, i) && EndsSettled(two, i)
    requires HighWater(s.pool.utilizationLastTs, one) == HighWater(s.pool.utilizationLastTs, two)
    ensures Live(Run(s, one).value, i) && Live(Run(s, two).value, i)
    ensures var (m1, m2) := (Run(s, one).value.markets[i], Run(s, two).value.markets[i]);
            m1.cumFundingIndex == m2.cumFundingIndex && m1.fundingRemainderCarry == m2.fundingRemainderCarry
  {
    hide Step, RateTimeline, HighWater, Current;
    SteadyRateTimeline(s, one, i);
    SteadyRateTimeline(s, two, i);
    FundingIsCadenceFreeThroughout(s, one, two, i);
  }

  /** At a fixed rate the borrow timeline is the pool's own, scaled by the rate. */
  lemma {:induction false} FixedBorrowTimeline(s: System, events: seq<Event>, i: nat)
    requires i in s.markets && RateFixed(events, i)
    ensures var (b, t) := (BorrowTimeline(s, events, i), Timeline(s.pool, events));
            && |b| == |t|
            && (forall k :: 0 <= k < |t| ==> b[k] == Segment(t[k].start, s.markets[i].borrowRatePerHour * t[k].level))
            && RatesAfter(RatesOf(s.markets[i]), events, i) == RatesOf(s.markets[i])
  {
    hide HighWater, ReservedAfter, Utilization;
    if events != [] {
      FixedBorrowTimeline(s, events[..|events| - 1], i);
    }
  }

  /**
   * Two runs from one state with the same exposure history and the same final clock charge a market of fixed rate
   * the same borrow index and the same carry, however differently they were settled in between.
   */
  lemma BorrowIsCadenceFree(s: System, one: seq<Event>, two: seq<Event>, i: nat)
    requires Live(s, i) && Run(s, one).Success? && Run(s, two).Success?
    requires RateFixed(one, i) && RateFixed(two, i) && EndsSettled(one, i) && EndsSettled(two, i)
    requires Timeline(s.pool, one) == Timeline(s.pool, two)
    requires HighWater(s.pool.utilizationLastTs, one) == HighWater(s.pool.utilizationLastTs, two)
    ensures Live(Run(s, one).value, i) && Live(Run(s, two).value, i)
    ensures var (m1, m2) := (Run(s, one).value.markets[i], Run(s, two).value.markets[i]);
            m1.cumBorrowIndex == m2.cumBorrowIndex && m1.borrowRemainderCarry == m2.borrowRemainderCarry
  {
    hide Step, Timeline, BorrowTimeline, HighWater;
    FixedBorrowTimeline(s, one, i);
    FixedBorrowTimeline(s, two, i);
    assert BorrowTimeline(s, one, i) == BorrowTimeline(s, two, i);
    BorrowIsCadenceFreeThroughout(s, one, two, i);
  }

  // ---- What a position is charged ----

  /** Two histories that differ only in who settled, and when, bill every position of the market alike. */
  lemma BillsAreCadenceFree(s: System, one: seq<Event>, two: seq<Event>, i: nat, side: Side, notional: u128,
                            borrowEntry: u128, fundingEntry: i128)
    requires Live(s, i) && Run(s, one).Success? && Run(s, two).Success? && Current(s.markets[i])
    requires EndsSettled(one, i) && EndsSettled(two, i)
    requires RateTimeline(s, one, i) == RateTimeline(s, two, i)
        && BorrowTimeline(s, one, i) == BorrowTimeline(s, two, i)
    requires HighWater(s.pool.utilizationLastTs, one) == HighWater(s.pool.utilizationLastTs, two)
    ensures Live(Run(s, one).value, i) && Live(Run(s, two).value, i)
    ensures var (m1, m2) := (Run(s, one).value.markets[i], Run(s, two).value.markets[i]);
            && BorrowOwed(notional, m1.cumBorrowIndex, borrowEntry)
                == BorrowOwed(notional, m2.cumBorrowIndex, borrowEntry)
            && FundingOwedSigned(side, notional, m1.cumFundingIndex, fundingEntry)
               == FundingOwedSigned(side, notional, m2.cumFundingIndex, fundingEntry)
  {
    hide Step, BorrowOwed, FundingOwedSigned, RateTimeline, BorrowTimeline, HighWater, Current;
    BorrowIsCadenceFreeThroughout(s, one, two, i);
    FundingIsCadenceFreeThroughout(s, one, two, i);
  }
}

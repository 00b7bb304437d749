/**
 * Each room command by itself: exactly when a sound room accepts it, and exactly what it then moves. The checks the
 * invariant makes redundant do not appear.
 */
module RoomCommands {
  import opened Numbers
  import opened WideMath
  import opened Position
  import opened RoomModel
  import opened RoomKernel
  import opened RoomInvariant
  import opened RoomRuns
  import opened Sums

  // ---- Well-formed parameters ----

  predicate GoodPolicy(p: Policy) {
    && 0 < p.lossLimit <= p.contributionLimit
    && 0 < |p.allowedMarkets| && 0 < |p.allowedCells|
    && 0 < p.maxLeverageBps && 0 < p.maxPositionNotional <= p.maxTotalNotional && 0 < p.maxOpenPositions
    && p.maxFeeBps <= 10_000 && 0 < p.maxIntentLifetimeSlots
  }

  predicate GoodUnderwriting(p: UnderwritingPolicy) {
    && 0 < p.maxPositionNotional && 0 < p.maxLeverageBps && 0 < p.maxTotalReserved && p.minFeeBps <= 10_000
    && (forall i :: 0 <= i < |p.allowedMembers| ==> 0 < p.allowedMembers[i].generation)
    && (forall i :: 0 <= i < |p.allowedMarketGenerations| ==> 0 < p.allowedMarketGenerations[i].generation)
  }

  predicate GoodMarket(m: Market) {
    && 0 < m.generation && m.assetDecimals <= 18 && 0 < m.minPrice <= m.maxPrice
    && 0 < m.maxPositionLifetimeSlots && m.feeBps <= 10_000
  }

  lemma ParametersValidIff(p: Policy, u: UnderwritingPolicy, m: Market)
    ensures ValidatePolicy(p).Pass? <==> GoodPolicy(p)
    ensures ValidateUnderwriting(u).Pass? <==> GoodUnderwriting(u)
    ensures ValidateMarket(m).Pass? <==> GoodMarket(m)
  {
  }

  lemma MarketValidIff(m: Market)
    ensures ValidateMarket(m).Pass? <==> GoodMarket(m)
  {
  }

  lemma UnderwritingValidIff(u: UnderwritingPolicy)
    ensures ValidateUnderwriting(u).Pass? <==> GoodUnderwriting(u)
  {
  }

  lemma PolicyValidIff(p: Policy)
    ensures if GoodPolicy(p) then ValidatePolicy(p).Pass? else ValidatePolicy(p) == Fail(InvalidPolicy)
  {
  }

  // ---- Consent ----

  /** Who may trade for a member: its owner, or the one delegate it names. */
  predicate MayTrade(m: Member, actor: Actor) {
    match actor
    case Owner(owner) => owner == m.owner
    case Delegate(delegate) => m.delegate == Some(delegate)
  }

  predicate Consents(s: RoomState, actor: Actor, c: Consent) {
    && c.room == s.id && c.member in s.members
    && MayTrade(s.members[c.member], actor)
    && c.memberGeneration == s.members[c.member].generation && c.nonce == s.members[c.member].nextNonce
  }

  /** Consent is the member's own: for this room, this registration and the next trade, by someone who may trade. */
  lemma ConsentExact(s: RoomState, actor: Actor, c: Consent)
    ensures if Consents(s, actor, c) then ConsentMember(s, actor, c) == Success(s.members[c.member])
            else ConsentMember(s, actor, c).Failure?
  {
  }

  /** A quote is for the market's own generation, published in time and inside its band. */
  predicate Quotes(m: Market, q: Observation, now: int) {
    && q.market == m.id && q.generation == m.generation
    && q.publishedSlot <= now <= q.publishedSlot + m.maxOracleAgeSlots
    && m.minPrice <= q.price <= m.maxPrice
  }

  /** The moment and the price are within what was consented to, and the consent within the policy's lifetime. */
  predicate InWindow(c: Consent, policy: Policy, now: int, price: int) {
    && c.issuedSlot <= now <= c.expiresSlot <= c.issuedSlot + policy.maxIntentLifetimeSlots
    && 0 < c.minExecutionPrice <= price <= c.maxExecutionPrice
  }

  lemma QuotesExact(m: Market, q: Observation, now: u64)
    ensures CheckPrice(m, q, now).Pass? <==> Quotes(m, q, now)
  {
  }

  lemma WindowExact(c: Consent, policy: Policy, now: u64, price: u128)
    ensures CheckTimeAndLimit(c, policy, now, price).Pass? <==> InWindow(c, policy, now, price)
  {
  }

  // ---- Entries ----

  /** What one unit of size times price is divided by. */
  function Divisor(m: Market): (d: int)
    ensures 0 < d
  {
    10_000 * Nonlinear.Pow(10, m.assetDecimals)
  }

  function NotionalOfEntry(m: Market, intent: OpenIntent, price: int): int {
    CeilDiv(intent.sizeBase * price, Divisor(m))
  }

  function FeeOfEntry(m: Market, intent: OpenIntent, price: int): int {
    CeilDiv(NotionalOfEntry(m, intent, price) * m.feeBps, 10_000)
  }

  /** The entry is within the market's and the member's limits. */
  predicate WithinLimits(s: RoomState, member: Member, intent: OpenIntent, observation: Observation, now: int) {
    var policy := member.policy;
    && intent.consent.policyRevision == member.policyRevision
    && intent.market in policy.allowedMarkets && intent.cell in policy.allowedCells
    && intent.market in s.markets
    && var market := s.markets[intent.market];
       var (notional, fee) := (NotionalOfEntry(market, intent, observation.price),
                               FeeOfEntry(market, intent, observation.price));
       && intent.consent.marketGeneration == market.generation
       && Quotes(market, observation, now) && InWindow(intent.consent, policy, now, observation.price)
       && now < intent.maturitySlot <= now + market.maxPositionLifetimeSlots
       && 0 < intent.sizeBase && 0 < intent.collateral
       && notional <= policy.maxPositionNotional && member.openNotional + notional <= policy.maxTotalNotional
       && notional * 10_000 <= intent.collateral * policy.maxLeverageBps
       && member.openPositions < policy.maxOpenPositions
       && market.feeBps <= policy.maxFeeBps && fee <= intent.maxFee
  }

  lemma EntryNumbers(m: Market, intent: OpenIntent, price: u128)
    requires m.assetDecimals <= 18 && 0 < price && m.feeBps <= 10_000
    ensures var (r, notional) := (NotionalUsdCeil(intent.sizeBase, price, m.assetDecimals),
                                  NotionalOfEntry(m, intent, price));
            && 0 <= notional
            && r == (if notional < U128_LIMIT then Success(notional) else Failure(MathOverflow))
            && (notional < U128_LIMIT ==>
                  CeilMulDiv(notional, m.feeBps, 10_000) == Success(FeeOfEntry(m, intent, price)))
  {
    ScaleExact(m.assetDecimals);
    var n := intent.sizeBase * price;
    Nonlinear.MulMono(0, intent.sizeBase, price);
    CeilDivBounds(n, Divisor(m));
    var notional := NotionalOfEntry(m, intent, price);
    NotNegative(notional, n, Divisor(m));
    Nonlinear.MulMono(0, notional, m.feeBps);
    Nonlinear.MulMono(m.feeBps, 10_000, notional);
    CeilDivBounds(notional * m.feeBps, 10_000);
    NotNegative(FeeOfEntry(m, intent, price), notional * m.feeBps, 10_000);
  }

  lemma EntryExact(s: RoomState, member: Member, intent: OpenIntent, observation: Observation, now: u64)
    requires MarketsKeyed(s.markets)
    ensures var r := EntryTerms(s, member, intent, observation, now);
            if WithinLimits(s, member, intent, observation, now)
            then
              var market := s.markets[intent.market];
              && r.Success?
              && r.value == Terms(market, NotionalOfEntry(market, intent, observation.price),
                                  FeeOfEntry(market, intent, observation.price))
            else r.Failure?
  {
    hide NotionalUsdCeil, CeilMulDiv, NotionalOfEntry, FeeOfEntry, CheckPrice, CheckTimeAndLimit, Quotes, InWindow,
         Ascending, CmpProducts;
    if intent.market in s.markets {
      var market := s.markets[intent.market];
      MarketValidIff(market);
      QuotesExact(market, observation, now);
      WindowExact(intent.consent, member.policy, now, observation.price);
      if CheckPrice(market, observation, now).Pass? {
        QuotedPrice(market, observation, now);
        EntryNumbers(market, intent, observation.price);
        var notional := NotionalOfEntry(market, intent, observation.price);
        if notional < U128_LIMIT {
          LeverageExact(notional, intent.collateral, member.policy.maxLeverageBps);
        }
      }
    }
  }

  lemma QuotedPrice(m: Market, q: Observation, now: int)
    requires Quotes(m, q, now) && GoodMarket(m)
    ensures 0 < q.price
  {
  }

  lemma LeverageExact(notional: u128, collateral: u128, leverageBps: u32)
    ensures CmpProducts(notional, 10_000, collateral, leverageBps) != Greater
            <==> notional * 10_000 <= collateral * leverageBps
  {
  }

  /** The entry fits the member's balance and both its budgets. */
  predicate WithinBudgets(m: Member, collateral: int, fee: int) {
    && collateral + fee <= m.free
    && m.lossAndFeeUsed + m.collateralAtRisk + collateral + fee <= m.policy.lossLimit
    && m.lossAndFeeUsed + m.collateralAtRisk + collateral + fee <= m.contributed
  }

  lemma BudgetsExact(m: Member, collateral: u128, fee: u128)
    ensures CheckBudgets(m, collateral, fee).Success? <==> WithinBudgets(m, collateral, fee)
  {
    hide Ascending;
  }

  /** The cell underwrites the entry: whom, what, how much, how levered, at what fee, and with what it has free. */
  predicate Backs(cell: Cell, member: Member, intent: OpenIntent, terms: Terms) {
    var u := cell.policy;
    && intent.cellPolicyRevision == cell.policyRevision
    && Admission(intent.consent.member, member.owner, member.generation) in u.allowedMembers
    && MarketGeneration(intent.market, terms.market.generation) in u.allowedMarketGenerations
    && terms.notional <= u.maxPositionNotional && intent.profitCap <= u.maxProfitCap
    && cell.reserved + intent.collateral + intent.profitCap <= u.maxTotalReserved
    && u.minFeeBps <= terms.market.feeBps
    && terms.notional * 10_000 <= intent.collateral * u.maxLeverageBps
    && cell.reserved + intent.profitCap <= cell.balance
  }

  lemma BackingExact(cell: Cell, member: Member, intent: OpenIntent, terms: Terms)
    ensures var r := CheckBacking(cell, member, intent, terms);
            if Backs(cell, member, intent, terms) then r == Success(intent.collateral + intent.profitCap)
            else r.Failure?
  {
    hide CmpProducts, Ascending;
    LeverageExact(terms.notional, intent.collateral, cell.policy.maxLeverageBps);
  }

  /** The profit or loss at a price, and the equity it leaves, are representable. */
  predicate Settleable(intent: OpenIntent, m: Market, entry: int, price: int) {
    var gain := intent.sizeBase * Move(intent.side, entry, price) / Divisor(m);
    -I128_LIMIT < gain < I128_LIMIT && Signed128(intent.collateral) && Signed128(intent.collateral + gain)
  }

  lemma EndExact(p: OpenReceipt, price: u128)
    requires p.market.minPrice <= price <= p.market.maxPrice && 0 < price && 0 < p.observation.price
    requires p.intent.sizeBase != 0 && p.intent.collateral + p.intent.profitCap < U128_LIMIT
    requires p.market.assetDecimals <= 34
    ensures PayoutAt(p, price).Success? <==> Settleable(p.intent, p.market, p.observation.price, price)
    ensures PayoutAt(p, price).Success? ==>
              var gain := p.intent.sizeBase * Move(p.intent.side, p.observation.price, price) / Divisor(p.market);
              PayoutAt(p, price).value
              == Max(0, Min(p.intent.collateral + gain, p.intent.collateral + p.intent.profitCap))
  {
    hide PayoutAt;
    ScaleExact(p.market.assetDecimals);
    PayoutIsClamp(p, price);
  }

  /** An entry every party has agreed to, and that can be settled at every price of its band. */
  predicate Admits(s: RoomState, actor: Actor, intent: OpenIntent, observation: Observation, now: int) {
    && Consents(s, actor, intent.consent)
    && var m := s.members[intent.consent.member];
       && WithinLimits(s, m, intent, observation, now)
       && var market := s.markets[intent.market];
          var (notional, fee) := (NotionalOfEntry(market, intent, observation.price),
                                  FeeOfEntry(market, intent, observation.price));
          && WithinBudgets(m, intent.collateral, fee)
          && intent.cell in s.cells
          && 0 <= notional < U128_LIMIT && 0 <= fee < U128_LIMIT
          && Backs(s.cells[intent.cell], m, intent, Terms(market, notional, fee))
          && Settleable(intent, market, observation.price, market.minPrice)
          && Settleable(intent, market, observation.price, market.maxPrice)
  }

  /** The receipt of an entry: its intent and price, and the policies, market and owners as they are. */
  predicate Agreed(s: RoomState, intent: OpenIntent, observation: Observation, now: int, r: OpenReceipt) {
    && intent.consent.member in s.members && intent.cell in s.cells && intent.market in s.markets
    && var (m, cell, market) := (s.members[intent.consent.member], s.cells[intent.cell], s.markets[intent.market]);
       && r.position == s.nextPosition && r.owner == m.owner && r.backingOwner == cell.owner
       && r.intent == intent && r.policy == m.policy && r.cellPolicy == cell.policy && r.market == market
       && r.observation == observation && r.executedSlot == now
       && r.entryNotional == NotionalOfEntry(market, intent, observation.price)
       && r.fee == FeeOfEntry(market, intent, observation.price)
       && r.maximumPayout == intent.collateral + intent.profitCap
  }

  lemma AdmitOpenExact(s: RoomState, actor: Actor, intent: OpenIntent, observation: Observation, now: u64)
    requires MarketsKeyed(s.markets)
    ensures var r := AdmitOpen(s, actor, intent, observation, now);
            if Admits(s, actor, intent, observation, now)
            then r.Success? && Agreed(s, intent, observation, now, r.value)
            else r.Failure?
  {
    hide ConsentMember, EntryTerms, CheckBudgets, CheckBacking, PayoutAt, Consents, WithinLimits, WithinBudgets, Backs,
         Settleable, NotionalOfEntry, FeeOfEntry, Ascending;
    ConsentExact(s, actor, intent.consent);
    if Consents(s, actor, intent.consent) {
      ConsentKnows(s, actor, intent.consent);
      var m := s.members[intent.consent.member];
      EntryExact(s, m, intent, observation, now);
      if WithinLimits(s, m, intent, observation, now) {
        LimitsKnow(s, m, intent, observation, now);
        var market := s.markets[intent.market];
        var terms := EntryTerms(s, m, intent, observation, now).value;
        BudgetsExact(m, intent.collateral, terms.fee);
        if intent.cell in s.cells {
          var cell := s.cells[intent.cell];
          BackingExact(cell, m, intent, terms);
          if CheckBacking(cell, m, intent, terms).Success? {
            var p := OpenReceipt(s.nextPosition, m.owner, cell.owner, intent, m.policy, cell.policy, market,
                                 observation, now, terms.notional, terms.fee,
                                 CheckBacking(cell, m, intent, terms).value);
            EndExact(p, market.minPrice);
            EndExact(p, market.maxPrice);
          }
        }
      }
    }
  }

  lemma ConsentKnows(s: RoomState, actor: Actor, c: Consent)
    requires Consents(s, actor, c)
    ensures c.member in s.members
  {
  }

  lemma LimitsKnow(s: RoomState, m: Member, intent: OpenIntent, observation: Observation, now: int)
    requires MarketsKeyed(s.markets) && WithinLimits(s, m, intent, observation, now)
    ensures intent.market in s.markets && 0 < observation.price && 0 < intent.sizeBase
    ensures var market := s.markets[intent.market];
            0 < market.minPrice <= market.maxPrice && market.assetDecimals <= 18
  {
    MarketValidIff(s.markets[intent.market]);
  }

  /** What an entry moves: collateral and fee from the member to the cell, and the payout into reserve. */
  predicate Entered(s: RoomState, r: OpenReceipt, s': RoomState) {
    var (mid, cid) := (r.intent.consent.member, r.intent.cell);
    && mid in s.members && cid in s.cells && mid in s'.members && cid in s'.cells
    && var (m, m', c, c', debit) := (s.members[mid], s'.members[mid], s.cells[cid], s'.cells[cid],
                                     r.intent.collateral + r.fee);
       && m'.nextNonce == m.nextNonce + 1 && m'.free == m.free - debit && m'.lossAndFeeUsed == m.lossAndFeeUsed + r.fee
       && m'.collateralAtRisk == m.collateralAtRisk + r.intent.collateral
       && m'.openNotional == m.openNotional + r.entryNotional && m'.openPositions == m.openPositions + 1
       && m' == m.(nextNonce := m'.nextNonce, free := m'.free, lossAndFeeUsed := m'.lossAndFeeUsed,
                   collateralAtRisk := m'.collateralAtRisk, openNotional := m'.openNotional,
                   openPositions := m'.openPositions)
       && c'.balance == c.balance + debit && c'.reserved == c.reserved + r.maximumPayout
       && c' == c.(balance := c'.balance, reserved := c'.reserved)
       && s'.nextPosition == s.nextPosition + 1
       && s' == s.(members := s.members[mid := m'], cells := s.cells[cid := c'],
                   positions := s.positions[r.position := r], nextPosition := s'.nextPosition)
  }

  lemma KeyedMarkets(s: RoomState)
    requires Inv(s)
    ensures MarketsKeyed(s.markets)
  {
    hide Reconciles, PositionSound, SnapshotsAgree, TerminalSound, ValidateMarket;
  }

  /** What admission leaves room for. */
  predicate Fits(s: RoomState, r: OpenReceipt) {
    && r.intent.consent.member in s.members && r.intent.cell in s.cells
    && var (m, c) := (s.members[r.intent.consent.member], s.cells[r.intent.cell]);
       && r.intent.consent.nonce == m.nextNonce
       && r.intent.collateral + r.fee <= m.free
       && m.lossAndFeeUsed + m.collateralAtRisk + r.intent.collateral + r.fee < U128_LIMIT
       && m.openNotional + r.entryNotional < U128_LIMIT && m.openPositions + 1 < U16_LIMIT
       && c.reserved + r.maximumPayout < U128_LIMIT && m.free + c.balance < U128_LIMIT
  }

  lemma AdmittedFits(s: RoomState, actor: Actor, intent: OpenIntent, observation: Observation, now: u64,
                     r: OpenReceipt)
    requires Inv(s) && Admits(s, actor, intent, observation, now)
    requires AdmitOpen(s, actor, intent, observation, now) == Success(r)
    ensures Fits(s, r)
  {
    hide AdmitOpen, Structured, Settleable, NotionalOfEntry, FeeOfEntry, Quotes, InWindow, MayTrade, HoldingsReconcile,
         MemberReconciles, CellReconciles, Ascending;
    KeyedMarkets(s);
    AdmitOpenExact(s, actor, intent, observation, now);
    HoldingsBound(s, intent.consent.member, intent.cell);
  }

  lemma EntryMoves(s: RoomState, r: OpenReceipt)
    requires Fits(s, r)
    ensures if s.nextPosition < 0xFFFF_FFFF_FFFF_FFFF && r.intent.consent.nonce < 0xFFFF_FFFF_FFFF_FFFF
            then OpenPosition(s, r).Success? && OpenPosition(s, r).value.1 == Opened(r)
                 && Entered(s, r, OpenPosition(s, r).value.0)
            else OpenPosition(s, r).Failure?
  {
  }

  // ---- Exits ----

  /** An authorised exit: the member's own position, under the terms it was opened on, at its price for the moment. */
  predicate MayClose(s: RoomState, actor: Actor, intent: CloseIntent, observation: Observation, now: int) {
    && Consents(s, actor, intent.consent)
    && intent.position in s.positions
    && var p := s.positions[intent.position];
       && intent.consent.member == p.intent.consent.member
       && intent.consent.marketGeneration == p.market.generation
       && intent.consent.policyRevision == p.intent.consent.policyRevision
       && p.executedSlot <= now
       && (if p.intent.maturitySlot <= now
           then KeyOf(p) in s.terminal && s.terminal[KeyOf(p)] == observation
                && Quotes(p.market, observation, p.intent.maturitySlot)
           else Quotes(p.market, observation, now))
       && InWindow(intent.consent, p.policy, now, observation.price)
  }

  lemma AdmitCloseExact(s: RoomState, actor: Actor, intent: CloseIntent, observation: Observation, now: u64)
    ensures if MayClose(s, actor, intent, observation, now)
            then intent.position in s.positions
                 && AdmitClose(s, actor, intent, observation, now) == Success(s.positions[intent.position])
            else AdmitClose(s, actor, intent, observation, now).Failure?
  {
    hide ConsentMember, Consents, CheckPrice, CheckTimeAndLimit, Quotes, InWindow;
    ConsentExact(s, actor, intent.consent);
    if intent.position in s.positions {
      var p := s.positions[intent.position];
      QuotesExact(p.market, observation, now);
      QuotesExact(p.market, observation, p.intent.maturitySlot);
      WindowExact(intent.consent, p.policy, now, observation.price);
    }
  }

  /** What a settlement at `payout` moves: the payout from the cell to the member, and the reserve back. */
  predicate Exited(s: RoomState, p: OpenReceipt, payout: int, byNonce: bool, s': RoomState) {
    var (mid, cid) := (p.intent.consent.member, p.intent.cell);
    && mid in s.members && cid in s.cells && mid in s'.members && cid in s'.cells
    && var (m, m', c, c') := (s.members[mid], s'.members[mid], s.cells[cid], s'.cells[cid]);
       && m'.nextNonce == m.nextNonce + (if byNonce then 1 else 0)
       && m'.free == m.free + payout
       && m'.lossAndFeeUsed == m.lossAndFeeUsed + Max(0, p.intent.collateral - payout)
       && m'.collateralAtRisk == m.collateralAtRisk - p.intent.collateral
       && m'.openNotional == m.openNotional - p.entryNotional && m'.openPositions == m.openPositions - 1
       && m' == m.(nextNonce := m'.nextNonce, free := m'.free, lossAndFeeUsed := m'.lossAndFeeUsed,
                   collateralAtRisk := m'.collateralAtRisk, openNotional := m'.openNotional,
                   openPositions := m'.openPositions)
       && c'.balance == c.balance - payout && c'.reserved == c.reserved - p.maximumPayout
       && c' == c.(balance := c'.balance, reserved := c'.reserved)
       && s' == s.(members := s.members[mid := m'], cells := s.cells[cid := c'],
                   positions := s.positions - {p.position})
  }

  /** What a settlement reports: the position's own terms, its price, and the clamped outcome. */
  predicate Reports(p: OpenReceipt, observation: Observation, now: int, c: CloseReceipt) {
    var gain := p.intent.sizeBase * Move(p.intent.side, p.observation.price, observation.price) / Divisor(p.market);
    && c.payout == Max(0, Min(p.intent.collateral + gain, p.intent.collateral + p.intent.profitCap))
    && c.realizedLoss == Max(0, p.intent.collateral - c.payout)
    && c == CloseReceipt(p.position, p.intent.consent.member, p.owner, p.intent.cell, p.intent.consent.policyRevision,
                         p.market.generation, observation, c.executedSlot, c.payout, c.realizedLoss, p.maximumPayout)
    && c.executedSlot == now
  }

  /** In a sound room a stored position settles at any price of its band, for the clamp of its profit or loss. */
  lemma SettlementExact(s: RoomState, id: PositionId, observation: Observation, now: u64, byNonce: bool)
    requires Inv(s) && id in s.positions
    requires s.positions[id].market.minPrice <= observation.price <= s.positions[id].market.maxPrice
    ensures s.positions[id].intent.consent.member in s.members
    ensures var (p, r) := (s.positions[id], SettlePosition(s, s.positions[id], observation, now, byNonce));
            if byNonce ==> s.members[p.intent.consent.member].nextNonce < 0xFFFF_FFFF_FFFF_FFFF
            then r.Success? && r.value.1.Closed? && Reports(p, observation, now, r.value.1.closed)
                 && Exited(s, p, r.value.1.closed.payout, byNonce, r.value.0)
            else r.Failure?
  {
    hide Reconciles, Structured, SettlePosition, Exited, Reports, Payable;
    PositionFacts(s, id);
    var p := s.positions[id];
    if byNonce ==> s.members[p.intent.consent.member].nextNonce < 0xFFFF_FFFF_FFFF_FFFF {
      SettleSucceeds(s, id, observation, now, byNonce);
      SettlementMoves(s, p, observation, now, byNonce);
      SettlementReports(s, p, observation, now, byNonce);
    } else {
      NonceRunsOut(s, p, observation, now);
    }
  }

  lemma NonceRunsOut(s: RoomState, p: OpenReceipt, observation: Observation, now: u64)
    requires p.intent.consent.member in s.members
    requires s.members[p.intent.consent.member].nextNonce == 0xFFFF_FFFF_FFFF_FFFF
    ensures SettlePosition(s, p, observation, now, true).Failure?
  {
    hide PayoutAt;
  }

  lemma SettlementMoves(s: RoomState, p: OpenReceipt, observation: Observation, now: u64, byNonce: bool)
    requires SettlePosition(s, p, observation, now, byNonce).Success?
    ensures var (s', outcome) := SettlePosition(s, p, observation, now, byNonce).value;
            outcome.Closed? && Exited(s, p, outcome.closed.payout, byNonce, s')
  {
    hide PayoutAt;
  }

  lemma SettlementReports(s: RoomState, p: OpenReceipt, observation: Observation, now: u64, byNonce: bool)
    requires SettlePosition(s, p, observation, now, byNonce).Success? && Payable(p)
    ensures var outcome := SettlePosition(s, p, observation, now, byNonce).value.1;
            outcome.Closed? && Reports(p, observation, now, outcome.closed)
  {
    hide PayoutAt, Divisor, Settleable;
    InBandIsPositive(p, observation.price);
    StoredDecimals(p);
    EndExact(p, observation.price);
  }

  lemma InBandIsPositive(p: OpenReceipt, price: u128)
    requires Payable(p)
    ensures 0 < p.observation.price && p.intent.sizeBase != 0
    ensures p.intent.collateral + p.intent.profitCap < U128_LIMIT
    ensures PayoutAt(p, price).Success? ==> 0 < p.market.minPrice <= price <= p.market.maxPrice
  {
  }

  lemma StoredDecimals(p: OpenReceipt)
    requires Payable(p)
    ensures p.market.assetDecimals <= 34
  {
    hide PayoutAt;
    DivisorFromPayout(p, p.market.minPrice);
    ScaleExact(p.market.assetDecimals);
  }

  // ---- Every command ----

  const LAST: int := 0xFFFF_FFFF_FFFF_FFFF

  /** When a sound room accepts a command whose slot is in force. */
  predicate Accepts(s: RoomState, c: Command) {
    match c
    case RegisterMarket(actor, market) =>
      && actor == Owner(s.administrator) && GoodMarket(market)
      && market.generation == (if market.id in s.markets then s.markets[market.id].generation + 1 else 1)
    case AddCell(actor, cell, policy) =>
      actor.Owner? && cell !in s.cells && GoodUnderwriting(policy)
    case ChangeCellPolicy(actor, cell, expected, policy) =>
      && cell in s.cells && actor == Owner(s.cells[cell].owner) && GoodUnderwriting(policy)
      && expected == s.cells[cell].policyRevision < LAST
    case AddMember(actor, member, delegate, policy) =>
      actor.Owner? && member !in s.members && GoodPolicy(policy)
    case ChangePolicy(actor, member, expected, delegate, policy) =>
      && member in s.members && actor == Owner(s.members[member].owner) && GoodPolicy(policy)
      && expected == s.members[member].policyRevision < LAST
      && s.members[member].contributed <= policy.contributionLimit
    case Contribute(actor, member, amount) =>
      && 0 < amount && member in s.members && actor == Owner(s.members[member].owner)
      && s.members[member].contributed + amount <= s.members[member].policy.contributionLimit
      && s.externalIn + amount < U128_LIMIT
    case FundCell(actor, cell, amount) =>
      && 0 < amount && cell in s.cells && actor == Owner(s.cells[cell].owner)
      && s.cells[cell].contributed + amount < U128_LIMIT && s.externalIn + amount < U128_LIMIT
    case Withdraw(actor, member, amount) =>
      && 0 < amount && member in s.members && actor == Owner(s.members[member].owner)
      && amount <= s.members[member].free && s.members[member].withdrawn + amount < U128_LIMIT
    case WithdrawCell(actor, cell, amount) =>
      && 0 < amount && cell in s.cells && actor == Owner(s.cells[cell].owner)
      && s.cells[cell].reserved + amount <= s.cells[cell].balance && s.cells[cell].withdrawn + amount < U128_LIMIT
    case Open(actor, intent, observation, now) =>
      && Admits(s, actor, intent, observation, now)
      && s.nextPosition < LAST && intent.consent.nonce < LAST
    case Close(actor, intent, observation, now) =>
      MayClose(s, actor, intent, observation, now) && intent.consent.nonce < LAST
    case RecordTerminalObservation(actor, position, observation, now) =>
      MayRecord(s, actor, position, observation, now)
    case SettleMatured(position, now) =>
      && position in s.positions && s.positions[position].intent.maturitySlot <= now
      && KeyOf(s.positions[position]) in s.terminal
  }

  /** The administrator records a matured position's price: published on its maturity slot, in its band, and once. */
  predicate MayRecord(s: RoomState, actor: Actor, position: PositionId, q: Observation, now: int) {
    && actor == Owner(s.administrator) && position in s.positions
    && var p := s.positions[position];
       && q.market == p.market.id && q.generation == p.market.generation
       && q.publishedSlot == p.intent.maturitySlot <= now
       && p.market.minPrice <= q.price <= p.market.maxPrice
       && TerminalKey(p.market.id, p.market.generation, p.intent.maturitySlot) !in s.terminal
  }

  /** What an accepted command reports, and all that it changes. */
  predicate Moves(s: RoomState, c: Command, outcome: Outcome, s': RoomState) {
    match c
    case RegisterMarket(_, market) =>
      && outcome == RegisteredMarket(market.id, market.generation)
      && s' == s.(markets := s.markets[market.id := market])
    case AddCell(actor, cell, policy) =>
      && actor.Owner? && outcome == AddedCell(cell)
      && s' == s.(cells := s.cells[cell := Cell(actor.owner, 1, policy, 0, 0, 0, 0)])
    case ChangeCellPolicy(_, cell, expected, policy) =>
      && expected < LAST && cell in s.cells && outcome == ChangedCellPolicy(cell, expected + 1)
      && s' == s.(cells := s.cells[cell := s.cells[cell].(policyRevision := expected + 1, policy := policy)])
    case AddMember(actor, member, delegate, policy) =>
      && actor.Owner? && outcome == AddedMember(member)
      && s' == s.(members := s.members[member := Member(actor.owner, delegate, 1, 1, policy, 0, 0, 0, 0, 0, 0, 0, 0)])
    case ChangePolicy(_, member, expected, delegate, policy) =>
      && expected < LAST && member in s.members && outcome == ChangedPolicy(member, expected + 1)
      && s' == s.(members := s.members[member := s.members[member].(policyRevision := expected + 1, policy := policy,
                                                                    delegate := delegate)])
    case Contribute(_, member, amount) =>
      && outcome == Contributed(member, amount) && member in s.members && member in s'.members
      && var (m, m') := (s.members[member], s'.members[member]);
         && m'.contributed == m.contributed + amount && m'.free == m.free + amount
         && s'.externalIn == s.externalIn + amount
         && s' == s.(members := s.members[member := m.(contributed := m'.contributed, free := m'.free)],
                     externalIn := s'.externalIn)
    case FundCell(_, cell, amount) =>
      && outcome == FundedCell(cell, amount) && cell in s.cells && cell in s'.cells
      && var (c, c') := (s.cells[cell], s'.cells[cell]);
         && c'.balance == c.balance + amount && c'.contributed == c.contributed + amount
         && s'.externalIn == s.externalIn + amount
         && s' == s.(cells := s.cells[cell := c.(balance := c'.balance, contributed := c'.contributed)],
                     externalIn := s'.externalIn)
    case Withdraw(_, member, amount) =>
      && member in s.members && member in s'.members
      && outcome == Withdrawn(member, s.members[member].owner, amount)
      && var (m, m') := (s.members[member], s'.members[member]);
         && m'.free == m.free - amount && m'.withdrawn == m.withdrawn + amount
         && s'.externalOut == s.externalOut + amount
         && s' == s.(members := s.members[member := m.(free := m'.free, withdrawn := m'.withdrawn)],
                     externalOut := s'.externalOut)
    case WithdrawCell(_, cell, amount) =>
      && cell in s.cells && cell in s'.cells
      && outcome == WithdrawnCell(cell, s.cells[cell].owner, amount)
      && var (c, c') := (s.cells[cell], s'.cells[cell]);
         && c'.balance == c.balance - amount && c'.withdrawn == c.withdrawn + amount
         && s'.externalOut == s.externalOut + amount
         && s' == s.(cells := s.cells[cell := c.(balance := c'.balance, withdrawn := c'.withdrawn)],
                     externalOut := s'.externalOut)
    case Open(_, intent, observation, now) =>
      outcome.Opened? && Agreed(s, intent, observation, now, outcome.receipt) && Entered(s, outcome.receipt, s')
    case Close(_, intent, observation, now) =>
      intent.position in s.positions && Settled(s, intent.position, observation, now, true, outcome, s')
    case RecordTerminalObservation(_, position, observation, _) =>
      && position in s.positions && outcome == RoomModel.RecordedTerminalObservation(observation)
      && s' == s.(terminal := s.terminal[KeyOf(s.positions[position]) := observation])
    case SettleMatured(position, now) =>
      && position in s.positions && KeyOf(s.positions[position]) in s.terminal
      && Settled(s, position, s.terminal[KeyOf(s.positions[position])], now, false, outcome, s')
  }

  predicate Settled(s: RoomState, position: PositionId, observation: Observation, now: int, byNonce: bool,
                    outcome: Outcome, s': RoomState)
    requires position in s.positions
  {
    && outcome.Closed? && Reports(s.positions[position], observation, now, outcome.closed)
    && Exited(s, s.positions[position], outcome.closed.payout, byNonce, s')
  }

  predicate Decided(s: RoomState, c: Command, r: Result<(RoomState, Outcome), Error>) {
    if Accepts(s, c) then r.Success? && Moves(s, c, r.value.1, r.value.0) else r.Failure?
  }

  /** The administrator registers each market's generations one after the other. */
  lemma RegisterMarketExact(s: RoomState, actor: Actor, market: Market)
    ensures Decided(s, RegisterMarket(actor, market), ApplyRegisterMarket(s, actor, market))
  {
    hide ValidateMarket, GoodMarket;
    MarketValidIff(market);
  }

  /** Any owner may add a cell that is not there yet; it starts empty. */
  lemma AddCellExact(s: RoomState, actor: Actor, cell: CellId, policy: UnderwritingPolicy)
    ensures Decided(s, AddCell(actor, cell, policy), ApplyAddCell(s, actor, cell, policy))
  {
    hide ValidateUnderwriting, GoodUnderwriting, Ascending;
    UnderwritingValidIff(policy);
  }

  /** Its owner may replace a cell's policy, naming the revision it replaces. */
  lemma ChangeCellPolicyExact(s: RoomState, actor: Actor, cell: CellId, expected: u64,
                               policy: UnderwritingPolicy)
    ensures Decided(s, ChangeCellPolicy(actor, cell, expected, policy),
                    ApplyChangeCellPolicy(s, actor, cell, expected, policy))
  {
    hide ValidateUnderwriting, GoodUnderwriting, Ascending;
    UnderwritingValidIff(policy);
  }

  /** Any owner may become a member that is not there yet; it starts with nothing. */
  lemma AddMemberExact(s: RoomState, actor: Actor, member: MemberId, delegate: Option<DelegateId>, policy: Policy)
    ensures Decided(s, AddMember(actor, member, delegate, policy), ApplyAddMember(s, actor, member, delegate, policy))
  {
    hide ValidatePolicy, GoodPolicy, Ascending;
    PolicyValidIff(policy);
  }

  /** Its owner may replace a member's policy and delegate, down to what is already contributed. */
  lemma ChangePolicyExact(s: RoomState, actor: Actor, member: MemberId, expected: u64, delegate: Option<DelegateId>,
                          policy: Policy)
    ensures Decided(s, ChangePolicy(actor, member, expected, delegate, policy),
                    ApplyChangePolicy(s, actor, member, expected, delegate, policy))
  {
    hide ValidatePolicy, GoodPolicy, Ascending;
    PolicyValidIff(policy);
  }

  // ---- Money ----

  /** A member's free balance and a cell's balance are both part of what came in and did not leave. */
  lemma HoldingsBound(s: RoomState, member: MemberId, cell: CellId)
    requires HoldingsReconcile(s)
    ensures member in s.members ==> s.externalOut + s.members[member].free <= s.externalIn
    ensures cell in s.cells ==> s.externalOut + s.cells[cell].balance <= s.externalIn
    ensures member in s.members && cell in s.cells ==>
              s.members[member].free + s.cells[cell].balance <= s.externalIn
  {
    hide Total;
    if member in s.members {
      TotalSplit(s.members, member, FreeOf());
    }
    if cell in s.cells {
      TotalSplit(s.cells, cell, BalanceOf());
    }
  }

  /** Its owner contributes to a member, up to the limit it set. */
  lemma ContributeExact(s: RoomState, actor: Actor, member: MemberId, amount: u128)
    requires HoldingsReconcile(s)
    ensures Decided(s, Contribute(actor, member, amount), ApplyContribute(s, actor, member, amount))
  {
    hide HoldingsReconcile, Ascending;
    HoldingsBound(s, member, 0);
  }

  /** Its owner funds a cell, as far as the amounts stay representable. */
  lemma FundCellExact(s: RoomState, actor: Actor, cell: CellId, amount: u128)
    requires HoldingsReconcile(s)
    ensures Decided(s, FundCell(actor, cell, amount), ApplyFundCell(s, actor, cell, amount))
  {
    hide HoldingsReconcile, Ascending;
    HoldingsBound(s, 0, cell);
  }

  /** Its owner withdraws from a member's free balance. */
  lemma WithdrawExact(s: RoomState, actor: Actor, member: MemberId, amount: u128)
    requires HoldingsReconcile(s)
    ensures Decided(s, Withdraw(actor, member, amount), ApplyWithdraw(s, actor, member, amount))
  {
    hide HoldingsReconcile, Ascending;
    HoldingsBound(s, member, 0);
  }

  /** Its owner withdraws what a cell holds beyond its reserves. */
  lemma WithdrawCellExact(s: RoomState, actor: Actor, cell: CellId, amount: u128)
    requires HoldingsReconcile(s) && (cell in s.cells ==> s.cells[cell].reserved <= s.cells[cell].balance)
    ensures Decided(s, WithdrawCell(actor, cell, amount), ApplyWithdrawCell(s, actor, cell, amount))
  {
    hide HoldingsReconcile, Ascending;
    HoldingsBound(s, 0, cell);
  }

  // ---- Trades ----

  /**
   * In a sound room an entry that is admitted opens, unless a 64-bit counter has run out: no balance can refuse it, and
   * its receipt is what was agreed.
   */
  lemma OpenExact(s: RoomState, actor: Actor, intent: OpenIntent, observation: Observation, now: u64)
    requires Inv(s)
    ensures Decided(s, Open(actor, intent, observation, now), ApplyOpen(s, actor, intent, observation, now))
  {
    hide AdmitOpen, Reconciles, Structured, OpenPosition, Admits, Entered, Agreed;
    KeyedMarkets(s);
    AdmitOpenExact(s, actor, intent, observation, now);
    if Admits(s, actor, intent, observation, now) {
      var r := AdmitOpen(s, actor, intent, observation, now).value;
      AgreedIntent(s, intent, observation, now, r);
      AdmittedFits(s, actor, intent, observation, now, r);
      EntryMoves(s, r);
    }
  }

  lemma AgreedIntent(s: RoomState, intent: OpenIntent, observation: Observation, now: int, r: OpenReceipt)
    requires Agreed(s, intent, observation, now, r)
    ensures r.intent == intent
  {
  }

  /** In a sound room an authorised exit settles, unless the 64-bit nonce has run out. */
  lemma CloseExact(s: RoomState, actor: Actor, intent: CloseIntent, observation: Observation, now: u64)
    requires Inv(s)
    ensures Decided(s, Close(actor, intent, observation, now), ApplyClose(s, actor, intent, observation, now))
  {
    hide AdmitClose, Inv, SettlePosition, MayClose, Exited, Reports;
    AdmitCloseExact(s, actor, intent, observation, now);
    if MayClose(s, actor, intent, observation, now) {
      ExitIsInBand(s, actor, intent, observation, now);
      SettlementExact(s, intent.position, observation, now, true);
    }
  }

  lemma ExitIsInBand(s: RoomState, actor: Actor, intent: CloseIntent, observation: Observation, now: int)
    requires MayClose(s, actor, intent, observation, now)
    ensures intent.position in s.positions && intent.consent.member in s.members
    ensures var p := s.positions[intent.position];
            && p.intent.consent.member == intent.consent.member
            && p.market.minPrice <= observation.price <= p.market.maxPrice
            && intent.consent.nonce == s.members[intent.consent.member].nextNonce
  {
  }

  /** Only the administrator records a terminal price, and never a second one. */
  lemma RecordTerminalExact(s: RoomState, actor: Actor, position: PositionId, observation: Observation, now: u64)
    ensures Decided(s, RecordTerminalObservation(actor, position, observation, now),
                    ApplyRecordTerminal(s, actor, position, observation, now))
  {
  }

  /** In a sound room a matured position with a recorded price settles at it, whoever asks. */
  lemma SettleMaturedExact(s: RoomState, position: PositionId, now: u64)
    requires Inv(s)
    ensures Decided(s, SettleMatured(position, now), ApplySettleMatured(s, position, now))
  {
    hide Reconciles, SettlePosition, Exited, Reports, Payable, SnapshotsAgree, MarketsKeyed;
    if position in s.positions && KeyOf(s.positions[position]) in s.terminal {
      SettlementExact(s, position, s.terminal[KeyOf(s.positions[position])], now, false);
    }
  }

  // ---- Execution ----

  /** The slot a command puts in force. */
  function Moment(s: RoomState, c: Command): u64 {
    match c
    case Open(_, _, _, now) => now
    case Close(_, _, _, now) => now
    case RecordTerminalObservation(_, _, _, now) => now
    case SettleMatured(_, now) => now
    case _ => s.currentSlot
  }

  lemma ApplyExact(s: RoomState, c: Command)
    requires Inv(s)
    ensures Decided(s, c, Apply(s, c))
  {
    hide Decided, Structured, Reconciles;
    match c
    case RegisterMarket(actor, market) => RegisterMarketExact(s, actor, market);
    case AddCell(actor, cell, policy) => AddCellExact(s, actor, cell, policy);
    case ChangeCellPolicy(actor, cell, expected, policy) => ChangeCellPolicyExact(s, actor, cell, expected, policy);
    case AddMember(actor, member, delegate, policy) => AddMemberExact(s, actor, member, delegate, policy);
    case ChangePolicy(actor, member, expected, delegate, policy) =>
      ChangePolicyExact(s, actor, member, expected, delegate, policy);
    case Contribute(actor, member, amount) => Sound(s, 0); ContributeExact(s, actor, member, amount);
    case FundCell(actor, cell, amount) => Sound(s, cell); FundCellExact(s, actor, cell, amount);
    case Withdraw(actor, member, amount) => Sound(s, 0); WithdrawExact(s, actor, member, amount);
    case WithdrawCell(actor, cell, amount) => Sound(s, cell); WithdrawCellExact(s, actor, cell, amount);
    case Open(actor, intent, observation, now) => OpenExact(s, actor, intent, observation, now);
    case Close(actor, intent, observation, now) => CloseExact(s, actor, intent, observation, now);
    case RecordTerminalObservation(actor, position, observation, now) =>
      RecordTerminalExact(s, actor, position, observation, now);
    case SettleMatured(position, now) => SettleMaturedExact(s, position, now);
  }

  lemma Sound(s: RoomState, cell: CellId)
    requires Inv(s)
    ensures HoldingsReconcile(s) && (cell in s.cells ==> s.cells[cell].reserved <= s.cells[cell].balance)
  {
    hide Structured, HoldingsReconcile, MemberReconciles;
    if cell in s.cells {
      assert CellReconciles(s.cells[cell], cell, s.positions, s.members);
    }
  }

  /**
   * The whole of execution: a reachable room accepts a command exactly when its slot is not past and its own conditions
   * hold, and then makes exactly its moves, puts its slot in force and appends it to the transcript.
   */
  lemma ExecuteExact(s: RoomState, c: Command)
    requires Reachable(s)
    ensures Execute(s, c).Success? <==> s.currentSlot <= Moment(s, c) && Accepts(s.(currentSlot := Moment(s, c)), c)
    ensures Execute(s, c).Success? ==>
              var (s', outcome) := Execute(s, c).value;
              && s'.records == s.records + [Record(c, outcome)]
              && Moves(s.(currentSlot := Moment(s, c)), c, outcome, s'.(records := s.records))
  {
    hide Reachable;
    ReachableInv(s);
    ExecuteDecided(s, c);
  }

  lemma ExecuteDecided(s: RoomState, c: Command)
    requires Inv(s)
    ensures Execute(s, c).Success? <==> s.currentSlot <= Moment(s, c) && Accepts(s.(currentSlot := Moment(s, c)), c)
    ensures Execute(s, c).Success? ==>
              var (s', outcome) := Execute(s, c).value;
              && s'.records == s.records + [Record(c, outcome)]
              && Moves(s.(currentSlot := Moment(s, c)), c, outcome, s'.(records := s.records))
  {
    hide Inv, Apply, Accepts, Moves, Reconciles;
    assert WithSlot(s, c) == s.(currentSlot := Moment(s, c));
    ReconciliationIsRedundant(s, c);
    if s.currentSlot <= Moment(s, c) {
      SlotKeeps(s, Moment(s, c));
      ApplyExact(WithSlot(s, c), c);
      if Execute(s, c).Success? {
        IdentityKept(s, c);
        assert Execute(s, c).value.0.(records := s.records) == Apply(WithSlot(s, c), c).value.0 by {
          RecordsUntouched(WithSlot(s, c), c);
        }
      }
    }
  }

  lemma RecordsUntouched(s: RoomState, c: Command)
    requires Inv(s) && Apply(s, c).Success?
    ensures Apply(s, c).value.0.records == s.records
  {
    hide Inv, Apply, Accepts, Agreed, Reports;
    ApplyExact(s, c);
  }
}

/** What every open position was agreed under: both policies' limits, exactly, for as long as it is open. */
module RoomTerms {
  import opened Numbers
  import opened WideMath
  import opened Position
  import opened RoomModel
  import opened RoomKernel
  import opened RoomInvariant
  import opened RoomRuns
  import opened RoomHistory

  /** Within the member's own policy: markets, cells, size, leverage and fee. */
  predicate WithinPolicy(p: OpenReceipt) {
    && p.intent.market in p.policy.allowedMarkets
    && p.intent.cell in p.policy.allowedCells
    && p.entryNotional <= p.policy.maxPositionNotional
    && p.entryNotional * 10_000 <= p.intent.collateral * p.policy.maxLeverageBps
    && p.market.feeBps <= p.policy.maxFeeBps
    && p.fee <= p.intent.maxFee
  }

  /** Within the backing cell's policy: who, what, how large, how levered, at what fee. */
  predicate WithinUnderwriting(p: OpenReceipt) {
    && Admission(p.intent.consent.member, p.owner, p.intent.consent.memberGeneration) in p.cellPolicy.allowedMembers
    && MarketGeneration(p.intent.market, p.market.generation) in p.cellPolicy.allowedMarketGenerations
    && p.entryNotional <= p.cellPolicy.maxPositionNotional
    && p.intent.profitCap <= p.cellPolicy.maxProfitCap
    && p.entryNotional * 10_000 <= p.intent.collateral * p.cellPolicy.maxLeverageBps
    && p.cellPolicy.minFeeBps <= p.market.feeBps
    && p.maximumPayout == p.intent.collateral + p.intent.profitCap <= p.cellPolicy.maxTotalReserved
  }

  /** Priced and timed as consented: at a fresh in-band price, in the consent's window, for a bounded life. */
  predicate WithinConsent(p: OpenReceipt) {
    var c := p.intent.consent;
    && p.market.id == p.intent.market == p.observation.market
    && p.market.generation == c.marketGeneration == p.observation.generation
    && c.minExecutionPrice <= p.observation.price <= c.maxExecutionPrice
    && p.market.minPrice <= p.observation.price <= p.market.maxPrice
    && p.observation.publishedSlot <= p.executedSlot <= p.observation.publishedSlot + p.market.maxOracleAgeSlots
    && c.issuedSlot <= p.executedSlot <= c.expiresSlot <= c.issuedSlot + p.policy.maxIntentLifetimeSlots
    && p.executedSlot < p.intent.maturitySlot <= p.executedSlot + p.market.maxPositionLifetimeSlots
  }

  /** Its notional and fee are the exact ceilings of its own terms. */
  predicate ExactlyPriced(p: OpenReceipt) {
    && NotionalUsdCeil(p.intent.sizeBase, p.observation.price, p.market.assetDecimals) == Success(p.entryNotional)
    && p.fee == CeilDiv(p.entryNotional * p.market.feeBps, 10_000)
  }

  predicate Honoured(p: OpenReceipt) {
    WithinPolicy(p) && WithinUnderwriting(p) && WithinConsent(p) && ExactlyPriced(p)
  }

  // ---- Admission ----

  lemma EntryHonours(s: RoomState, member: Member, intent: OpenIntent, observation: Observation, now: u64)
    requires EntryTerms(s, member, intent, observation, now).Success?
    ensures var t := EntryTerms(s, member, intent, observation, now).value;
            && intent.market in s.markets && t.market == s.markets[intent.market]
            && intent.market in member.policy.allowedMarkets && intent.cell in member.policy.allowedCells
            && t.notional <= member.policy.maxPositionNotional
            && t.notional * 10_000 <= intent.collateral * member.policy.maxLeverageBps
            && t.market.feeBps <= member.policy.maxFeeBps && t.fee <= intent.maxFee
            && intent.consent.marketGeneration == t.market.generation
            && CheckPrice(t.market, observation, now).Pass?
            && CheckTimeAndLimit(intent.consent, member.policy, now, observation.price).Pass?
            && now < intent.maturitySlot <= now + t.market.maxPositionLifetimeSlots
            && NotionalUsdCeil(intent.sizeBase, observation.price, t.market.assetDecimals) == Success(t.notional)
            && CeilMulDiv(t.notional, t.market.feeBps, 10_000) == Success(t.fee)
  {
    hide NotionalUsdCeil, CeilMulDiv, CheckTimeAndLimit, CheckPrice, Ascending, CmpProducts;
  }

  lemma BackingHonours(cell: Cell, member: Member, intent: OpenIntent, terms: Terms)
    requires CheckBacking(cell, member, intent, terms).Success?
    ensures var u := cell.policy;
            && Admission(intent.consent.member, member.owner, member.generation) in u.allowedMembers
            && MarketGeneration(intent.market, terms.market.generation) in u.allowedMarketGenerations
            && terms.notional <= u.maxPositionNotional && intent.profitCap <= u.maxProfitCap
            && terms.notional * 10_000 <= intent.collateral * u.maxLeverageBps
            && u.minFeeBps <= terms.market.feeBps
            && CheckBacking(cell, member, intent, terms).value
               == intent.collateral + intent.profitCap <= u.maxTotalReserved
  {
    hide CmpProducts, Ascending;
  }

  lemma AdmissionHonours(s: RoomState, actor: Actor, intent: OpenIntent, observation: Observation, now: u64)
    requires MarketsKeyed(s.markets) && AdmitOpen(s, actor, intent, observation, now).Success?
    ensures Honoured(AdmitOpen(s, actor, intent, observation, now).value)
  {
    hide EntryTerms, CheckBacking, PayoutAt, Ascending, NotionalUsdCeil;
    var member := ConsentMember(s, actor, intent.consent).value;
    var terms := EntryTerms(s, member, intent, observation, now).value;
    EntryHonours(s, member, intent, observation, now);
    BackingHonours(s.cells[intent.cell], member, intent, terms);
  }

  // ---- Every run ----

  ghost predicate AllHonoured(s: RoomState) {
    forall k :: k in s.positions ==> Honoured(s.positions[k])
  }

  lemma ApplyHonours(s: RoomState, c: Command)
    requires InForce(s, c) && AllHonoured(s)
    ensures AllHonoured(Apply(s, c).value.0)
  {
    hide Reconciles, Structured, Apply, AdmitOpen, OpenPosition, SettlePosition, Honoured, Payable;
    if c.Open? {
      OpenHonours(s, c);
    } else if Settles(c) {
      CloseMoves(s, c);
      SettleShape(s, s.positions[SettledPosition(c)], SettledPrice(s, c), s.currentSlot, c.Close?);
    } else {
      OtherMoves(s, c);
    }
  }

  lemma OpenHonours(s: RoomState, c: Command)
    requires InForce(s, c) && c.Open? && AllHonoured(s)
    ensures AllHonoured(Apply(s, c).value.0)
  {
    hide Reconciles, AdmitOpen, OpenPosition, Honoured, Payable;
    AdmissionHonours(s, c.actor, c.openIntent, c.observation, c.nowSlot);
    OpenShape(s, AdmitOpen(s, c.actor, c.openIntent, c.observation, c.nowSlot).value);
  }

  lemma {:induction false} HonouredAfter(id: RoomId, administrator: OwnerId, commands: seq<Command>)
    ensures AllHonoured(After(NewRoom(id, administrator), commands))
  {
    hide Inv, Reconciles, Apply, Honoured;
    if commands != [] {
      var (init, c) := (commands[..|commands| - 1], commands[|commands| - 1]);
      HonouredAfter(id, administrator, init);
      AfterInv(id, administrator, init);
      var before := After(NewRoom(id, administrator), init);
      if Execute(before, c).Success? {
        if SlotOf(c).Some? {
          SlotKeeps(before, SlotOf(c).value);
        }
        ApplyHonours(WithSlot(before, c), c);
      }
    }
  }

  /** In every reachable room, each open position is exactly what its member, its cell and its consent agreed to. */
  lemma OpenPositionsHonourTerms(s: RoomState, k: PositionId)
    requires Reachable(s) && k in s.positions
    ensures Honoured(s.positions[k])
  {
    hide Honoured, After;
    var commands :| s == After(NewRoom(s.id, s.administrator), commands);
    HonouredAfter(s.id, s.administrator, commands);
  }
}

/** The data of a risk room: policies, markets, intents, receipts, commands and outcomes. */
module RoomModel {
  import opened Numbers
  import opened WideMath
  import opened Position
  import opened Settlement

  type OwnerId = u64
  type DelegateId = u64
  type MemberId = u64
  type CellId = u64
  type MarketId = u64
  type PositionId = u64
  type RoomId = u64

  datatype Actor = Owner(owner: OwnerId) | Delegate(delegate: DelegateId)

  datatype Error =
    | Unauthorized
    | UnknownMember
    | UnknownCell
    | UnknownMarket
    | UnknownPosition
    | AlreadyExists
    | InvalidPolicy
    | InvalidAmount
    | WrongRoom
    | WrongGeneration
    | WrongPolicy
    | WrongCellPolicy
    | UnderwritingDenied
    | WrongNonce
    | ExpiredIntent
    | InvalidTime
    | StaleOracle
    | FutureOracle
    | MissingMaturityObservation
    | PriceOutOfBounds
    | MarketNotAllowed
    | CellNotAllowed
    | ContributionBudget
    | LossBudget
    | InsufficientBalance
    | InsufficientBacking
    | NotionalLimit
    | LeverageLimit
    | PositionLimit
    | FeeLimit
    | Arithmetic
    | Invariant
    | ReplayMismatch

  // ---- Ordered sets, as the strictly ascending sequences a BTreeSet iterates ----

  datatype Admission = Admission(member: MemberId, owner: OwnerId, generation: u64)
  datatype MarketGeneration = MarketGeneration(market: MarketId, generation: u64)

  predicate IdLess(a: u64, b: u64) {
    a < b
  }

  predicate AdmissionLess(a: Admission, b: Admission) {
    a.member < b.member || (a.member == b.member
                            && (a.owner < b.owner || (a.owner == b.owner && a.generation < b.generation)))
  }

  predicate MarketGenerationLess(a: MarketGeneration, b: MarketGeneration) {
    a.market < b.market || (a.market == b.market && a.generation < b.generation)
  }

  predicate Ascending<T>(s: seq<T>, less: (T, T) -> bool) {
    forall i {:trigger s[i]} :: 0 < i < |s| ==> less(s[i - 1], s[i])
  }

  type IdSet = s: seq<u64> | |s| < U32_LIMIT && Ascending(s, IdLess)
  type AdmissionSet = s: seq<Admission> | |s| < U32_LIMIT && Ascending(s, AdmissionLess)
  type MarketGenerationSet = s: seq<MarketGeneration> | |s| < U32_LIMIT && Ascending(s, MarketGenerationLess)

  // ---- Policies and agreements ----

  datatype Policy = Policy(
    contributionLimit: u128, lossLimit: u128, allowedMarkets: IdSet, allowedCells: IdSet, maxLeverageBps: u32,
    maxPositionNotional: u128, maxTotalNotional: u128, maxOpenPositions: u16, maxFeeBps: u16,
    maxIntentLifetimeSlots: u64)

  datatype UnderwritingPolicy = UnderwritingPolicy(
    allowedMembers: AdmissionSet, allowedMarketGenerations: MarketGenerationSet, maxPositionNotional: u128,
    maxProfitCap: u128, maxLeverageBps: u32, maxTotalReserved: u128, minFeeBps: u16)

  datatype Market = Market(
    id: MarketId, generation: u64, assetDecimals: u8, minPrice: u128, maxPrice: u128,
    maxOracleAgeSlots: u64, maxPositionLifetimeSlots: u64, feeBps: u16)

  datatype Observation = Observation(market: MarketId, generation: u64, price: u128, publishedSlot: u64)

  datatype Consent = Consent(
    room: RoomId, member: MemberId, memberGeneration: u64, policyRevision: u64, marketGeneration: u64,
    nonce: u64, issuedSlot: u64, expiresSlot: u64, minExecutionPrice: u128, maxExecutionPrice: u128)

  datatype OpenIntent = OpenIntent(
    consent: Consent, market: MarketId, cell: CellId, cellPolicyRevision: u64, side: Side,
    sizeBase: u128, collateral: u128, profitCap: u128, maxFee: u128, maturitySlot: u64)

  datatype CloseIntent = CloseIntent(consent: Consent, position: PositionId)

  datatype Member = Member(
    owner: OwnerId, delegate: Option<DelegateId>, generation: u64, policyRevision: u64, policy: Policy,
    nextNonce: u64, free: u128, contributed: u128, withdrawn: u128, lossAndFeeUsed: u128,
    collateralAtRisk: u128, openNotional: u128, openPositions: u16)

  datatype Cell = Cell(
    owner: OwnerId, policyRevision: u64, policy: UnderwritingPolicy, balance: u128, reserved: u128,
    contributed: u128, withdrawn: u128)

  datatype OpenReceipt = OpenReceipt(
    position: PositionId, owner: OwnerId, backingOwner: OwnerId, intent: OpenIntent, policy: Policy,
    cellPolicy: UnderwritingPolicy, market: Market, observation: Observation, executedSlot: u64,
    entryNotional: u128, fee: u128, maximumPayout: u128)

  datatype CloseReceipt = CloseReceipt(
    position: PositionId, member: MemberId, owner: OwnerId, cell: CellId, policyRevisionAtOpen: u64,
    marketGeneration: u64, observation: Observation, executedSlot: u64, payout: u128, realizedLoss: u128,
    releasedReserve: u128)

  datatype Command =
    | RegisterMarket(actor: Actor, market: Market)
    | AddCell(actor: Actor, cell: CellId, underwriting: UnderwritingPolicy)
    | ChangeCellPolicy(actor: Actor, cell: CellId, expectedRevision: u64, underwriting: UnderwritingPolicy)
    | AddMember(actor: Actor, member: MemberId, delegate: Option<DelegateId>, policy: Policy)
    | ChangePolicy(actor: Actor, member: MemberId, expectedRevision: u64, delegate: Option<DelegateId>, policy: Policy)
    | Contribute(actor: Actor, member: MemberId, amount: u128)
    | FundCell(actor: Actor, cell: CellId, amount: u128)
    | Withdraw(actor: Actor, member: MemberId, amount: u128)
    | WithdrawCell(actor: Actor, cell: CellId, amount: u128)
    | Open(actor: Actor, openIntent: OpenIntent, observation: Observation, nowSlot: u64)
    | Close(actor: Actor, closeIntent: CloseIntent, observation: Observation, nowSlot: u64)
    | RecordTerminalObservation(actor: Actor, position: PositionId, observation: Observation, nowSlot: u64)
    | SettleMatured(position: PositionId, nowSlot: u64)

  datatype Outcome =
    | RegisteredMarket(market: MarketId, generation: u64)
    | AddedCell(cell: CellId)
    | ChangedCellPolicy(cell: CellId, revision: u64)
    | RecordedTerminalObservation(observation: Observation)
    | AddedMember(member: MemberId)
    | ChangedPolicy(member: MemberId, revision: u64)
    | Contributed(member: MemberId, amount: u128)
    | FundedCell(cell: CellId, amount: u128)
    | Withdrawn(member: MemberId, owner: OwnerId, amount: u128)
    | WithdrawnCell(cell: CellId, owner: OwnerId, amount: u128)
    | Opened(receipt: OpenReceipt)
    | Closed(closed: CloseReceipt)

  datatype Record = Record(command: Command, outcome: Outcome)

  datatype TerminalKey = TerminalKey(market: MarketId, generation: u64, maturitySlot: u64)

  datatype RoomState = RoomState(
    id: RoomId, administrator: OwnerId,
    members: map<MemberId, Member>, cells: map<CellId, Cell>, markets: map<MarketId, Market>,
    positions: map<PositionId, OpenReceipt>, terminal: map<TerminalKey, Observation>,
    nextPosition: u64, currentSlot: u64, externalIn: u128, externalOut: u128, records: seq<Record>)

  // ---- Pure checks ----

  function Add(a: u128, b: u128): Result<u128, Error> {
    if a + b < U128_LIMIT then Success(a + b) else Failure(Arithmetic)
  }

  function Sub(a: u128, b: u128): Result<u128, Error> {
    if b <= a then Success(a - b) else Failure(Arithmetic)
  }

  function Next(a: u64): Result<u64, Error> {
    if a + 1 < U64_LIMIT then Success(a + 1) else Failure(Arithmetic)
  }

  function Arith<T>(r: Result<T, RiskError>): Result<T, Error> {
    if r.Success? then Success(r.value) else Failure(Arithmetic)
  }

  function Find<V>(m: map<u64, V>, key: u64, missing: Error): Result<V, Error> {
    if key in m then Success(m[key]) else Failure(missing)
  }

  function ValidatePolicy(p: Policy): Check<Error> {
    Need(
      && p.contributionLimit != 0
      && p.lossLimit != 0
      && p.lossLimit <= p.contributionLimit
      && p.allowedMarkets != []
      && p.allowedCells != []
      && p.maxLeverageBps != 0
      && p.maxPositionNotional != 0
      && p.maxTotalNotional >= p.maxPositionNotional
      && p.maxOpenPositions != 0
      && p.maxFeeBps <= 10_000
      && p.maxIntentLifetimeSlots != 0,
      InvalidPolicy)
  }

  function ValidateUnderwriting(p: UnderwritingPolicy): Check<Error> {
    Need(
      && p.maxPositionNotional != 0
      && p.maxLeverageBps != 0
      && p.maxTotalReserved != 0
      && p.minFeeBps <= 10_000
      && (forall i :: 0 <= i < |p.allowedMembers| ==> p.allowedMembers[i].generation != 0)
      && (forall i :: 0 <= i < |p.allowedMarketGenerations| ==> p.allowedMarketGenerations[i].generation != 0),
      InvalidPolicy)
  }

  function ValidateMarket(m: Market): Check<Error> {
    Need(
      && m.generation != 0
      && m.assetDecimals <= 18
      && m.minPrice != 0
      && m.minPrice <= m.maxPrice
      && m.maxPositionLifetimeSlots != 0
      && m.feeBps <= 10_000,
      InvalidPolicy)
  }

  function CheckPrice(m: Market, quote: Observation, now: u64): Check<Error> {
    if quote.market != m.id || quote.generation != m.generation then Fail(WrongGeneration)
    else if quote.publishedSlot > now then Fail(FutureOracle)
    else if now - quote.publishedSlot > m.maxOracleAgeSlots then Fail(StaleOracle)
    else Need(m.minPrice <= quote.price <= m.maxPrice, PriceOutOfBounds)
  }

  function CheckTimeAndLimit(c: Consent, policy: Policy, now: u64, price: u128): Check<Error> {
    if c.issuedSlot > now || c.expiresSlot < c.issuedSlot then Fail(InvalidTime)
    else if now > c.expiresSlot then Fail(ExpiredIntent)
    else if c.expiresSlot - c.issuedSlot > policy.maxIntentLifetimeSlots then Fail(InvalidTime)
    else Need(0 < c.minExecutionPrice <= c.maxExecutionPrice && c.minExecutionPrice <= price <= c.maxExecutionPrice,
              PriceOutOfBounds)
  }

  function RequireOwner(actor: Actor, owner: OwnerId): Check<Error> {
    Need(actor == Owner(owner), Unauthorized)
  }

  function AuthorizeTrade(m: Member, actor: Actor): Check<Error> {
    Need(actor == Owner(m.owner) || (actor.Delegate? && m.delegate == Some(actor.delegate)), Unauthorized)
  }

  function CellFree(c: Cell): Result<u128, Error> {
    Sub(c.balance, c.reserved)
  }

  function KeyOf(p: OpenReceipt): TerminalKey {
    TerminalKey(p.market.id, p.market.generation, p.intent.maturitySlot)
  }

  /** The capped contract's payout, recomputed from its own receipt. */
  function PayoutAt(p: OpenReceipt, price: u128): Result<u128, Error> {
    if !(p.market.minPrice <= price <= p.market.maxPrice) then Failure(PriceOutOfBounds) else
    var pnl :- Arith(UnrealizedPnl(p.intent.side, p.intent.sizeBase, p.observation.price, price,
                                   p.market.assetDecimals));
    var equity :- Arith(Equity(p.intent.collateral, pnl, 0, 0));
    var settlement :- Arith(SettleClose(p.intent.collateral, p.intent.profitCap, equity, 0, 6));
    Success(settlement.netPayout)
  }
}

/** What each room command does, as functions from state to state. */
module RoomKernel {
  import opened Numbers
  import opened WideMath
  import opened Position
  import opened RoomModel
  import opened Sums

  function NewRoom(id: RoomId, administrator: OwnerId): RoomState {
    RoomState(id, administrator, map[], map[], map[], map[], map[], 1, 0, 0, 0, [])
  }

  // ---- Admission: every check an entry or an exit passes before anything moves ----

  function ConsentMember(s: RoomState, actor: Actor, c: Consent): Result<Member, Error> {
    if c.room != s.id then Failure(WrongRoom) else
    var member :- Find(s.members, c.member, UnknownMember);
    :- AuthorizeTrade(member, actor);
    :- Need(c.memberGeneration == member.generation, WrongGeneration);
    :- Need(c.nonce == member.nextNonce, WrongNonce);
    Success(member)
  }

  datatype Terms = Terms(market: Market, notional: u128, fee: u128)

  /** The market's and the member policy's limits, leaving the balances to `CheckBudgets`. */
  function EntryTerms(s: RoomState, member: Member, intent: OpenIntent, observation: Observation, now: u64)
    : Result<Terms, Error>
  {
    var policy := member.policy;
    :- Need(intent.consent.policyRevision == member.policyRevision, WrongPolicy);
    :- Need(intent.market in policy.allowedMarkets, MarketNotAllowed);
    :- Need(intent.cell in policy.allowedCells, CellNotAllowed);
    var market :- Find(s.markets, intent.market, UnknownMarket);
    :- Need(intent.consent.marketGeneration == market.generation, WrongGeneration);
    :- CheckPrice(market, observation, now);
    :- CheckTimeAndLimit(intent.consent, policy, now, observation.price);
    :- Need(now < intent.maturitySlot && intent.maturitySlot - now <= market.maxPositionLifetimeSlots, InvalidTime);
    :- Need(intent.sizeBase != 0 && intent.collateral != 0, InvalidAmount);
    var notional :- Arith(NotionalUsdCeil(intent.sizeBase, observation.price, market.assetDecimals));
    var total :- Add(member.openNotional, notional);
    :- Need(notional <= policy.maxPositionNotional && total <= policy.maxTotalNotional, NotionalLimit);
    :- Need(CmpProducts(notional, 10_000, intent.collateral, policy.maxLeverageBps) != Greater, LeverageLimit);
    :- Need(member.openPositions < policy.maxOpenPositions, PositionLimit);
    var fee :- Arith(CeilMulDiv(notional, market.feeBps, 10_000));
    :- Need(market.feeBps <= policy.maxFeeBps && fee <= intent.maxFee, FeeLimit);
    Success(Terms(market, notional, fee))
  }

  /** The debit fits the member's free balance and both lifetime loss budgets. */
  function CheckBudgets(member: Member, collateral: u128, fee: u128): Result<u128, Error> {
    var debit :- Add(collateral, fee);
    :- Need(debit <= member.free, InsufficientBalance);
    var used :- Add(member.lossAndFeeUsed, member.collateralAtRisk);
    var worst :- Add(used, debit);
    :- Need(worst <= Min(member.policy.lossLimit, member.contributed), LossBudget);
    Success(debit)
  }

  /** The backing cell admits the entry and can reserve its whole payout. */
  function CheckBacking(cell: Cell, member: Member, intent: OpenIntent, terms: Terms): Result<u128, Error> {
    var u := cell.policy;
    :- Need(intent.cellPolicyRevision == cell.policyRevision, WrongCellPolicy);
    var maximumPayout :- Add(intent.collateral, intent.profitCap);
    :- Need(Admission(intent.consent.member, member.owner, member.generation) in u.allowedMembers
            && MarketGeneration(intent.market, terms.market.generation) in u.allowedMarketGenerations
            && terms.notional <= u.maxPositionNotional
            && intent.profitCap <= u.maxProfitCap, UnderwritingDenied);
    var reserved :- Add(cell.reserved, maximumPayout);
    :- Need(reserved <= u.maxTotalReserved
            && terms.market.feeBps >= u.minFeeBps
            && CmpProducts(terms.notional, 10_000, intent.collateral, u.maxLeverageBps) != Greater, UnderwritingDenied);
    var free :- CellFree(cell);
    :- Need(intent.profitCap <= free, InsufficientBacking);
    Success(maximumPayout)
  }

  /** The receipt an entry would execute, preflighted at both ends of the market's price band. */
  function AdmitOpen(s: RoomState, actor: Actor, intent: OpenIntent, observation: Observation, now: u64)
    : Result<OpenReceipt, Error>
  {
    var member :- ConsentMember(s, actor, intent.consent);
    var terms :- EntryTerms(s, member, intent, observation, now);
    var _ :- CheckBudgets(member, intent.collateral, terms.fee);
    var cell :- Find(s.cells, intent.cell, UnknownCell);
    var maximumPayout :- CheckBacking(cell, member, intent, terms);
    var receipt := OpenReceipt(s.nextPosition, member.owner, cell.owner, intent, member.policy, cell.policy,
                               terms.market,
                               observation, now, terms.notional, terms.fee, maximumPayout);
    var _ :- PayoutAt(receipt, terms.market.minPrice);
    var _ :- PayoutAt(receipt, terms.market.maxPrice);
    Success(receipt)
  }

  /** The receipt an authorised exit would settle. */
  function AdmitClose(s: RoomState, actor: Actor, intent: CloseIntent, observation: Observation, now: u64)
    : Result<OpenReceipt, Error>
  {
    var _ :- ConsentMember(s, actor, intent.consent);
    var p :- Find(s.positions, intent.position, UnknownPosition);
    :- Need(intent.consent.member == p.intent.consent.member, Unauthorized);
    :- Need(intent.consent.marketGeneration == p.market.generation, WrongGeneration);
    :- Need(intent.consent.policyRevision == p.intent.consent.policyRevision, WrongPolicy);
    :- Need(now >= p.executedSlot, InvalidTime);
    :- Need(now < p.intent.maturitySlot || (KeyOf(p) in s.terminal && s.terminal[KeyOf(p)] == observation),
            MissingMaturityObservation);
    :- CheckPrice(p.market, observation, if now >= p.intent.maturitySlot then p.intent.maturitySlot else now);
    :- CheckTimeAndLimit(intent.consent, p.policy, now, observation.price);
    Success(p)
  }

  // ---- Movement ----

  function OpenPosition(s: RoomState, r: OpenReceipt): Result<(RoomState, Outcome), Error> {
    var nextPosition :- Next(s.nextPosition);
    var m :- Find(s.members, r.intent.consent.member, UnknownMember);
    var nonce :- Next(m.nextNonce);
    var debit :- Add(r.intent.collateral, r.fee);
    var free :- Sub(m.free, debit);
    var used :- Add(m.lossAndFeeUsed, r.fee);
    var risk :- Add(m.collateralAtRisk, r.intent.collateral);
    var notional :- Add(m.openNotional, r.entryNotional);
    :- Need(m.openPositions + 1 < U16_LIMIT, Arithmetic);
    var c :- Find(s.cells, r.intent.cell, UnknownCell);
    var balance :- Add(c.balance, debit);
    var reserved :- Add(c.reserved, r.maximumPayout);
    var m' := m.(nextNonce := nonce, free := free, lossAndFeeUsed := used, collateralAtRisk := risk,
                 openNotional := notional, openPositions := m.openPositions + 1);
    var c' := c.(balance := balance, reserved := reserved);
    Success((s.(nextPosition := nextPosition,
                members := s.members[r.intent.consent.member := m'],
                cells := s.cells[r.intent.cell := c'],
                positions := s.positions[r.position := r]),
             Opened(r)))
  }

  function SettlePosition(s: RoomState, p: OpenReceipt, observation: Observation, now: u64, consumeNonce: bool)
    : Result<(RoomState, Outcome), Error>
  {
    var payout :- PayoutAt(p, observation.price);
    var loss: u128 := if payout < p.intent.collateral then p.intent.collateral - payout else 0;
    var m :- Find(s.members, p.intent.consent.member, UnknownMember);
    var nonce :- if consumeNonce then Next(m.nextNonce) else Success(m.nextNonce);
    var free :- Add(m.free, payout);
    var used :- Add(m.lossAndFeeUsed, loss);
    var risk :- Sub(m.collateralAtRisk, p.intent.collateral);
    var notional :- Sub(m.openNotional, p.entryNotional);
    :- Need(m.openPositions != 0, Invariant);
    var c :- Find(s.cells, p.intent.cell, UnknownCell);
    var balance :- Sub(c.balance, payout);
    var reserved :- Sub(c.reserved, p.maximumPayout);
    var m' := m.(nextNonce := nonce, free := free, lossAndFeeUsed := used, collateralAtRisk := risk,
                 openNotional := notional, openPositions := m.openPositions - 1);
    var c' := c.(balance := balance, reserved := reserved);
    Success((s.(members := s.members[p.intent.consent.member := m'],
                cells := s.cells[p.intent.cell := c'],
                positions := s.positions - {p.position}),
             Closed(CloseReceipt(p.position, p.intent.consent.member, p.owner, p.intent.cell,
                                 p.intent.consent.policyRevision, p.market.generation, observation, now,
                                 payout, loss, p.maximumPayout))))
  }

  function ApplyRegisterMarket(s: RoomState, actor: Actor, market: Market): Result<(RoomState, Outcome), Error> {
    if actor != Owner(s.administrator) then Failure(Unauthorized) else
    :- ValidateMarket(market);
    var expected :- if market.id in s.markets then Next(s.markets[market.id].generation) else Success(1);
    :- Need(market.generation == expected, WrongGeneration);
    Success((s.(markets := s.markets[market.id := market]), RegisteredMarket(market.id, market.generation)))
  }

  function ApplyAddCell(s: RoomState, actor: Actor, cell: CellId, policy: UnderwritingPolicy)
    : Result<(RoomState, Outcome), Error>
  {
    if !actor.Owner? then Failure(Unauthorized) else
    :- Need(cell !in s.cells, AlreadyExists);
    :- ValidateUnderwriting(policy);
    Success((s.(cells := s.cells[cell := Cell(actor.owner, 1, policy, 0, 0, 0, 0)]), AddedCell(cell)))
  }

  function ApplyChangeCellPolicy(s: RoomState, actor: Actor, cell: CellId, expectedRevision: u64,
                                 policy: UnderwritingPolicy)
    : Result<(RoomState, Outcome), Error>
  {
    var c :- Find(s.cells, cell, UnknownCell);
    :- RequireOwner(actor, c.owner);
    :- ValidateUnderwriting(policy);
    :- Need(expectedRevision == c.policyRevision, WrongCellPolicy);
    var revision :- Next(c.policyRevision);
    Success((s.(cells := s.cells[cell := c.(policyRevision := revision, policy := policy)]),
             ChangedCellPolicy(cell, revision)))
  }

  function ApplyAddMember(s: RoomState, actor: Actor, member: MemberId, delegate: Option<DelegateId>, policy: Policy)
    : Result<(RoomState, Outcome), Error>
  {
    if !actor.Owner? then Failure(Unauthorized) else
    :- ValidatePolicy(policy);
    :- Need(member !in s.members, AlreadyExists);
    Success((s.(members := s.members[member := Member(actor.owner, delegate, 1, 1, policy, 0, 0, 0, 0, 0, 0, 0, 0)]),
             AddedMember(member)))
  }

  function ApplyChangePolicy(s: RoomState, actor: Actor, member: MemberId, expectedRevision: u64,
                             delegate: Option<DelegateId>, policy: Policy): Result<(RoomState, Outcome), Error>
  {
    if ValidatePolicy(policy).Fail? then Failure(InvalidPolicy) else
    var m :- Find(s.members, member, UnknownMember);
    :- RequireOwner(actor, m.owner);
    :- Need(expectedRevision == m.policyRevision, WrongPolicy);
    :- Need(policy.contributionLimit >= m.contributed, ContributionBudget);
    var revision :- Next(m.policyRevision);
    Success((s.(members := s.members[member := m.(policyRevision := revision, policy := policy, delegate := delegate)]),
             ChangedPolicy(member, revision)))
  }

  function ApplyContribute(s: RoomState, actor: Actor, member: MemberId, amount: u128)
    : Result<(RoomState, Outcome), Error>
  {
    if amount == 0 then Failure(InvalidAmount) else
    var m :- Find(s.members, member, UnknownMember);
    :- RequireOwner(actor, m.owner);
    var contributed :- Add(m.contributed, amount);
    :- Need(contributed <= m.policy.contributionLimit, ContributionBudget);
    var free :- Add(m.free, amount);
    var externalIn :- Add(s.externalIn, amount);
    Success((s.(members := s.members[member := m.(contributed := contributed, free := free)], externalIn := externalIn),
             Contributed(member, amount)))
  }

  function ApplyFundCell(s: RoomState, actor: Actor, cell: CellId, amount: u128): Result<(RoomState, Outcome), Error> {
    if amount == 0 then Failure(InvalidAmount) else
    var c :- Find(s.cells, cell, UnknownCell);
    :- RequireOwner(actor, c.owner);
    var balance :- Add(c.balance, amount);
    var contributed :- Add(c.contributed, amount);
    var externalIn :- Add(s.externalIn, amount);
    Success((s.(cells := s.cells[cell := c.(balance := balance, contributed := contributed)], externalIn := externalIn),
             FundedCell(cell, amount)))
  }

  function ApplyWithdraw(s: RoomState, actor: Actor, member: MemberId, amount: u128)
    : Result<(RoomState, Outcome), Error>
  {
    if amount == 0 then Failure(InvalidAmount) else
    var m :- Find(s.members, member, UnknownMember);
    :- RequireOwner(actor, m.owner);
    :- Need(amount <= m.free, InsufficientBalance);
    var withdrawn :- Add(m.withdrawn, amount);
    var externalOut :- Add(s.externalOut, amount);
    Success((s.(members := s.members[member := m.(free := m.free - amount, withdrawn := withdrawn)],
                externalOut := externalOut),
             Withdrawn(member, m.owner, amount)))
  }

  function ApplyWithdrawCell(s: RoomState, actor: Actor, cell: CellId, amount: u128)
    : Result<(RoomState, Outcome), Error>
  {
    if amount == 0 then Failure(InvalidAmount) else
    var c :- Find(s.cells, cell, UnknownCell);
    :- RequireOwner(actor, c.owner);
    var available :- CellFree(c);
    :- Need(amount <= available, InsufficientBacking);
    var withdrawn :- Add(c.withdrawn, amount);
    var externalOut :- Add(s.externalOut, amount);
    Success((s.(cells := s.cells[cell := c.(balance := c.balance - amount, withdrawn := withdrawn)],
                externalOut := externalOut),
             WithdrawnCell(cell, c.owner, amount)))
  }

  function ApplyOpen(s: RoomState, actor: Actor, intent: OpenIntent, observation: Observation, now: u64)
    : Result<(RoomState, Outcome), Error>
  {
    var receipt :- AdmitOpen(s, actor, intent, observation, now);
    OpenPosition(s, receipt)
  }

  function ApplyClose(s: RoomState, actor: Actor, intent: CloseIntent, observation: Observation, now: u64)
    : Result<(RoomState, Outcome), Error>
  {
    var p :- AdmitClose(s, actor, intent, observation, now);
    SettlePosition(s, p, observation, now, true)
  }

  function ApplyRecordTerminal(s: RoomState, actor: Actor, position: PositionId, observation: Observation, now: u64)
    : Result<(RoomState, Outcome), Error>
  {
    if actor != Owner(s.administrator) then Failure(Unauthorized) else
    var p :- Find(s.positions, position, UnknownPosition);
    :- Need(now >= p.intent.maturitySlot, InvalidTime);
    :- Need(observation.publishedSlot == p.intent.maturitySlot, MissingMaturityObservation);
    :- CheckPrice(p.market, observation, p.intent.maturitySlot);
    :- Need(KeyOf(p) !in s.terminal, AlreadyExists);
    Success((s.(terminal := s.terminal[KeyOf(p) := observation]), RecordedTerminalObservation(observation)))
  }

  function ApplySettleMatured(s: RoomState, position: PositionId, now: u64): Result<(RoomState, Outcome), Error> {
    var p :- Find(s.positions, position, UnknownPosition);
    :- Need(now >= p.intent.maturitySlot, InvalidTime);
    :- Need(KeyOf(p) in s.terminal, MissingMaturityObservation);
    SettlePosition(s, p, s.terminal[KeyOf(p)], now, false)
  }

  function Apply(s: RoomState, command: Command): Result<(RoomState, Outcome), Error> {
    match command
    case RegisterMarket(actor, market) => ApplyRegisterMarket(s, actor, market)
    case AddCell(actor, cell, policy) => ApplyAddCell(s, actor, cell, policy)
    case ChangeCellPolicy(actor, cell, revision, policy) => ApplyChangeCellPolicy(s, actor, cell, revision, policy)
    case AddMember(actor, member, delegate, policy) => ApplyAddMember(s, actor, member, delegate, policy)
    case ChangePolicy(actor, member, revision, delegate, policy) =>
      ApplyChangePolicy(s, actor, member, revision, delegate, policy)
    case Contribute(actor, member, amount) => ApplyContribute(s, actor, member, amount)
    case FundCell(actor, cell, amount) => ApplyFundCell(s, actor, cell, amount)
    case Withdraw(actor, member, amount) => ApplyWithdraw(s, actor, member, amount)
    case WithdrawCell(actor, cell, amount) => ApplyWithdrawCell(s, actor, cell, amount)
    case Open(actor, intent, observation, now) => ApplyOpen(s, actor, intent, observation, now)
    case Close(actor, intent, observation, now) => ApplyClose(s, actor, intent, observation, now)
    case RecordTerminalObservation(actor, position, observation, now) =>
      ApplyRecordTerminal(s, actor, position, observation, now)
    case SettleMatured(position, now) => ApplySettleMatured(s, position, now)
  }

  // ---- Reconciliation ----

  function FreeOf(): Member -> nat {
    (m: Member) => m.free
  }

  function BalanceOf(): Cell -> nat {
    (c: Cell) => c.balance
  }

  function CollateralOf(member: MemberId): OpenReceipt -> nat {
    (p: OpenReceipt) => if p.intent.consent.member == member then p.intent.collateral else 0
  }

  function NotionalOf(member: MemberId): OpenReceipt -> nat {
    (p: OpenReceipt) => if p.intent.consent.member == member then p.entryNotional else 0
  }

  function CountOf(member: MemberId): OpenReceipt -> nat {
    (p: OpenReceipt) => if p.intent.consent.member == member then 1 else 0
  }

  function ReserveOf(cell: CellId): OpenReceipt -> nat {
    (p: OpenReceipt) => if p.intent.cell == cell then p.maximumPayout else 0
  }

  ghost predicate HoldingsReconcile(s: RoomState) {
    s.externalOut + Total(s.members, FreeOf()) + Total(s.cells, BalanceOf()) == s.externalIn
  }

  ghost predicate MemberReconciles(m: Member, id: MemberId, positions: map<PositionId, OpenReceipt>) {
    && m.contributed <= m.policy.contributionLimit
    && (forall k :: k in positions && positions[k].intent.consent.member == id ==>
          positions[k].owner == m.owner && positions[k].intent.consent.memberGeneration == m.generation)
    && Total(positions, CollateralOf(id)) == m.collateralAtRisk
    && Total(positions, NotionalOf(id)) == m.openNotional
    && Total(positions, CountOf(id)) == m.openPositions
    && m.lossAndFeeUsed + m.collateralAtRisk <= m.contributed
  }

  ghost predicate CellReconciles(c: Cell, id: CellId, positions: map<PositionId, OpenReceipt>,
                                 members: map<MemberId, Member>)
  {
    && (forall k :: k in positions && positions[k].intent.cell == id ==>
          && positions[k].backingOwner == c.owner
          && positions[k].intent.consent.member in members
          && positions[k].maximumPayout == positions[k].intent.collateral + positions[k].intent.profitCap)
    && Total(positions, ReserveOf(id)) == c.reserved
    && c.reserved <= c.balance
  }

  /** Exactly the states the kernel's own reconciliation accepts. */
  ghost predicate Reconciles(s: RoomState) {
    && (forall id :: id in s.members ==> MemberReconciles(s.members[id], id, s.positions))
    && (forall id :: id in s.cells ==> CellReconciles(s.cells[id], id, s.positions, s.members))
    && HoldingsReconcile(s)
    && (forall k :: k in s.positions ==> s.positions[k].intent.cell in s.cells)
  }

  // ---- Atomic execution ----

  function SlotOf(command: Command): Option<u64> {
    if command.Open? || command.Close? || command.RecordTerminalObservation? || command.SettleMatured?
    then Some(command.nowSlot) else None
  }

  function WithSlot(s: RoomState, command: Command): RoomState {
    if SlotOf(command).Some? then s.(currentSlot := SlotOf(command).value) else s
  }

  /** Everything `execute` does short of reconciling. */
  function Planned(s: RoomState, command: Command): Result<(RoomState, Outcome), Error> {
    if SlotOf(command).Some? && SlotOf(command).value < s.currentSlot then Failure(InvalidTime) else
    Apply(WithSlot(s, command), command)
  }

  ghost function Execute(s: RoomState, command: Command): Result<(RoomState, Outcome), Error> {
    var planned :- Planned(s, command);
    var (s', outcome) := planned;
    :- Need(Reconciles(s'), Invariant);
    Success((s'.(records := s'.records + [Record(command, outcome)]), outcome))
  }
}
